/** The statements exercised by the assist's own tests, written out as
    syntax with their offsets in `fn f() { ... }`, plus a closure whose
    parameter annotation sits below the direct children. */
module Scenarios {
  import opened Wrappers
  import opened Syntax
  import opened Types
  import opened TextEdit
  import opened AddExplicitTypeAssist

  const I32: Ty := Apply("i32", [])

  /** `let a = 1;` at offsets 9..19 of `fn f() { let a = 1; }`. */
  const OneLiteral: Expr := Expr(Literal, Range(17, 18))
  const LetAEqualsOne: LetStmt := LetStmt(
    Range(9, 19),
    [ Token(LetKw, Range(9, 12)), Token(Whitespace, Range(12, 13)),
      Node(BindPatNode, Range(13, 14), [Node(NameNode, Range(13, 14), [Token(Ident, Range(13, 14))])]),
      Token(Whitespace, Range(14, 15)), Token(Eq, Range(15, 16)), Token(Whitespace, Range(16, 17)),
      Node(Literal, Range(17, 18), [Token(IntNumber, Range(17, 18))]),
      Token(Semicolon, Range(18, 19)) ],
    Some(BindPat(Range(13, 14), Some(Name(Range(13, 14))))),
    Some(OneLiteral))

  /** With `1` inferred as `i32` rendered `i32`, the assist targets the
      pattern `a` and turns `let a = 1;` into `let a: i32 = 1;`. */
  lemma SimpleExprGetsAnnotated(typeOf: Expr -> Option<Ty>, display: Ty -> string)
    requires typeOf(OneLiteral) == Some(I32)
    requires display(I32) == "i32"
    ensures var r := AddExplicitType(LetAEqualsOne, typeOf, display);
      && r.Some?
      && r.value.target == Range(13, 14)
      && |r.value.edits| == 1
      && ApplyInsert("fn f() { let a = 1; }", r.value.edits[0].offset, r.value.edits[0].text)
         == "fn f() { let a: i32 = 1; }"
  {
  }

  /** `let a = None;`: the initializer's type is `Option<{unknown}>`. */
  const NoneExpr: Expr := Expr(PathExpr, Range(17, 21))
  const LetAEqualsNone: LetStmt := LetStmt(
    Range(9, 22),
    [ Token(LetKw, Range(9, 12)), Token(Whitespace, Range(12, 13)),
      Node(BindPatNode, Range(13, 14), [Node(NameNode, Range(13, 14), [Token(Ident, Range(13, 14))])]),
      Token(Whitespace, Range(14, 15)), Token(Eq, Range(15, 16)), Token(Whitespace, Range(16, 17)),
      Node(PathExpr, Range(17, 21), [Node(PathNode, Range(17, 21), [Token(Ident, Range(17, 21))])]),
      Token(Semicolon, Range(21, 22)) ],
    Some(BindPat(Range(13, 14), Some(Name(Range(13, 14))))),
    Some(NoneExpr))

  /** The assist is not offered when the parameter of `Option` is not
      inferred. */
  lemma NotApplicableIfTypeNotInferred(typeOf: Expr -> Option<Ty>, display: Ty -> string)
    requires typeOf(NoneExpr) == Some(Apply("Option", [Unknown]))
    ensures AddExplicitType(LetAEqualsNone, typeOf, display) == None
  {
    assert IsUnknown(Apply("Option", [Unknown])) by {
      assert Apply("Option", [Unknown]).params[0] == Unknown;
    }
    NoAssistWhenTypeUnresolved(LetAEqualsNone, typeOf, display);
  }

  /** `let a: i32 = 1;`: the annotation's `:` is a direct child. */
  const LetAI32EqualsOne: LetStmt := LetStmt(
    Range(9, 24),
    [ Token(LetKw, Range(9, 12)), Token(Whitespace, Range(12, 13)),
      Node(BindPatNode, Range(13, 14), [Node(NameNode, Range(13, 14), [Token(Ident, Range(13, 14))])]),
      Token(Colon, Range(14, 15)), Token(Whitespace, Range(15, 16)),
      Node(PathType, Range(16, 19), [Node(PathNode, Range(16, 19), [Token(Ident, Range(16, 19))])]),
      Token(Whitespace, Range(19, 20)), Token(Eq, Range(20, 21)), Token(Whitespace, Range(21, 22)),
      Node(Literal, Range(22, 23), [Token(IntNumber, Range(22, 23))]),
      Token(Semicolon, Range(23, 24)) ],
    Some(BindPat(Range(13, 14), Some(Name(Range(13, 14))))),
    Some(Expr(Literal, Range(22, 23))))

  /** Not offered when the type is already written, whatever the semantic
      model answers. */
  lemma NotApplicableIfTypeAlreadySpecified(typeOf: Expr -> Option<Ty>, display: Ty -> string)
    ensures AddExplicitType(LetAI32EqualsOne, typeOf, display) == None
  {
    assert LetAI32EqualsOne.children[3].kind == Colon;
  }

  /** `let a: (i32, i32) = (3, 4);`, whose annotation is a tuple type. */
  const LetATupleAnnotated: LetStmt := LetStmt(
    Range(9, 36),
    [ Token(LetKw, Range(9, 12)), Token(Whitespace, Range(12, 13)),
      Node(BindPatNode, Range(13, 14), [Node(NameNode, Range(13, 14), [Token(Ident, Range(13, 14))])]),
      Token(Colon, Range(14, 15)), Token(Whitespace, Range(15, 16)),
      Node(TupleType, Range(16, 26), [Token(LParen, Range(16, 17)), Token(Comma, Range(20, 21)), Token(RParen, Range(25, 26))]),
      Token(Whitespace, Range(26, 27)), Token(Eq, Range(27, 28)), Token(Whitespace, Range(28, 29)),
      Node(TupleExpr, Range(29, 35), [Token(LParen, Range(29, 30)), Token(Comma, Range(31, 32)), Token(RParen, Range(34, 35))]),
      Token(Semicolon, Range(35, 36)) ],
    Some(BindPat(Range(13, 14), Some(Name(Range(13, 14))))),
    Some(Expr(TupleExpr, Range(29, 35))))

  /** Not offered when the written type is a tuple either. */
  lemma NotApplicableIfSpecifiedTypeIsTuple(typeOf: Expr -> Option<Ty>, display: Ty -> string)
    ensures AddExplicitType(LetATupleAnnotated, typeOf, display) == None
  {
    assert LetATupleAnnotated.children[3].kind == Colon;
  }

  /** `let f = |x: i32| x;`: the only `:` is inside the closure. */
  const Closure: Expr := Expr(LambdaExpr, Range(17, 27))
  const LetClosure: LetStmt := LetStmt(
    Range(9, 28),
    [ Token(LetKw, Range(9, 12)), Token(Whitespace, Range(12, 13)),
      Node(BindPatNode, Range(13, 14), [Node(NameNode, Range(13, 14), [Token(Ident, Range(13, 14))])]),
      Token(Whitespace, Range(14, 15)), Token(Eq, Range(15, 16)), Token(Whitespace, Range(16, 17)),
      Node(LambdaExpr, Range(17, 27), [
        Node(ParamList, Range(17, 25), [
          Token(Pipe, Range(17, 18)),
          Node(Param, Range(18, 24), [Token(Ident, Range(18, 19)), Token(Colon, Range(19, 20))]),
          Token(Pipe, Range(24, 25))]),
        Node(PathExpr, Range(26, 27), [Token(Ident, Range(26, 27))])]),
      Token(Semicolon, Range(27, 28)) ],
    Some(BindPat(Range(13, 14), Some(Name(Range(13, 14))))),
    Some(Closure))

  /** A `:` below the direct children does not block the assist: the
      statement mentions `:` yet is offered an annotation whenever the
      closure's inferred type is usable. */
  lemma NestedColonDoesNotBlock(typeOf: Expr -> Option<Ty>, display: Ty -> string)
    requires typeOf(Closure).Some? && !IsUnknown(typeOf(Closure).value)
    ensures Mentions(LetClosure.children[6], Colon)
    ensures AddExplicitType(LetClosure, typeOf, display).Some?
  {
    var lambda := LetClosure.children[6];
    var params := lambda.children[0];
    var param := params.children[1];
    assert Mentions(param.children[1], Colon);
    assert Mentions(param, Colon);
    assert Mentions(params, Colon);
    IsUnknownIffUnknownWithin(typeOf(Closure).value);
    forall i | 0 <= i < |LetClosure.children|
      ensures LetClosure.children[i].kind != Colon
    {
    }
  }
}
