/** The slice of a parsed syntax tree the assist reads: ranges, kind tags,
    the children of a `let` statement (tokens included), its pattern and
    its initializer. The tree is built elsewhere; here it is plain data. */
module Syntax {
  import opened Wrappers

  /** A half-open range `[start, end)` of offsets into the source text. */
  datatype Range = Range(start: nat, end: nat) {
    predicate Valid() {
      start <= end
    }

    /** `inner` lies within this range. */
    predicate Contains(inner: Range) {
      start <= inner.start && inner.end <= end
    }
  }

  /** Kind tags of the tokens and nodes that occur in the statements the
      model talks about. */
  datatype SyntaxKind =
    | LetKw | Colon | Eq | Semicolon | Comma | Pipe
    | LParen | RParen | Whitespace | Ident | IntNumber
    | NameNode | PathNode | PathType | TupleType | BindPatNode
    | Literal | PathExpr | TupleExpr | LambdaExpr | ParamList | Param

  /** A child of a node: a token, or a node with its own children. */
  datatype Element =
    | Token(kind: SyntaxKind, range: Range)
    | Node(kind: SyntaxKind, range: Range, children: seq<Element>)

  /** The name of a binding. */
  datatype Name = Name(range: Range)

  /** The pattern variants other than a simple name binding. */
  datatype PatShape =
    | RefPat | PlaceholderPat | PathPat | StructPat | TupleStructPat
    | TuplePat | SlicePat | RangePat | LiteralPat

  /** A pattern: a name binding (`a`, `mut a`, `ref a`), whose name may be
      missing in an incomplete tree, or any destructuring or other form. */
  datatype Pat =
    | BindPat(range: Range, name: Option<Name>)
    | OtherPat(shape: PatShape, range: Range)

  /** An expression, as a handle the semantic model can be asked about. */
  datatype Expr = Expr(kind: SyntaxKind, range: Range)

  /** A `let` statement: its direct children (tokens and nodes, in order),
      and its pattern and initializer slots, either of which may be
      missing in an incomplete tree. */
  datatype LetStmt = LetStmt(
    range: Range,
    children: seq<Element>,
    pat: Option<Pat>,
    initializer: Option<Expr>)

  /** Some direct child of `stmt` (not a deeper descendant) has kind `k`. */
  predicate HasDirectChild(stmt: LetStmt, k: SyntaxKind) {
    exists i :: 0 <= i < |stmt.children| && stmt.children[i].kind == k
  }

  /** `e` or some element below it has kind `k`. */
  predicate Mentions(e: Element, k: SyntaxKind)
    decreases e
  {
    e.kind == k ||
    (e.Node? && exists i :: 0 <= i < |e.children| && Mentions(e.children[i], k))
  }
}
