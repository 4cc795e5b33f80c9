/** The "add explicit type" assist: on a `let` statement without a type
    annotation, insert `: <type>` after the bound name, the type being the
    one inferred for the initializer. Type inference and type rendering
    belong to the semantic model and are parameters here: `typeOf` answers
    the type of an expression (or nothing when the query cannot run) and
    `display` renders a type as source text. */
module AddExplicitTypeAssist {
  import opened Wrappers
  import opened Syntax
  import opened Types
  import opened TextEdit

  datatype AssistId = AssistId(name: string)

  /** An offered transformation: identifier, label, the range the editor
      highlights, and the insertions to apply to the original text. */
  datatype Assist = Assist(id: AssistId, labelText: string, target: Range, edits: seq<Insertion>)

  const Id: AssistId := AssistId("add_explicit_type")
  const Label: string := "add explicit type"

  /** The bound name of a simple name binding; `None` for every other
      pattern and for a binding whose name is missing. */
  function BoundName(p: Pat): (r: Option<Name>)
    ensures r.Some? <==> p.BindPat? && p.name.Some?
    ensures r.Some? ==> r == p.name
  {
    match p
    case BindPat(_, name) => name
    case OtherPat(_, _) => None
  }

  /** The conditions under which the assist is offered, stated without the
      pipeline: an initializer, a named simple binding, no `:` among the
      direct children, and an inferred type with no `Unknown` at any depth
      of its parameters. */
  ghost predicate Applicable(stmt: LetStmt, typeOf: Expr -> Option<Ty>) {
    && stmt.initializer.Some?
    && stmt.pat.Some? && stmt.pat.value.BindPat? && stmt.pat.value.name.Some?
    && (forall i :: 0 <= i < |stmt.children| ==> stmt.children[i].kind != Colon)
    && typeOf(stmt.initializer.value).Some?
    && !UnknownWithin(typeOf(stmt.initializer.value).value)
  }

  /** The assist on a located `let` statement, as a chain of gates each of
      which may end it with `None`. When it is offered, the target is the
      whole pattern's range and the single insertion puts `": "` followed
      by the rendered type at the end of the name's range. */
  function AddExplicitType(stmt: LetStmt, typeOf: Expr -> Option<Ty>, display: Ty -> string)
    : (r: Option<Assist>)
    ensures r.Some? <==> Applicable(stmt, typeOf)
    ensures r.Some? ==>
      && r.value.id == Id
      && r.value.labelText == Label
      && r.value.target == stmt.pat.value.range
      && r.value.edits == [Insertion(stmt.pat.value.name.value.range.end,
                                     ": " + display(typeOf(stmt.initializer.value).value))]
  {
    var expr :- stmt.initializer;
    var pat :- stmt.pat;
    var name :- BoundName(pat);
    if HasDirectChild(stmt, Colon) then None
    else
      var ty :- typeOf(expr);
      IsUnknownIffUnknownWithin(ty);
      if IsUnknown(ty) then None
      else Some(Assist(Id, Label, pat.range, [Insertion(name.range.end, ": " + display(ty))]))
  }

  /** No assist without an initializer, for a pattern that is missing or
      not a simple name binding, or for a binding without a name. */
  lemma NoAssistWithoutNamedBinding(stmt: LetStmt, typeOf: Expr -> Option<Ty>, display: Ty -> string)
    requires || stmt.initializer.None?
             || stmt.pat.None?
             || stmt.pat.value.OtherPat?
             || stmt.pat.value.name.None?
    ensures AddExplicitType(stmt, typeOf, display) == None
  {
  }

  /** A destructuring pattern is refused even when the initializer's type
      is fully known. A special case of `NoAssistWithoutNamedBinding`:
      the conditions on the inferred type only make explicit that the
      pattern gate does not depend on them. */
  lemma NoAssistOnDestructuring(stmt: LetStmt, typeOf: Expr -> Option<Ty>, display: Ty -> string)
    requires stmt.pat.Some? && stmt.pat.value.OtherPat?
    requires stmt.initializer.Some?
    requires typeOf(stmt.initializer.value).Some?
    requires FullyConcrete(typeOf(stmt.initializer.value).value)
    ensures AddExplicitType(stmt, typeOf, display) == None
  {
  }

  /** A `:` among the direct children (an annotation already written) rules
      the assist out, whatever the pattern, initializer or inferred type. */
  lemma NoAssistWhenAnnotated(stmt: LetStmt, typeOf: Expr -> Option<Ty>, display: Ty -> string)
    requires HasDirectChild(stmt, Colon)
    ensures AddExplicitType(stmt, typeOf, display) == None
  {
  }

  /** Only the kinds of the direct children are scanned: replacing the
      children by others of the same kinds, with any contents below them
      (a `:` inside a closure parameter, say), does not change the result. */
  lemma OnlyDirectChildrenScanned(
    stmt: LetStmt, children': seq<Element>, typeOf: Expr -> Option<Ty>, display: Ty -> string)
    requires |children'| == |stmt.children|
    requires forall i :: 0 <= i < |children'| ==> children'[i].kind == stmt.children[i].kind
    ensures AddExplicitType(stmt.(children := children'), typeOf, display)
         == AddExplicitType(stmt, typeOf, display)
  {
  }

  /** No assist when the type query gives nothing, or gives a type with
      `Unknown` at some depth of its parameters. */
  lemma NoAssistWhenTypeUnresolved(stmt: LetStmt, typeOf: Expr -> Option<Ty>, display: Ty -> string)
    requires stmt.initializer.Some?
    requires typeOf(stmt.initializer.value).None? || IsUnknown(typeOf(stmt.initializer.value).value)
    ensures AddExplicitType(stmt, typeOf, display) == None
  {
  }

  /** The semantic model is consulted about the initializer only, and the
      renderer only about the inferred type: two models that agree there
      give the same result. */
  lemma ResultDependsOnlyOnInitializerType(
    stmt: LetStmt, typeOf1: Expr -> Option<Ty>, typeOf2: Expr -> Option<Ty>,
    display1: Ty -> string, display2: Ty -> string)
    requires stmt.initializer.Some? ==> typeOf1(stmt.initializer.value) == typeOf2(stmt.initializer.value)
    requires stmt.initializer.Some? && typeOf1(stmt.initializer.value).Some? ==>
      display1(typeOf1(stmt.initializer.value).value) == display2(typeOf1(stmt.initializer.value).value)
    ensures AddExplicitType(stmt, typeOf1, display1) == AddExplicitType(stmt, typeOf2, display2)
  {
  }

  /** When the name lies within the pattern, the insertion point lies
      within the highlighted target; it is the end of the name, which is
      not the end of the pattern when something follows the name in it. */
  lemma InsertionWithinTarget(stmt: LetStmt, typeOf: Expr -> Option<Ty>, display: Ty -> string)
    requires AddExplicitType(stmt, typeOf, display).Some?
    requires stmt.pat.value.range.Contains(stmt.pat.value.name.value.range)
    requires stmt.pat.value.name.value.range.Valid()
    ensures var a := AddExplicitType(stmt, typeOf, display).value;
      && |a.edits| == 1
      && a.target.start <= a.edits[0].offset <= a.target.end
      && (a.edits[0].offset == a.target.end <==> stmt.pat.value.name.value.range.end == stmt.pat.value.range.end)
  {
  }

  /** Applying the assist's edit to a text that holds the name keeps the
      text before and after the name's end unchanged, puts `": "` and the
      rendered type between them, and is undone by removing that span. */
  lemma ApplyingTheAssist(
    stmt: LetStmt, typeOf: Expr -> Option<Ty>, display: Ty -> string, text: string)
    requires AddExplicitType(stmt, typeOf, display).Some?
    requires stmt.pat.value.name.value.range.end <= |text|
    ensures var a := AddExplicitType(stmt, typeOf, display).value;
      var off := stmt.pat.value.name.value.range.end;
      var s := ": " + display(typeOf(stmt.initializer.value).value);
      && |a.edits| == 1 && a.edits[0].offset == off
      && ApplyInsert(text, a.edits[0].offset, a.edits[0].text)
         == text[..off] + ": " + display(typeOf(stmt.initializer.value).value) + text[off..]
      && RemoveSpan(ApplyInsert(text, off, s), off, |s|) == text
  {
  }
}
