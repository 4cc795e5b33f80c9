# Add explicit type — a Dafny model

This project models the "add explicit type" assist of rust-analyzer. The
assist works on a `let` statement whose type is not written. It asks the
semantic model for the type of the initializer. If that type is complete,
it offers one edit that inserts `: <type>` right after the bound name. The
range it highlights is the whole pattern.

The assist is a chain of gates. Any gate that fails means "not applicable"
(`None`), never an error:

1. the statement has an initializer;
2. its pattern is a simple name binding (`BindPat`);
3. that binding has a name;
4. no direct child of the statement, token or node, is a `:`;
5. the semantic model returns a type for the initializer;
6. that type is not unknown: it is not `Unknown`, and no parameter of an
   applied type is unknown, checked recursively.

Files and modules:

- `wrappers.dfy` (`Wrappers`): the `Option` type each gate returns. It is
  failure-compatible, so the pipeline is written as a `:-` chain.
- `syntax.dfy` (`Syntax`): ranges, kind tags, and the element tree of a
  statement's children. Also patterns (`BindPat` or one of the
  destructuring shapes), expressions, and the `let` statement.
- `types.dfy` (`Types`): inferred types (`Unknown`, `Apply` with
  parameters, `Other` for every other variant). It holds `IsUnknown` and
  an independent path-based definition, `UnknownWithin`, that it is proved
  equal to.
- `text_edit.dfy` (`TextEdit`): an insertion, applying it to the original
  text, and removing it again.
- `add_explicit_type.dfy` (`AddExplicitTypeAssist`): the pipeline and its
  gate-by-gate properties.
- `scenarios.dfy` (`Scenarios`): the statements from the assist's tests,
  written out with their offsets, plus a closure case.

The semantic model is given to the pipeline as two function parameters:

- `typeOf: Expr -> Option<Ty>` stands for the type query;
- `display: Ty -> string` stands for rendering a type as source text.

Every property is proved for all such functions.

## Model

| member | source | states |
|---|---|---|
| AddExplicitTypeAssist.AddExplicitType | crates/ra_assists/src/add_explicit_type.rs:13-44 | An assist is produced exactly when every gate holds (initializer, named `BindPat`, no direct `:` child, an inferred type with no `Unknown` along its `Apply` parameters). Then its id is `add_explicit_type` and its label is `add explicit type`. Its target is the whole pattern's range. Its only edit inserts `": "` followed by the rendered type at the end of the name's range. |
| AddExplicitTypeAssist.BoundName | crates/ra_assists/src/add_explicit_type.rs:18-25 | A name is extracted exactly when the pattern is a `BindPat` that has a name, and the name extracted is that binding's own name. |
| AddExplicitTypeAssist.NoAssistWithoutNamedBinding | crates/ra_assists/src/add_explicit_type.rs:15-25 | No assist when the initializer is missing, the pattern is missing, the pattern is not a `BindPat`, or the binding has no name. |
| AddExplicitTypeAssist.NoAssistOnDestructuring | crates/ra_assists/src/add_explicit_type.rs:18-21 | A destructuring pattern gets no assist, even when the initializer's type is fully concrete. |
| AddExplicitTypeAssist.NoAssistWhenAnnotated | crates/ra_assists/src/add_explicit_type.rs:26-29 | A `:` among the direct children rules the assist out, whatever the pattern, the initializer and the semantic model. |
| AddExplicitTypeAssist.OnlyDirectChildrenScanned | crates/ra_assists/src/add_explicit_type.rs:27 | Only the kinds of the direct children matter. Children of the same kinds with any contents below them give the same result. |
| AddExplicitTypeAssist.NoAssistWhenTypeUnresolved | crates/ra_assists/src/add_explicit_type.rs:30-37 | No assist when the type query returns nothing or returns an unknown type. |
| AddExplicitTypeAssist.ResultDependsOnlyOnInitializerType | crates/ra_assists/src/add_explicit_type.rs:31-41 | The result depends on the type query only at the initializer, and on the renderer only at the inferred type. |
| AddExplicitTypeAssist.InsertionWithinTarget | crates/ra_assists/src/add_explicit_type.rs:39-41 | If the name lies inside the pattern, there is one insertion and its offset lies inside the target range. That offset is the end of the target exactly when the name ends where the pattern ends. |
| AddExplicitTypeAssist.ApplyingTheAssist | crates/ra_assists/src/add_explicit_type.rs:41 | Applying the edit to a text that holds the name gives the text before the name's end, then `": "` and the rendered type, then the rest. Removing that span restores the text. |
| Types.IsUnknownBaseCases | crates/ra_assists/src/add_explicit_type.rs:47-52 | `Unknown` is unknown. A variant other than `Unknown` and `Apply` is never unknown, whatever types it contains. |
| Types.ApplyUnknownIffSomeParam | crates/ra_assists/src/add_explicit_type.rs:50 | An `Apply` is unknown exactly when one of its parameters is. An `Apply` without parameters is usable. |
| Types.IsUnknownIffUnknownWithin | crates/ra_assists/src/add_explicit_type.rs:46-53 | A type is unknown exactly when `Unknown` is reachable from it along a chain of `Apply` parameters of any length. |
| Types.UnknownPathExists | crates/ra_assists/src/add_explicit_type.rs:50 | An unknown type has a path of `Apply` parameter indices that leads to `Unknown`. |
| Types.UnknownAtPathIsUnknown | crates/ra_assists/src/add_explicit_type.rs:50 | A path of `Apply` parameter indices that leads to `Unknown` makes the type unknown, at any depth. |
| Types.ConcreteTypesAreUsable | crates/ra_assists/src/add_explicit_type.rs:47-52 | A type with no `Unknown` anywhere in its tree is usable, so a fully concrete nested generic type gets annotated. |
| TextEdit.ApplyInsert | crates/ra_assists/src/add_explicit_type.rs:41 | Inserting keeps everything before the offset and everything after it. The inserted text sits between them, and the length grows by the inserted length. |
| TextEdit.InsertThenRemove | crates/ra_assists/src/add_explicit_type.rs:41 | Removing the inserted span from the edited text gives back the original text. |
| TextEdit.InsertIsDeterminedByItsParts | crates/ra_assists/src/add_explicit_type.rs:41 | Any text with the original prefix before the offset, then the inserted text, then the original rest, is the result of `ApplyInsert`. So its three properties pin the edited text down completely. |
| Scenarios.SimpleExprGetsAnnotated | crates/ra_assists/src/add_explicit_type.rs:61-73 | Take `let a = 1;` with `1` inferred as `i32`. The target is the range of `a`, and the edit turns `fn f() { let a = 1; }` into `fn f() { let a: i32 = 1; }`. |
| Scenarios.NotApplicableIfTypeNotInferred | crates/ra_assists/src/add_explicit_type.rs:75-78 | `let a = None;` gets no assist when its type is `Option<{unknown}>`. |
| Scenarios.NotApplicableIfTypeAlreadySpecified | crates/ra_assists/src/add_explicit_type.rs:80-83 | `let a: i32 = 1;` gets no assist, whatever the semantic model answers. |
| Scenarios.NotApplicableIfSpecifiedTypeIsTuple | crates/ra_assists/src/add_explicit_type.rs:85-88 | `let a: (i32, i32) = (3, 4);` gets no assist, whatever the semantic model answers. |
| Scenarios.NestedColonDoesNotBlock | crates/ra_assists/src/add_explicit_type.rs:27 | `let f = \|x: i32\| x;` has a `:` below its direct children, yet it is offered the assist whenever the closure's inferred type is usable. |

## Left out

- Locating the statement at the cursor (`node_at_offset`, line 14) belongs to the syntax library. The model takes the located `let` statement as input, so a cursor that is not inside a `let` statement is outside the model.
- Type inference (`SourceAnalyzer::new` and `type_of`, lines 31-33) is done by the semantic engine. It is the parameter `typeOf`.
- Rendering a type (`display`, line 41) is also done by the semantic engine. It is the parameter `display`, and nothing is assumed about its output.
- Parsing and building the syntax tree are left out. The `pat` and `initializer` slots of a statement are not tied to its children by the model.
- The assist context and builder (`add_action`, `target`, `insert`, `build`) are host plumbing. The result is a plain `Assist` record.
- The test harness and its `<|>` cursor markers are left out. The tests appear as concrete statements in `Scenarios`.
- TextEdit.ApplyInsert — offsets are treated as character indices into the text. The syntax library counts them in UTF-8 bytes, so the model agrees with the editor only when the text before the offset is ASCII. `RemoveSpan`, `ApplyingTheAssist` and the scenarios read offsets the same way.
- Offsets are unbounded naturals. The 32-bit width of the syntax library's text offsets is not modelled.
- The editor applies edits to the buffer. `ApplyInsert` models only that part, for the single insertion this assist produces.
