/** Types as the semantic model reports them, and the test that decides
    whether an inferred type is complete enough to be written out. */
module Types {
  import opened Wrappers

  /** An inferred type. `Apply` is a type constructor applied to
      parameters (primitives have none, `Option<T>` has one, ...).
      `Other` stands for every remaining variant (type parameters, bound
      variables, projections, trait objects, opaque types); its
      `components` are the types nested inside it, if any. */
  datatype Ty =
    | Unknown
    | Apply(ctor: string, params: seq<Ty>)
    | Other(variant: string, components: seq<Ty>)

  /** The usability test of the assist: `Unknown` itself, or an `Apply`
      one of whose parameters is (recursively) unknown. Any other variant
      is never unknown, and its components are not looked at. */
  predicate IsUnknown(t: Ty)
    decreases t
  {
    match t
    case Unknown => true
    case Apply(_, ps) => exists i :: 0 <= i < |ps| && IsUnknown(ps[i])
    case Other(_, _) => false
  }

  /** The subterm reached from `t` by following `path`, one parameter
      index of an `Apply` per step; `None` when the path leaves the
      tree or passes through a variant other than `Apply`. */
  function SubtermAt(t: Ty, path: seq<nat>): (r: Option<Ty>)
    decreases |path|
  {
    if path == [] then Some(t)
    else match t
      case Apply(_, ps) =>
        if path[0] < |ps| then SubtermAt(ps[path[0]], path[1..]) else None
      case _ => None
  }

  /** Reference definition: `Unknown` occurs in `t` at some depth along a
      chain of `Apply` parameters. */
  ghost predicate UnknownWithin(t: Ty) {
    exists path :: SubtermAt(t, path) == Some(Unknown)
  }

  /** No node of the type tree, whatever its variant, is `Unknown`. */
  ghost predicate FullyConcrete(t: Ty)
    decreases t
  {
    match t
    case Unknown => false
    case Apply(_, ps) => forall i :: 0 <= i < |ps| ==> FullyConcrete(ps[i])
    case Other(_, cs) => forall i :: 0 <= i < |cs| ==> FullyConcrete(cs[i])
  }

  /** `Unknown` is unknown; every variant other than `Unknown` and `Apply`
      is usable, whatever it contains. */
  lemma IsUnknownBaseCases(variant: string, components: seq<Ty>)
    ensures IsUnknown(Unknown)
    ensures !IsUnknown(Other(variant, components))
  {
  }

  /** An `Apply` is unknown exactly when some parameter is; in particular
      an `Apply` with no parameters (a primitive) is usable. */
  lemma ApplyUnknownIffSomeParam(ctor: string, ps: seq<Ty>)
    ensures IsUnknown(Apply(ctor, ps)) <==> exists i :: 0 <= i < |ps| && IsUnknown(ps[i])
    ensures ps == [] ==> !IsUnknown(Apply(ctor, ps))
  {
  }

  /** The recursive test agrees with the reference definition: a type is
      unknown exactly when `Unknown` sits at the end of some chain of
      `Apply` parameters, at any depth. */
  lemma {:induction false} IsUnknownIffUnknownWithin(t: Ty)
    ensures IsUnknown(t) <==> UnknownWithin(t)
    decreases t
  {
    if IsUnknown(t) {
      UnknownPathExists(t);
    }
    if UnknownWithin(t) {
      var path :| SubtermAt(t, path) == Some(Unknown);
      UnknownAtPathIsUnknown(t, path);
    }
  }

  /** An unknown type has a path to `Unknown`. */
  lemma {:induction false} UnknownPathExists(t: Ty)
    requires IsUnknown(t)
    ensures exists path :: SubtermAt(t, path) == Some(Unknown)
    decreases t
  {
    match t
    case Unknown =>
      assert SubtermAt(t, []) == Some(Unknown);
    case Apply(c, ps) =>
      var i :| 0 <= i < |ps| && IsUnknown(ps[i]);
      UnknownPathExists(ps[i]);
      var p :| SubtermAt(ps[i], p) == Some(Unknown);
      var path: seq<nat> := [i] + p;
      assert path[0] == i && path[1..] == p;
      assert SubtermAt(t, path) == Some(Unknown);
  }

  /** A path to `Unknown` makes the type unknown. */
  lemma {:induction false} UnknownAtPathIsUnknown(t: Ty, path: seq<nat>)
    requires SubtermAt(t, path) == Some(Unknown)
    ensures IsUnknown(t)
    decreases |path|
  {
    if path != [] {
      match t
      case Apply(c, ps) =>
        UnknownAtPathIsUnknown(ps[path[0]], path[1..]);
    }
  }

  /** A type with no `Unknown` anywhere in it is usable. The converse
      fails: `Unknown` inside a variant other than `Apply` is not seen
      (see `IsUnknownBaseCases`). */
  lemma {:induction false} ConcreteTypesAreUsable(t: Ty)
    requires FullyConcrete(t)
    ensures !IsUnknown(t)
    decreases t
  {
    match t
    case Apply(c, ps) =>
      forall i | 0 <= i < |ps|
        ensures !IsUnknown(ps[i])
      {
        ConcreteTypesAreUsable(ps[i]);
      }
    case Other(_, _) =>
  }
}
