/**
 * The class universe: what the container learns about a class by
 * introspection, declared up front as a finite map of descriptors.
 */
module Classes {
  import opened Wrappers
  import opened Identifiers
  import opened Arena

  /** One constructor parameter: its declared class (if any), its default, and whether it accepts null. */
  datatype Param = Param(name: string, declared: Option<string>, default: Option<Value>, nullable: bool)

  /** A class: its ancestors and interfaces (nearest first), and its constructor parameters. */
  datatype ClassDecl = ClassDecl(ancestors: seq<string>, params: seq<Param>)

  /** Descriptors keyed by the normalised class name. */
  type Universe = map<string, ClassDecl>

  /** Whether class `cls` is `t`, extends `t` or implements `t` (the `instanceof` relation). */
  predicate IsA(u: Universe, cls: string, t: string) {
    var c := Normalize(cls);
    var n := Normalize(t);
    || c == n
    || (c in u && exists i :: 0 <= i < |u[c].ancestors| && Normalize(u[c].ancestors[i]) == n)
  }

  /** Every class is an instance of itself, whatever its spelling. */
  lemma IsAReflexive(u: Universe, cls: string, t: string)
    requires Normalize(cls) == Normalize(t)
    ensures IsA(u, cls, t)
  {
  }

  /** A declared ancestor or interface is a supertype. */
  lemma IsAAncestor(u: Universe, cls: string, i: nat)
    requires Normalize(cls) in u && i < |u[Normalize(cls)].ancestors|
    ensures IsA(u, cls, u[Normalize(cls)].ancestors[i])
  {
  }
}
