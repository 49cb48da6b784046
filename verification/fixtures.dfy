/**
 * Building blocks for the fixture classes of the test suite. The suite's
 * fixture classes are not part of this model; each test module declares
 * the constructor signatures it assumes, in its own doc comment, and those
 * declarations are assumptions of its scenarios. Class names are
 * arbitrary identifiers already in normal form, so that a scenario holds for
 * every choice of names.
 */
module Fixtures {
  import opened Wrappers
  import opened Identifiers
  import opened Arena
  import opened Classes
  import opened Rules

  /** An identifier in normal form that is not the wildcard. */
  predicate Name(x: string) {
    Normalize(x) == x && x != Wildcard
  }

  /** A constructor parameter declared with class `t`, with no default, not nullable. */
  function Dep(t: string): Param {
    Param(t, Some(t), None, false)
  }

  /**
   * A constructor parameter with no declared class and no default. Such a
   * parameter accepts null, as an untyped PHP parameter does.
   */
  function Untyped(name: string): Param {
    Param(name, None, None, true)
  }

  /** A class with no ancestors and the given constructor. */
  function Class(params: seq<Param>): ClassDecl {
    ClassDecl([], params)
  }

  /** The rule `['shared' => true]`. */
  const SharedRule: Rule := NoRule.(shared := Some(true))

  /** The store a top-level `create` starts from. */
  function Start(heap: seq<Instance>, singletons: map<string, Ref>): Store {
    Store(heap, singletons, map[])
  }

  /** An object just allocated, before its constructor arguments are stored. */
  function Bare(cls: string): Instance {
    Instance(cls, [], [])
  }
}
