/**
 * The container's public surface: `addRule`, `getRule` and `create` over a
 * container value. A top-level `create` starts a request with an empty
 * per-request shared map and drops that map when it returns; the arena and
 * the singleton cache persist from one request to the next.
 */
module Dice {
  import opened Wrappers
  import opened Identifiers
  import opened Arena
  import opened Classes
  import Rules
  import opened Engine

  datatype Container = Container(u: Universe, rules: Rules.RuleStore, heap: seq<Instance>, singletons: map<string, Ref>) {

    /** Every cached singleton is an object of the arena. */
    predicate Valid() {
      forall k :: k in singletons ==> singletons[k] < |heap|
    }

    function Env(): Env {
      Engine.Env(u, rules)
    }
  }

  /** A container over the class universe `u`, with no rule and no object. */
  function New(u: Universe): (c: Container)
    ensures c.Valid() && c.u == u && c.heap == [] && c.singletons == map[]
  {
    Container(u, map[], [], map[])
  }

  /** `addRule`: registers `fields` under `id`; objects and caches are untouched. */
  function AddRule(c: Container, id: string, fields: Rules.Rule): (c': Container)
    ensures c'.u == c.u && c'.heap == c.heap && c'.singletons == c.singletons
    ensures c'.rules == Rules.AddRule(c.rules, id, fields)
  {
    c.(rules := Rules.AddRule(c.rules, id, fields))
  }

  /** `getRule`: the effective rule for `id`. */
  function GetRule(c: Container, id: string): Rules.Rule {
    Rules.GetRule(c.u, c.rules, id)
  }

  /**
   * The effect of `addRule(id, fields)` seen through `getRule`: the rule of
   * `id` honours every field given, and the rule of any other identifier
   * that does not inherit from `id` is unchanged.
   */
  lemma {:induction false} AddRuleEffect(c: Container, id: string, fields: Rules.Rule, other: string)
    ensures Rules.Honours(GetRule(AddRule(c, id, fields), id), fields)
    ensures Normalize(id) != Wildcard && Normalize(id) != Normalize(other)
            && (Normalize(other) in c.u ==>
                  forall i :: 0 <= i < |c.u[Normalize(other)].ancestors| ==>
                    Normalize(c.u[Normalize(other)].ancestors[i]) != Normalize(id))
            ==> GetRule(AddRule(c, id, fields), other) == GetRule(c, other)
  {
    Rules.AddRuleHonoured(c.u, c.rules, id, fields);
    if Normalize(id) != Wildcard && Normalize(id) != Normalize(other)
       && (Normalize(other) in c.u ==>
             forall i :: 0 <= i < |c.u[Normalize(other)].ancestors| ==>
               Normalize(c.u[Normalize(other)].ancestors[i]) != Normalize(id)) {
      Rules.AddRuleFrame(c.u, c.rules, id, fields, other);
    }
  }

  /** The result of a successful `create`: the instance and the container after it. */
  datatype Created = Created(obj: Ref, next: Container)

  /**
   * `create(id, args, forceNew)`: one top-level request. Objects that existed
   * stay as they were and no singleton is dropped or rebound; a shared rule
   * leaves its instance cached under `id`; a forced or non-shared build,
   * under a rule with no factory `instanceOf`, is a new object, distinct
   * from every object that existed before.
   */
  function Create(c: Container, fuel: nat, id: string, args: seq<Value>, forceNew: bool): (res: Result<Created, Error>)
    ensures res.Success? ==>
              var c' := res.value.next;
              && c'.u == c.u && c'.rules == c.rules
              && |c.heap| <= |c'.heap|
              && (forall i :: 0 <= i < |c.heap| ==> c'.heap[i] == c.heap[i])
              && (forall k :: k in c.singletons ==> k in c'.singletons && c'.singletons[k] == c.singletons[k])
    ensures res.Success? && c.Valid() ==> res.value.next.Valid() && res.value.obj < |res.value.next.heap|
    ensures res.Success? && Rules.IsShared(GetRule(c, id)) && !forceNew ==>
              Normalize(id) in res.value.next.singletons && res.value.next.singletons[Normalize(id)] == res.value.obj
    ensures res.Success? && (forceNew || !Rules.IsShared(GetRule(c, id))) && !ByFactory(GetRule(c, id)) ==>
              res.value.obj == |c.heap|
    ensures Rules.IsShared(GetRule(c, id)) && !forceNew && Normalize(id) in c.singletons ==>
              res == Success(Created(c.singletons[Normalize(id)], c))
  {
    var st := Store(c.heap, c.singletons, map[]);
    match Make(c.Env(), fuel, id, args, forceNew, [], st)
    case Failed(e) => Failure(e)
    case Done(r, st') => Success(Created(r, c.(heap := st'.heap, singletons := st'.singletons)))
  }

  /** The `i`-th constructor argument of object `r`, if there is one. */
  function Arg(c: Container, r: Ref, i: nat): Option<Value> {
    if r < |c.heap| && i < |c.heap[r].args| then Some(c.heap[r].args[i]) else None
  }

  /** Whether object `r` is an instance of `t` (`assertInstanceOf`). */
  predicate InstanceOf(c: Container, r: Ref, t: string) {
    r < |c.heap| && IsA(c.u, c.heap[r].cls, t)
  }

  /** `create` never changes the effective rules. */
  lemma CreateKeepsRules(c: Container, fuel: nat, id: string, args: seq<Value>, forceNew: bool, other: string)
    requires Create(c, fuel, id, args, forceNew).Success?
    ensures GetRule(Create(c, fuel, id, args, forceNew).value.next, other) == GetRule(c, other)
  {
  }

  /**
   * A shared rule makes `create` a singleton: once an instance is made, every
   * later `create` of the identifier returns it and changes nothing, whatever
   * the arguments.
   */
  lemma SharedIsSingleton(c: Container, fuel: nat, id: string, args: seq<Value>, a1: Ref, c1: Container,
                          fuel': nat, args': seq<Value>)
    requires Rules.IsShared(GetRule(c, id))
    requires Create(c, fuel, id, args, false) == Success(Created(a1, c1))
    ensures Create(c1, fuel', id, args', false) == Success(Created(a1, c1))
  {
    CreateKeepsRules(c, fuel, id, args, false, id);
  }

  /**
   * The exception to `ForcedIsFresh`: a rule whose `instanceOf` is a factory
   * returning a fixed, existing object gives that object even when forced,
   * and the container is unchanged.
   */
  lemma ForcedFixedFactory(c: Container, fuel: nat, id: string, args: seq<Value>, r: Ref)
    requires fuel > 0 && GetRule(c, id).instanceOf == Some(Rules.FactoryTarget(Rules.Fixed(r))) && r < |c.heap|
    ensures Create(c, fuel, id, args, true) == Success(Created(r, c))
  {
  }

  /**
   * `forceNew` bypasses the cache: under a rule with no factory
   * `instanceOf`, the instance is new, distinct from every object that
   * existed, and the cached singleton stays in place.
   */
  lemma ForcedIsFresh(c: Container, fuel: nat, id: string, args: seq<Value>, a3: Ref, c3: Container)
    requires c.Valid() && !ByFactory(GetRule(c, id))
    requires Create(c, fuel, id, args, true) == Success(Created(a3, c3))
    ensures a3 == |c.heap| < |c3.heap|
    ensures forall k :: k in c.singletons ==> k in c3.singletons && c3.singletons[k] == c.singletons[k] != a3
  {
  }
}
