/**
 * Steps shared by the test scenarios: effective rules in small rule
 * stores, and `create` of a class that needs nothing.
 */
module Scenarios {
  import opened Wrappers
  import opened Identifiers
  import opened Arena
  import opened Classes
  import opened Rules
  import opened Matcher
  import opened Engine
  import opened Steps
  import opened Fixtures
  import opened Laws
  import Dice

  /** With no rule registered at all, every identifier gets the empty rule. */
  lemma {:induction false} NoRules(u: Universe, x: string)
    requires Name(x)
    ensures GetRule(u, map[], x) == NoRule
  {
    if x in u {
      assert FirstGoverned(map[], u[x].ancestors).None?;
    }
    MergeNoRule(NoRule);
  }

  /** A class with no ancestors and a rule of its own, and no wildcard rule: the effective rule is its own. */
  lemma {:induction false} OwnRule(u: Universe, rs: RuleStore, x: string)
    requires Name(x) && x in u && u[x].ancestors == [] && x in rs && Wildcard !in rs
    ensures GetRule(u, rs, x) == rs[x]
  {
    MergeNoRule(rs[x]);
  }

  /** A virtual name, which names no class, with a rule of its own and no wildcard: its rule is its own. */
  lemma {:induction false} VirtualRule(u: Universe, rs: RuleStore, v: string)
    requires Name(v) && v !in u && v in rs && Wildcard !in rs
    ensures GetRule(u, rs, v) == rs[v]
  {
    MergeNoRule(rs[v]);
  }

  /** A class with no ancestors, no rule of its own and no wildcard rule gets the empty rule. */
  lemma {:induction false} Unruled(u: Universe, rs: RuleStore, x: string)
    requires Name(x) && x in u && u[x].ancestors == [] && x !in rs && Wildcard !in rs
    ensures GetRule(u, rs, x) == NoRule
  {
    assert FirstGoverned(rs, u[x].ancestors).None?;
    MergeNoRule(NoRule);
  }

  /** On a new container, a rule added for a class with no ancestors is its effective rule. */
  lemma {:induction false} FirstRule(u: Universe, x: string, rule: Rule)
    requires Name(x) && x in u && u[x].ancestors == []
    ensures Dice.GetRule(Dice.AddRule(Dice.New(u), x, rule), x) == rule
  {
    var rs := Dice.AddRule(Dice.New(u), x, rule).rules;
    assert rs == map[x := rule] by {
      MergeNoRule(rule);
    }
    OwnRule(u, rs, x);
  }

  /**
   * `create` of an identifier whose rule builds a class without constructor
   * parameters, `constructParams` or `call`s, when nothing is cached for it:
   * one new object, cached when the rule is shared and not forced.
   */
  lemma {:induction false} CreateLeaf(c: Dice.Container, fuel: nat, id: string, cls: string, forceNew: bool)
    requires fuel > 0
    requires var rule := Dice.GetRule(c, id);
             && !ByFactory(rule) && TargetClass(id, rule) == cls && cls in c.u && c.u[cls].params == []
             && rule.constructParams.None? && rule.call.None?
             && !(IsShared(rule) && !forceNew && Normalize(id) in c.singletons)
    ensures var rule := Dice.GetRule(c, id);
            Dice.Create(c, fuel, id, [], forceNew)
              == Success(Dice.Created(|c.heap|, c.(heap := c.heap + [Bare(cls)],
                                                  singletons := if IsShared(rule) && !forceNew
                                                                then c.singletons[Normalize(id) := |c.heap|]
                                                                else c.singletons)))
  {
    var st := Store(c.heap, c.singletons, map[]);
    MakeLeaf(c.Env(), fuel, id, forceNew, [], st, Dice.GetRule(c, id), cls);
  }

  /**
   * `create` of a plain class whose parameters resolve, from the call-site
   * arguments, to `vs`: one new object holding them, and whatever the
   * resolution built besides.
   */
  lemma {:induction false} CreatePlain(c: Dice.Container, fuel: nat, id: string, args: seq<Value>, forceNew: bool,
                                       rule: Rule, cls: string, ps: seq<Param>, vs: seq<Value>, st': Store)
    requires fuel > 0
    requires PlainClass(c.Env(), id, rule, cls, ps)
    requires !(IsShared(rule) && !forceNew && Normalize(id) in c.singletons)
    ensures ResolveParams(c.Env(), fuel - 1, rule, ps, args, [],
                          Prepare(Start(c.heap, c.singletons), cls, Normalize(id), IsShared(rule) && !forceNew)) == Done(vs, st') ==>
              && |c.heap| < |st'.heap|
              && Dice.Create(c, fuel, id, args, forceNew)
                 == Success(Dice.Created(|c.heap|, c.(heap := Fill(st', |c.heap|, vs).heap, singletons := st'.singletons)))
  {
    var st := Start(c.heap, c.singletons);
    var st1 := Prepare(st, cls, Normalize(id), IsShared(rule) && !forceNew);
    if ResolveParams(c.Env(), fuel - 1, rule, ps, args, [], st1) == Done(vs, st') {
      MakePlain(c.Env(), fuel, id, args, forceNew, [], st, rule, cls, ps, st1, vs, st', Fill(st', |c.heap|, vs));
    }
  }

  /** A top-level `create` is the construction it starts, in a fresh request. */
  lemma {:induction false} CreateFromMake(c: Dice.Container, fuel: nat, id: string, args: seq<Value>, forceNew: bool, r: Ref, st': Store)
    requires Make(c.Env(), fuel, id, args, forceNew, [], Start(c.heap, c.singletons)) == Done(r, st')
    ensures Dice.Create(c, fuel, id, args, forceNew) == Success(Dice.Created(r, c.(heap := st'.heap, singletons := st'.singletons)))
  {
  }

  /** A `create` on an empty container, with what it adds written out for object numbers from 0. */
  lemma {:induction false} CreateOnEmpty(c: Dice.Container, fuel: nat, id: string, args: seq<Value>, forceNew: bool,
                                         added: seq<Instance>, h: seq<Instance>)
    requires c.heap == [] && added == h
    requires Dice.Create(c, fuel, id, args, forceNew) == Success(Dice.Created(|c.heap|, c.(heap := c.heap + added)))
    ensures Dice.Create(c, fuel, id, args, forceNew) == Success(Dice.Created(0, c.(heap := h)))
  {
    assert c.heap + added == h;
  }

  /**
   * A non-shared class whose untyped parameters are exactly filled by its
   * rule's literal `constructParams`, made as a dependency (with no call-site
   * arguments): one new object holding the literals.
   */
  lemma {:induction false} MakeFromLiterals(env: Env, fuel: nat, id: string, cls: string, rule: Rule, share: seq<string>, st: Store)
    requires fuel > 0
    requires RuleFor(env, id) == rule && !ByFactory(rule) && !IsShared(rule)
    requires TargetClass(id, rule) == cls && cls in env.u && AllUntyped(env.u[cls].params)
    requires forall i :: 0 <= i < |ConstructParams(rule)| ==> Inert(ConstructParams(rule)[i])
    requires Calls(rule) == [] && |env.u[cls].params| == |ConstructParams(rule)|
    ensures Make(env, fuel, id, [], false, share, st)
         == Done(|st.heap|, st.(heap := st.heap + [Instance(cls, InertValues(ConstructParams(rule)), [])]))
  {
    var vs := InertValues(ConstructParams(rule));
    ArgsBeforeConstructParams(env, fuel, id, [], false, share, st, rule, cls);
    assert ([] + vs)[..|vs|] == vs;
    assert Fill(Prepare(st, cls, Normalize(id), false), |st.heap|, vs).heap == st.heap + [Instance(cls, vs, [])];
  }

  /** A typed parameter with nothing in the pool, no substitution and no shared instance gets a new dependency. */
  lemma {:induction false} FreshDependency(env: Env, fuel: nat, rule: Rule, p: Param, pool: seq<Value>, st: Store, r: Ref, st': Store)
    requires p.declared.Some? && Substitution(rule, p.declared.value).None?
    requires forall i :: 0 <= i < |pool| ==> pool[i].Scalar?
    requires Make(env, fuel, p.declared.value, [], ForcesNew(rule, p.declared.value), [], st) == Done(r, st')
    ensures ResolveParam(env, fuel, rule, p, pool, [], st) == Done((Obj(r), pool), st')
  {
    assert TakeTyped(env.u, st.heap, p.declared.value, p.nullable, pool).None?;
    TypedFromCreate(env, fuel, rule, p, pool, [], st);
  }

  /** A parameter of an unshared class with no parameters of its own gets a new object of it, appended to the store. */
  lemma {:induction false} FreshLeaf(env: Env, fuel: nat, x: string, pool: seq<Value>, st: Store)
    requires fuel > 0 && Name(x) && PlainClass(env, x, NoRule, x, [])
    requires forall i :: 0 <= i < |pool| ==> pool[i].Scalar?
    ensures ResolveParam(env, fuel, NoRule, Dep(x), pool, [], st) == Done((Obj(|st.heap|), pool), st.(heap := st.heap + [Bare(x)]))
  {
    assert Prepare(st, x, x, false) == st.(heap := st.heap + [Bare(x)]);
    assert !ForcesNew(NoRule, x) && Substitution(NoRule, x).None?;
    MakeLeaf(env, fuel, x, false, [], st, NoRule, x);
    FreshDependency(env, fuel, NoRule, Dep(x), pool, st, |st.heap|, st.(heap := st.heap + [Bare(x)]));
  }
}
