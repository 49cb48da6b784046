/**
 * Unfolding lemmas for the graph builder: each states what one construction
 * step reduces to in a common situation, so that a whole object graph can be
 * followed step by step.
 */
module Steps {
  import opened Wrappers
  import opened Identifiers
  import opened Arena
  import opened Classes
  import opened Rules
  import opened Matcher
  import opened Engine

  /** A description whose value needs no construction: a literal or null. */
  predicate Inert(spec: ValueSpec) {
    spec.Literal? || spec.NullLiteral?
  }

  function InertValue(spec: ValueSpec): Value
    requires Inert(spec)
  {
    if spec.Literal? then Scalar(spec.text) else Null
  }

  /** The values of literal and null descriptions, position by position. */
  function InertValues(specs: seq<ValueSpec>): (vs: seq<Value>)
    requires forall i :: 0 <= i < |specs| ==> Inert(specs[i])
    ensures |vs| == |specs| && forall i :: 0 <= i < |specs| ==> vs[i] == InertValue(specs[i])
  {
    if |specs| == 0 then [] else [InertValue(specs[0])] + InertValues(specs[1..])
  }

  /** Literals and nulls expand to themselves, in order, and build nothing. */
  lemma {:induction false} ExpandAllInert(env: Env, fuel: nat, specs: seq<ValueSpec>, share: seq<string>, st: Store)
    requires forall i :: 0 <= i < |specs| ==> Inert(specs[i])
    ensures ExpandAll(env, fuel, specs, share, st) == Done(InertValues(specs), st)
    decreases |specs|
  {
    if |specs| > 0 {
      ExpandAllInert(env, fuel, specs[1..], share, st);
    }
  }

  /** The descriptions expand one after another, each in the store the previous left. */
  lemma {:induction false} ExpandAllStep(env: Env, fuel: nat, specs: seq<ValueSpec>, share: seq<string>, st: Store, v: Value, st1: Store)
    requires |specs| > 0 && Expand(env, fuel, specs[0], share, st) == Done(v, st1)
    ensures var tail := ExpandAll(env, fuel, specs[1..], share, st1);
            ExpandAll(env, fuel, specs, share, st) == if tail.Failed? then Failed(tail.error) else Done([v] + tail.v, tail.st)
  {
  }

  /** `ExpandAllStep` in closed form: the first description's value, then the rest's. */
  lemma {:induction false} ExpandAllCons(env: Env, fuel: nat, specs: seq<ValueSpec>, share: seq<string>, st: Store,
                                         v: Value, st1: Store, vs: seq<Value>, st2: Store)
    requires |specs| > 0 && Expand(env, fuel, specs[0], share, st) == Done(v, st1)
    requires ExpandAll(env, fuel, specs[1..], share, st1) == Done(vs, st2)
    ensures ExpandAll(env, fuel, specs, share, st) == Done([v] + vs, st2)
  {
    ExpandAllStep(env, fuel, specs, share, st, v, st1);
  }

  /** An `['instance' => x]` description is the object `create(x)` makes. */
  lemma {:induction false} ExpandRef(env: Env, fuel: nat, spec: ValueSpec, x: string, share: seq<string>, st: Store, r: Ref, st1: Store)
    requires spec == InstanceRef(x) && Make(env, fuel, x, [], false, share, st) == Done(r, st1)
    ensures Expand(env, fuel, spec, share, st) == Done(Obj(r), st1)
  {
  }

  /**
   * Completing an object under a rule with only literal `constructParams` and
   * no `call`s: its arguments are the parameters resolved from the call-site
   * arguments followed by the literals.
   */
  lemma {:induction false} WireUnfold(env: Env, fuel: nat, r: Ref, cls: string, rule: Rule, args: seq<Value>,
                                      share: seq<string>, st: Store)
    requires cls in env.u && r < |st.heap|
    requires forall i :: 0 <= i < |ConstructParams(rule)| ==> Inert(ConstructParams(rule)[i])
    requires Calls(rule) == []
    ensures var inner := ResolveParams(env, fuel, rule, env.u[cls].params, args + InertValues(ConstructParams(rule)), share, st);
            Wire(env, fuel, r, cls, rule, args, share, st)
              == if inner.Failed? then Failed(inner.error) else Done(r, Fill(inner.st, r, inner.v))
  {
    ExpandAllInert(env, fuel, ConstructParams(rule), share, st);
    var res := ResolveParams(env, fuel, rule, env.u[cls].params, args + InertValues(ConstructParams(rule)), share, st);
    if res.Done? {
      assert RunCalls(env, fuel, r, [], share, Fill(res.st, r, res.v)) == Done(r, Fill(res.st, r, res.v));
    }
  }

  /** A new, unshared object of `cls` that receives the single value `v`, written out. */
  lemma {:induction false} PreparedFill(st: Store, cls: string, v: Value)
    ensures Fill(Prepare(st, cls, cls, false), |st.heap|, [v]) == st.(heap := st.heap + [Instance(cls, [v], [])])
  {
    assert Fill(Prepare(st, cls, cls, false), |st.heap|, [v]).heap == st.heap + [Instance(cls, [v], [])];
  }

  /**
   * A plain class with one parameter, made without arguments: once that
   * parameter resolves, the new object holds its value.
   */
  lemma {:induction false} MakeSingle(env: Env, fuel: nat, id: string, share: seq<string>, st: Store,
                                      rule: Rule, cls: string, p: Param, v: Value, st': Store)
    requires fuel > 0 && PlainClass(env, id, rule, cls, [p])
    requires !(IsShared(rule) && Normalize(id) in st.singletons)
    ensures ResolveParams(env, fuel - 1, rule, [p], [], share, Prepare(st, cls, Normalize(id), IsShared(rule))) == Done([v], st') ==>
              && |st.heap| < |st'.heap|
              && Make(env, fuel, id, [], false, share, st) == Done(|st.heap|, Fill(st', |st.heap|, [v]))
  {
    var st1 := Prepare(st, cls, Normalize(id), IsShared(rule));
    if ResolveParams(env, fuel - 1, rule, [p], [], share, st1) == Done([v], st') {
      assert |st.heap| < |st1.heap| <= |st'.heap|;
      MakePlain(env, fuel, id, [], false, share, st, rule, cls, [p], st1, [v], st', Fill(st', |st.heap|, [v]));
    }
  }

  /** A plain, unruled class whose one parameter resolves to `v` without touching the store: the new object holds `v`. */
  lemma {:induction false} HoldsValue(env: Env, fuel: nat, x: string, p: Param, share: seq<string>, st: Store, v: Value)
    requires fuel > 0 && PlainClass(env, x, NoRule, x, [p]) && Normalize(x) == x
    requires ResolveParams(env, fuel - 1, NoRule, [p], [], share, Prepare(st, x, x, false)) == Done([v], Prepare(st, x, x, false))
    ensures Make(env, fuel, x, [], false, share, st) == Done(|st.heap|, st.(heap := st.heap + [Instance(x, [v], [])]))
  {
    assert Prepare(st, x, Normalize(x), IsShared(NoRule)) == Prepare(st, x, x, false);
    MakeSingle(env, fuel, x, share, st, NoRule, x, p, v, Prepare(st, x, x, false));
    PreparedFill(st, x, v);
  }

  /**
   * `create` of an identifier whose rule builds a class directly, with only
   * literal `constructParams` and no `call`s: a new object whose arguments
   * are the parameters resolved from the call-site arguments followed by the
   * literals.
   */
  lemma {:induction false} MakeUnfold(env: Env, fuel: nat, id: string, args: seq<Value>, forceNew: bool, share: seq<string>, st: Store,
                    rule: Rule, cls: string)
    requires fuel > 0
    requires RuleFor(env, id) == rule && !ByFactory(rule)
    requires TargetClass(id, rule) == cls && cls in env.u
    requires !(IsShared(rule) && !forceNew && Normalize(id) in st.singletons)
    requires forall i :: 0 <= i < |ConstructParams(rule)| ==> Inert(ConstructParams(rule)[i])
    requires Calls(rule) == []
    ensures var st1 := Prepare(st, cls, Normalize(id), IsShared(rule) && !forceNew);
            var inner := ResolveParams(env, fuel - 1, rule, env.u[cls].params, args + InertValues(ConstructParams(rule)),
                                       share + rule.shareInstances, st1);
            Make(env, fuel, id, args, forceNew, share, st)
              == if inner.Failed? then Failed(inner.error) else Done(|st.heap|, Fill(inner.st, |st.heap|, inner.v))
  {
    var cacheable := IsShared(rule) && !forceNew;
    var st1 := Prepare(st, cls, Normalize(id), cacheable);
    var wired := Wire(env, fuel - 1, |st.heap|, cls, rule, args, share + rule.shareInstances, st1);
    var inner := ResolveParams(env, fuel - 1, rule, env.u[cls].params, args + InertValues(ConstructParams(rule)),
                               share + rule.shareInstances, st1);
    assert Make(env, fuel, id, args, forceNew, share, st) == wired by {
      MakeToBuild(env, fuel, id, args, forceNew, share, st, rule, cls);
      BuildToWire(env, fuel - 1, Normalize(id), cls, rule, args, cacheable, share, st);
    }
    assert wired == if inner.Failed? then Failed(inner.error) else Done(|st.heap|, Fill(inner.st, |st.heap|, inner.v)) by {
      WireUnfold(env, fuel - 1, |st.heap|, cls, rule, args, share + rule.shareInstances, st1);
    }
  }

  /** `MakeUnfold` once the parameters are known to resolve to `vs`, leaving `st'`. */
  lemma {:induction false} MakeResolved(env: Env, fuel: nat, id: string, args: seq<Value>, forceNew: bool, share: seq<string>, st: Store,
                                        rule: Rule, cls: string, vs: seq<Value>, st': Store)
    requires fuel > 0
    requires RuleFor(env, id) == rule && !ByFactory(rule)
    requires TargetClass(id, rule) == cls && cls in env.u
    requires !(IsShared(rule) && !forceNew && Normalize(id) in st.singletons)
    requires forall i :: 0 <= i < |ConstructParams(rule)| ==> Inert(ConstructParams(rule)[i])
    requires Calls(rule) == []
    requires ResolveParams(env, fuel - 1, rule, env.u[cls].params, args + InertValues(ConstructParams(rule)), share + rule.shareInstances,
                           Prepare(st, cls, Normalize(id), IsShared(rule) && !forceNew)) == Done(vs, st')
    ensures Make(env, fuel, id, args, forceNew, share, st) == Done(|st.heap|, Fill(st', |st.heap|, vs))
  {
    MakeUnfold(env, fuel, id, args, forceNew, share, st, rule, cls);
  }

  /** Without a cache hit, `create` of a class under a non-factory rule builds it. */
  lemma {:induction false} MakeToBuild(env: Env, fuel: nat, id: string, args: seq<Value>, forceNew: bool, share: seq<string>, st: Store,
                                       rule: Rule, cls: string)
    requires fuel > 0
    requires RuleFor(env, id) == rule && !ByFactory(rule)
    requires TargetClass(id, rule) == cls && cls in env.u
    requires !(IsShared(rule) && !forceNew && Normalize(id) in st.singletons)
    ensures Make(env, fuel, id, args, forceNew, share, st)
         == Build(env, fuel - 1, Normalize(id), cls, rule, args, IsShared(rule) && !forceNew, share, st)
  {
  }

  /** Building allocates the object, then completes it. */
  lemma {:induction false} BuildToWire(env: Env, fuel: nat, key: string, cls: string, rule: Rule, args: seq<Value>,
                                       cacheable: bool, share: seq<string>, st: Store)
    requires cls in env.u
    requires cacheable ==> key !in st.singletons
    ensures Build(env, fuel, key, cls, rule, args, cacheable, share, st)
         == Wire(env, fuel, |st.heap|, cls, rule, args, share + rule.shareInstances, Prepare(st, cls, key, cacheable))
  {
  }

  /** The parameters resolve one after another, each drawing on what the previous left of the pool. */
  lemma {:induction false} ResolveParamsStep(env: Env, fuel: nat, rule: Rule, ps: seq<Param>, pool: seq<Value>, share: seq<string>, st: Store,
                          v: Value, rest: seq<Value>, st1: Store)
    requires |ps| > 0
    requires ResolveParam(env, fuel, rule, ps[0], pool, share, st) == Done((v, rest), st1)
    ensures var tail := ResolveParams(env, fuel, rule, ps[1..], rest, share, st1);
            ResolveParams(env, fuel, rule, ps, pool, share, st)
              == if tail.Failed? then Failed(tail.error) else Done([v] + tail.v, tail.st)
  {
  }

  /** `ResolveParamsStep` in closed form: the first parameter's value, then the rest's. */
  lemma {:induction false} ResolveParamsCons(env: Env, fuel: nat, rule: Rule, ps: seq<Param>, pool: seq<Value>, share: seq<string>, st: Store,
                                             v: Value, rest: seq<Value>, st1: Store, vs: seq<Value>, st2: Store)
    requires |ps| > 0
    requires ResolveParam(env, fuel, rule, ps[0], pool, share, st) == Done((v, rest), st1)
    requires ResolveParams(env, fuel, rule, ps[1..], rest, share, st1) == Done(vs, st2)
    ensures ResolveParams(env, fuel, rule, ps, pool, share, st) == Done([v] + vs, st2)
  {
    ResolveParamsStep(env, fuel, rule, ps, pool, share, st, v, rest, st1);
  }

  /** A single parameter resolves to what `ResolveParam` gives it. */
  lemma {:induction false} ResolveOne(env: Env, fuel: nat, rule: Rule, p: Param, pool: seq<Value>, share: seq<string>, st: Store,
                                      v: Value, rest: seq<Value>, st1: Store)
    requires ResolveParam(env, fuel, rule, p, pool, share, st) == Done((v, rest), st1)
    ensures ResolveParams(env, fuel, rule, [p], pool, share, st) == Done([v], st1)
  {
    ResolveParamsStep(env, fuel, rule, [p], pool, share, st, v, rest, st1);
    assert [p][1..] == [];
    ResolveParamsEmpty(env, fuel, rule, rest, share, st1);
    assert [v] + [] == [v];
  }

  /** Two parameters drawing on an empty pool: the first's value, then the second's. */
  lemma {:induction false} ResolveTwo(env: Env, fuel: nat, rule: Rule, p1: Param, p2: Param, share: seq<string>, st: Store,
                                      v1: Value, st1: Store, v2: Value, st2: Store)
    requires ResolveParam(env, fuel, rule, p1, [], share, st) == Done((v1, []), st1)
    requires ResolveParams(env, fuel, rule, [p2], [], share, st1) == Done([v2], st2)
    ensures ResolveParams(env, fuel, rule, [p1, p2], [], share, st) == Done([v1, v2], st2)
  {
    assert [p1, p2][0] == p1 && [p1, p2][1..] == [p2];
    ResolveParamsCons(env, fuel, rule, [p1, p2], [], share, st, v1, [], st1, [v2], st2);
    assert [v1] + [v2] == [v1, v2];
  }

  lemma {:induction false} ResolveParamsEmpty(env: Env, fuel: nat, rule: Rule, pool: seq<Value>, share: seq<string>, st: Store)
    ensures ResolveParams(env, fuel, rule, [], pool, share, st) == Done([], st)
  {
  }

  /** A typed parameter takes an accepted pool entry before anything else. */
  lemma {:induction false} TypedFromPool(env: Env, fuel: nat, rule: Rule, p: Param, pool: seq<Value>, share: seq<string>, st: Store)
    requires p.declared.Some?
    requires TakeTyped(env.u, st.heap, p.declared.value, p.nullable, pool).Some?
    ensures ResolveParam(env, fuel, rule, p, pool, share, st)
         == Done(TakeTyped(env.u, st.heap, p.declared.value, p.nullable, pool).value, st)
  {
  }

  /** A first parameter that finds its value in the pool leaves the rest of the pool to the others. */
  lemma {:induction false} TypedFirst(env: Env, fuel: nat, rule: Rule, ps: seq<Param>, pool: seq<Value>, share: seq<string>, st: Store,
                                      v: Value, rest: seq<Value>)
    requires |ps| > 0 && ps[0].declared.Some?
    requires TakeTyped(env.u, st.heap, ps[0].declared.value, ps[0].nullable, pool) == Some((v, rest))
    ensures var tail := ResolveParams(env, fuel, rule, ps[1..], rest, share, st);
            ResolveParams(env, fuel, rule, ps, pool, share, st)
              == if tail.Failed? then Failed(tail.error) else Done([v] + tail.v, tail.st)
  {
    assert ResolveParam(env, fuel, rule, ps[0], pool, share, st) == Done((v, rest), st) by {
      TypedFromPool(env, fuel, rule, ps[0], pool, share, st);
    }
    ResolveParamsStep(env, fuel, rule, ps, pool, share, st, v, rest, st);
  }

  /** Two pools from which the first, typed parameter takes the same value, leaving the same rest, resolve alike. */
  lemma {:induction false} SameTakeSameValues(env: Env, fuel: nat, rule: Rule, ps: seq<Param>, pool1: seq<Value>, pool2: seq<Value>,
                                              share: seq<string>, st: Store)
    requires |ps| > 0 && ps[0].declared.Some?
    requires TakeTyped(env.u, st.heap, ps[0].declared.value, ps[0].nullable, pool1).Some?
    requires TakeTyped(env.u, st.heap, ps[0].declared.value, ps[0].nullable, pool1)
          == TakeTyped(env.u, st.heap, ps[0].declared.value, ps[0].nullable, pool2)
    ensures ResolveParams(env, fuel, rule, ps, pool1, share, st) == ResolveParams(env, fuel, rule, ps, pool2, share, st)
  {
    var taken := TakeTyped(env.u, st.heap, ps[0].declared.value, ps[0].nullable, pool1).value;
    TypedFirst(env, fuel, rule, ps, pool1, share, st, taken.0, taken.1);
    TypedFirst(env, fuel, rule, ps, pool2, share, st, taken.0, taken.1);
  }

  /** `TypedFirst` in closed form: the pool entry the first parameter takes, then the rest's values. */
  lemma {:induction false} TypedFirstCons(env: Env, fuel: nat, rule: Rule, ps: seq<Param>, pool: seq<Value>, share: seq<string>, st: Store,
                                          v: Value, rest: seq<Value>, vs: seq<Value>, st': Store)
    requires |ps| > 0 && ps[0].declared.Some?
    requires TakeTyped(env.u, st.heap, ps[0].declared.value, ps[0].nullable, pool) == Some((v, rest))
    requires ResolveParams(env, fuel, rule, ps[1..], rest, share, st) == Done(vs, st')
    ensures ResolveParams(env, fuel, rule, ps, pool, share, st) == Done([v] + vs, st')
  {
    TypedFirst(env, fuel, rule, ps, pool, share, st, v, rest);
  }

  /** With nothing in the pool for it, a typed parameter takes the rule's substitution. */
  lemma {:induction false} TypedFromSubstitution(env: Env, fuel: nat, rule: Rule, p: Param, pool: seq<Value>, share: seq<string>, st: Store)
    requires p.declared.Some?
    requires TakeTyped(env.u, st.heap, p.declared.value, p.nullable, pool).None?
    requires Substitution(rule, p.declared.value).Some?
    ensures var sub := Expand(env, fuel, Substitution(rule, p.declared.value).value, share, st);
            ResolveParam(env, fuel, rule, p, pool, share, st)
              == if sub.Failed? then Failed(sub.error) else Done((sub.v, pool), sub.st)
  {
  }

  /** With no substitution either, a request-shared instance serving its type. */
  lemma {:induction false} TypedFromRequest(env: Env, fuel: nat, rule: Rule, p: Param, pool: seq<Value>, share: seq<string>, st: Store)
    requires p.declared.Some?
    requires TakeTyped(env.u, st.heap, p.declared.value, p.nullable, pool).None?
    requires Substitution(rule, p.declared.value).None?
    requires SharedKey(env, share, p.declared.value).Some?
    ensures var got := FromRequest(env, fuel, SharedKey(env, share, p.declared.value).value, st);
            ResolveParam(env, fuel, rule, p, pool, share, st)
              == if got.Failed? then Failed(got.error) else Done((Obj(got.v), pool), got.st)
  {
  }

  /** Otherwise a new dependency, made without the call-site arguments. */
  lemma {:induction false} TypedFromCreate(env: Env, fuel: nat, rule: Rule, p: Param, pool: seq<Value>, share: seq<string>, st: Store)
    requires p.declared.Some?
    requires TakeTyped(env.u, st.heap, p.declared.value, p.nullable, pool).None?
    requires Substitution(rule, p.declared.value).None?
    requires SharedKey(env, share, p.declared.value).None?
    ensures var dep := Make(env, fuel, p.declared.value, [], ForcesNew(rule, p.declared.value), share, st);
            ResolveParam(env, fuel, rule, p, pool, share, st)
              == if dep.Failed? then Failed(dep.error) else Done((Obj(dep.v), pool), dep.st)
  {
  }

  /** An untyped parameter takes the next pool entry. */
  lemma {:induction false} UntypedFromPool(env: Env, fuel: nat, rule: Rule, p: Param, pool: seq<Value>, share: seq<string>, st: Store)
    requires p.declared.None? && |pool| > 0
    ensures ResolveParam(env, fuel, rule, p, pool, share, st) == Done((pool[0], pool[1..]), st)
  {
  }

  /** An untyped parameter with an empty pool falls back to its default, then null. */
  lemma {:induction false} UntypedFallback(env: Env, fuel: nat, rule: Rule, p: Param, share: seq<string>, st: Store)
    requires p.declared.None?
    ensures ResolveParam(env, fuel, rule, p, [], share, st) == Fallback(p, [], st)
  {
  }

  /** A class without parameters, under a rule with no `constructParams` or `call`s: just a new object. */
  lemma {:induction false} MakeLeaf(env: Env, fuel: nat, id: string, forceNew: bool, share: seq<string>, st: Store, rule: Rule, cls: string)
    requires fuel > 0
    requires RuleFor(env, id) == rule && !ByFactory(rule)
    requires TargetClass(id, rule) == cls && cls in env.u && env.u[cls].params == []
    requires !(IsShared(rule) && !forceNew && Normalize(id) in st.singletons)
    requires rule.constructParams.None? && rule.call.None?
    ensures Make(env, fuel, id, [], forceNew, share, st)
         == Done(|st.heap|, Prepare(st, cls, Normalize(id), IsShared(rule) && !forceNew))
  {
    var st1 := Prepare(st, cls, Normalize(id), IsShared(rule) && !forceNew);
    MakeUnfold(env, fuel, id, [], forceNew, share, st, rule, cls);
    ResolveParamsEmpty(env, fuel - 1, rule, [], share + rule.shareInstances, st1);
    assert Fill(st1, |st.heap|, []) == st1 by {
      assert Fill(st1, |st.heap|, []).heap == st1.heap;
    }
  }

  /** The only parameter, declared with a type nothing else supplies, is a new dependency. */
  lemma {:induction false} OnlyDependency(env: Env, fuel: nat, rule: Rule, p: Param, t: string, share: seq<string>, st: Store, r: Ref, st': Store)
    requires p.declared == Some(t) && Substitution(rule, t).None? && SharedKey(env, share, t).None?
    requires Make(env, fuel, t, [], ForcesNew(rule, t), share, st) == Done(r, st')
    ensures ResolveParams(env, fuel, rule, [p], [], share, st) == Done([Obj(r)], st')
  {
    assert TakeTyped(env.u, st.heap, t, p.nullable, []).None?;
    TypedFromCreate(env, fuel, rule, p, [], share, st);
    assert ResolveParam(env, fuel, rule, p, [], share, st) == Done((Obj(r), []), st');
    assert [p][0] == p && [p][1..] == [];
    ResolveParamsStep(env, fuel, rule, [p], [], share, st, Obj(r), [], st');
    ResolveParamsEmpty(env, fuel, rule, [], share, st');
    assert [Obj(r)] + [] == [Obj(r)];
  }

  /**
   * `id` names `cls`, whose parameters are `ps`, under a rule with no
   * `constructParams`, `shareInstances` or `call`s.
   */
  predicate PlainClass(env: Env, id: string, rule: Rule, cls: string, ps: seq<Param>) {
    && RuleFor(env, id) == rule && !ByFactory(rule)
    && TargetClass(id, rule) == cls && cls in env.u && env.u[cls].params == ps
    && rule.constructParams.None? && rule.call.None? && rule.shareInstances == []
  }

  /**
   * The stores of one uncached construction: `st1` once the object is
   * allocated (and cached, if shared), `st'` once its parameters are resolved,
   * `st''` once it holds them.
   */
  predicate PlainStores(id: string, forceNew: bool, rule: Rule, cls: string,
                        st: Store, st1: Store, vs: seq<Value>, st': Store, st'': Store) {
    && !(IsShared(rule) && !forceNew && Normalize(id) in st.singletons)
    && st1 == Prepare(st, cls, Normalize(id), IsShared(rule) && !forceNew)
    && |st.heap| < |st'.heap| && st'' == Fill(st', |st.heap|, vs)
  }

  /**
   * A plain class is built as a new object holding whatever its parameters
   * resolve to from the call-site arguments.
   */
  lemma {:induction false} MakePlain(env: Env, fuel: nat, id: string, args: seq<Value>, forceNew: bool, share: seq<string>, st: Store,
                  rule: Rule, cls: string, ps: seq<Param>, st1: Store, vs: seq<Value>, st': Store, st'': Store)
    requires fuel > 0
    requires PlainClass(env, id, rule, cls, ps)
    requires PlainStores(id, forceNew, rule, cls, st, st1, vs, st', st'')
    requires ResolveParams(env, fuel - 1, rule, ps, args, share, st1) == Done(vs, st')
    ensures Make(env, fuel, id, args, forceNew, share, st) == Done(|st.heap|, st'')
  {
    assert ConstructParams(rule) == [] && InertValues([]) == [];
    assert args + [] == args && share + [] == share;
    MakeUnfold(env, fuel, id, args, forceNew, share, st, rule, cls);
  }

  /**
   * `create` of an identifier whose rule builds a class directly, step by
   * step: the object is allocated (and cached, if shared), the rule's
   * `constructParams` are expanded, the parameters are resolved from the
   * call-site arguments followed by those values, and the `call`s are made.
   */
  /** MakeSteps with the three stage results as the antecedent of its conclusion. */
  lemma {:induction false} MakeStepsWhen(env: Env, fuel: nat, id: string, st: Store,
                                         rule: Rule, cls: string, fixed: seq<Value>, st2: Store, vs: seq<Value>, st3: Store, st4: Store)
    requires fuel > 0
    requires RuleFor(env, id) == rule && !ByFactory(rule)
    requires TargetClass(id, rule) == cls && cls in env.u
    requires !(IsShared(rule) && Normalize(id) in st.singletons)
    requires |st.heap| < |st3.heap|
    ensures (&& ExpandAll(env, fuel - 1, ConstructParams(rule), [] + rule.shareInstances,
                          Prepare(st, cls, Normalize(id), IsShared(rule))) == Done(fixed, st2)
             && ResolveParams(env, fuel - 1, rule, env.u[cls].params, [] + fixed, [] + rule.shareInstances, st2) == Done(vs, st3)
             && RunCalls(env, fuel - 1, |st.heap|, Calls(rule), [] + rule.shareInstances, Fill(st3, |st.heap|, vs))
                == Done(|st.heap|, st4))
            ==> Make(env, fuel, id, [], false, [], st) == Done(|st.heap|, st4)
  {
    if && ExpandAll(env, fuel - 1, ConstructParams(rule), [] + rule.shareInstances,
                    Prepare(st, cls, Normalize(id), IsShared(rule))) == Done(fixed, st2)
       && ResolveParams(env, fuel - 1, rule, env.u[cls].params, [] + fixed, [] + rule.shareInstances, st2) == Done(vs, st3)
       && RunCalls(env, fuel - 1, |st.heap|, Calls(rule), [] + rule.shareInstances, Fill(st3, |st.heap|, vs))
          == Done(|st.heap|, st4)
    {
      MakeSteps(env, fuel, id, [], false, [], st, rule, cls, fixed, st2, vs, st3, st4);
    }
  }

  lemma {:induction false} MakeSteps(env: Env, fuel: nat, id: string, args: seq<Value>, forceNew: bool, share: seq<string>, st: Store,
                                     rule: Rule, cls: string, fixed: seq<Value>, st2: Store, vs: seq<Value>, st3: Store, st4: Store)
    requires fuel > 0
    requires RuleFor(env, id) == rule && !ByFactory(rule)
    requires TargetClass(id, rule) == cls && cls in env.u
    requires !(IsShared(rule) && !forceNew && Normalize(id) in st.singletons)
    requires ExpandAll(env, fuel - 1, ConstructParams(rule), share + rule.shareInstances,
                       Prepare(st, cls, Normalize(id), IsShared(rule) && !forceNew)) == Done(fixed, st2)
    requires ResolveParams(env, fuel - 1, rule, env.u[cls].params, args + fixed, share + rule.shareInstances, st2) == Done(vs, st3)
    requires |st.heap| < |st3.heap|
    requires RunCalls(env, fuel - 1, |st.heap|, Calls(rule), share + rule.shareInstances, Fill(st3, |st.heap|, vs))
          == Done(|st.heap|, st4)
    ensures Make(env, fuel, id, args, forceNew, share, st) == Done(|st.heap|, st4)
  {
    var cacheable := IsShared(rule) && !forceNew;
    var st1 := Prepare(st, cls, Normalize(id), cacheable);
    assert Make(env, fuel, id, args, forceNew, share, st)
        == Wire(env, fuel - 1, |st.heap|, cls, rule, args, share + rule.shareInstances, st1) by {
      MakeToBuild(env, fuel, id, args, forceNew, share, st, rule, cls);
      BuildToWire(env, fuel - 1, Normalize(id), cls, rule, args, cacheable, share, st);
    }
  }

  /** A rule without `call`s leaves the object as it is. */
  lemma {:induction false} NoCalls(env: Env, fuel: nat, r: Ref, share: seq<string>, st: Store)
    requires r < |st.heap|
    ensures RunCalls(env, fuel, r, [], share, st) == Done(r, st)
  {
  }

  /** A `call` entry whose arguments are all literals or nulls. */
  predicate InertCall(c: CallSpec) {
    forall i :: 0 <= i < |c.args| ==> Inert(c.args[i])
  }

  /** The invocations a list of inert `call` entries records, in order. */
  function Invocations(calls: seq<CallSpec>): seq<Invocation>
    requires forall i :: 0 <= i < |calls| ==> InertCall(calls[i])
  {
    if |calls| == 0 then []
    else
      assert InertCall(calls[0]);
      assert forall i :: 0 <= i < |calls[1..]| ==> calls[1..][i] == calls[i + 1];
      [Invocation(calls[0].name, InertValues(calls[0].args))] + Invocations(calls[1..])
  }

  /** Object `r` with the invocations `invs` appended to its log. */
  function LogAll(st: Store, r: Ref, invs: seq<Invocation>): Store
    requires r < |st.heap|
  {
    st.(heap := st.heap[r := st.heap[r].(calls := st.heap[r].calls + invs)])
  }

  lemma LogThenLogAll(st: Store, r: Ref, inv: Invocation, invs: seq<Invocation>)
    requires r < |st.heap|
    ensures LogAll(Log(st, r, inv), r, invs) == LogAll(st, r, [inv] + invs)
  {
    assert st.heap[r].calls + [inv] + invs == st.heap[r].calls + ([inv] + invs);
  }

  /**
   * The `call`s of a rule, when their arguments are literals or nulls, are
   * recorded on the object in declared order, and nothing else changes.
   */
  lemma {:induction false} RunCallsInert(env: Env, fuel: nat, r: Ref, calls: seq<CallSpec>, share: seq<string>, st: Store)
    requires r < |st.heap|
    requires forall i :: 0 <= i < |calls| ==> InertCall(calls[i])
    ensures RunCalls(env, fuel, r, calls, share, st) == Done(r, LogAll(st, r, Invocations(calls)))
    decreases |calls|
  {
    if |calls| == 0 {
      assert LogAll(st, r, []) == st by {
        assert st.heap[r].calls + [] == st.heap[r].calls;
        assert st.heap[r := st.heap[r]] == st.heap;
      }
    } else {
      var inv := Invocation(calls[0].name, InertValues(calls[0].args));
      ExpandAllInert(env, fuel, calls[0].args, share, st);
      var st1 := Log(st, r, inv);
      assert RunCalls(env, fuel, r, calls, share, st) == RunCalls(env, fuel, r, calls[1..], share, st1);
      RunCallsInert(env, fuel, r, calls[1..], share, st1);
      LogThenLogAll(st, r, inv, Invocations(calls[1..]));
    }
  }

  /**
   * Whatever their arguments, the `call`s keep the object's earlier log as
   * a prefix and add one entry per call, named as declared, in order.
   */
  lemma {:induction false} RunCallsLog(env: Env, fuel: nat, r: Ref, calls: seq<CallSpec>, share: seq<string>, st: Store,
                                       st': Store)
    requires r < |st.heap|
    ensures RunCalls(env, fuel, r, calls, share, st) == Done(r, st') ==>
              && st'.heap[r].calls[..|st.heap[r].calls|] == st.heap[r].calls
              && forall j :: 0 <= j < |calls| ==> st'.heap[r].calls[|st.heap[r].calls| + j].name == calls[j].name
    decreases |calls|
  {
    var n := |st.heap[r].calls|;
    if |calls| > 0 && RunCalls(env, fuel, r, calls, share, st) == Done(r, st') {
      var first := ExpandAll(env, fuel, calls[0].args, share, st);
      assert first.Done?;
      var st2 := Log(first.st, r, Invocation(calls[0].name, first.v));
      assert st2.heap[r].calls == st.heap[r].calls + [Invocation(calls[0].name, first.v)];
      RunCallsLog(env, fuel, r, calls[1..], share, st2, st');
      assert st'.heap[r].calls[..n] == st'.heap[r].calls[..n + 1][..n];
      forall j | 0 <= j < |calls|
        ensures st'.heap[r].calls[n + j].name == calls[j].name
      {
        if j > 0 {
          assert calls[1..][j - 1] == calls[j];
        }
      }
    }
  }
}
