/**
 * Laws of `create` that hold for every class universe, rule store and
 * container state: how identifiers are spelled, what an undeclared class
 * gives, and how call-site arguments meet constructor parameters.
 */
module Laws {
  import opened Wrappers
  import opened Identifiers
  import opened Arena
  import opened Classes
  import opened Rules
  import opened Matcher
  import opened Engine
  import opened Steps
  import Dice

  /** Two spellings of one identifier (ASCII case, leading separators) build the same thing. */
  lemma {:induction false} MakeSpelling(env: Env, fuel: nat, x: string, y: string, args: seq<Value>, forceNew: bool,
                                        share: seq<string>, st: Store)
    requires Normalize(x) == Normalize(y)
    ensures Make(env, fuel, x, args, forceNew, share, st) == Make(env, fuel, y, args, forceNew, share, st)
  {
    assert RuleFor(env, x) == RuleFor(env, y);
  }

  /** `create('\Foo\A')` is `create('Foo\A')`: a leading namespace separator changes nothing. */
  lemma {:induction false} CreateWithSlash(c: Dice.Container, fuel: nat, x: string, args: seq<Value>, forceNew: bool)
    ensures Dice.Create(c, fuel, [Separator] + x, args, forceNew) == Dice.Create(c, fuel, x, args, forceNew)
  {
    NormalizeIgnoresLeadingSeparator(x);
    MakeSpelling(c.Env(), fuel, [Separator] + x, x, args, forceNew, [], Store(c.heap, c.singletons, map[]));
  }

  /**
   * `create` of an identifier that names no declared class, on a container
   * without rules, fails with the unknown class and builds nothing.
   */
  lemma {:induction false} CreateUnknown(u: Universe, fuel: nat, x: string, args: seq<Value>, forceNew: bool)
    requires fuel > 0 && Normalize(x) != Wildcard && Normalize(x) !in u
    ensures Dice.Create(Dice.New(u), fuel, x, args, forceNew) == Failure(UnknownClass(Normalize(x)))
  {
    assert Dice.GetRule(Dice.New(u), x) == NoRule by {
      WildcardIsInherited(u, map[], x);
    }
  }

  /**
   * A dependency whose class is not declared makes its parameter fail with
   * that class, even when the parameter has a default or allows null: no
   * fallback masks it.
   */
  lemma {:induction false} UnknownDependencyFails(env: Env, fuel: nat, rule: Rule, p: Param, pool: seq<Value>,
                                                  share: seq<string>, st: Store)
    requires fuel > 0 && p.declared.Some?
    requires var t := p.declared.value;
             && TakeTyped(env.u, st.heap, t, p.nullable, pool).None?
             && Substitution(rule, t).None? && SharedKey(env, share, t).None?
             && !ByFactory(RuleFor(env, t)) && TargetClass(t, RuleFor(env, t)) !in env.u
             && !(IsShared(RuleFor(env, t)) && !ForcesNew(rule, t) && Normalize(t) in st.singletons)
    ensures ResolveParam(env, fuel, rule, p, pool, share, st)
         == Failed(UnknownClass(TargetClass(p.declared.value, RuleFor(env, p.declared.value))))
  {
    TypedFromCreate(env, fuel, rule, p, pool, share, st);
  }

  /**
   * When the first parameter is typed and accepts `v`, it takes `v` whether
   * `v` comes first or after any number of scalars; the remaining pool is the
   * same either way, so every later parameter resolves the same.
   */
  lemma {:induction false} TypedArgAnyPosition(env: Env, fuel: nat, rule: Rule, ps: seq<Param>,
                                               xs: seq<Value>, v: Value, ys: seq<Value>, share: seq<string>, st: Store)
    requires |ps| > 0 && ps[0].declared.Some?
    requires forall i :: 0 <= i < |xs| ==> xs[i].Scalar?
    requires Accepts(env.u, st.heap, ps[0].declared.value, ps[0].nullable, v)
    ensures ResolveParams(env, fuel, rule, ps, xs + [v] + ys, share, st)
         == ResolveParams(env, fuel, rule, ps, [v] + xs + ys, share, st)
  {
    TypedTakeMoved(env.u, st.heap, ps[0].declared.value, ps[0].nullable, xs, v, ys);
    SameTakeSameValues(env, fuel, rule, ps, xs + [v] + ys, [v] + xs + ys, share, st);
  }

  /** A value a parameter accepts stays acceptable as the store grows. */
  lemma AcceptsGrows(u: Universe, st: Store, st': Store, t: string, nullable: bool, v: Value)
    requires Grows(st, st') && Accepts(u, st.heap, t, nullable, v)
    ensures Accepts(u, st'.heap, t, nullable, v)
  {
    if v.Obj? {
      assert st'.heap[v.ref] == st.heap[v.ref];
    }
  }

  lemma {:induction false} WireArgsAnyPosition(env: Env, fuel: nat, r: Ref, cls: string, rule: Rule,
                                               xs: seq<Value>, v: Value, ys: seq<Value>, share: seq<string>, st: Store)
    requires cls in env.u && r < |st.heap|
    requires |env.u[cls].params| > 0 && env.u[cls].params[0].declared.Some?
    requires Accepts(env.u, st.heap, env.u[cls].params[0].declared.value, env.u[cls].params[0].nullable, v)
    requires forall i :: 0 <= i < |xs| ==> xs[i].Scalar?
    ensures Wire(env, fuel, r, cls, rule, xs + [v] + ys, share, st) == Wire(env, fuel, r, cls, rule, [v] + xs + ys, share, st)
  {
    var p := env.u[cls].params[0];
    var ex := ExpandAll(env, fuel, ConstructParams(rule), share, st);
    if ex.Done? {
      AcceptsGrows(env.u, st, ex.st, p.declared.value, p.nullable, v);
      assert (xs + [v] + ys) + ex.v == xs + [v] + (ys + ex.v);
      assert ([v] + xs + ys) + ex.v == [v] + xs + (ys + ex.v);
      TypedArgAnyPosition(env, fuel, rule, env.u[cls].params, xs, v, ys + ex.v, share, ex.st);
    }
  }

  /** The class `create(id)` builds has a typed first parameter that accepts `v`. */
  predicate FirstParamAccepts(env: Env, id: string, heap: seq<Instance>, v: Value) {
    var cls := TargetClass(id, RuleFor(env, id));
    && cls in env.u
    && |env.u[cls].params| > 0
    && env.u[cls].params[0].declared.Some?
    && Accepts(env.u, heap, env.u[cls].params[0].declared.value, env.u[cls].params[0].nullable, v)
  }

  /**
   * Typed call-site arguments are matched by class, not by position: moving
   * an object the first parameter accepts in front of the scalars changes
   * nothing that `create` does.
   */
  lemma {:induction false} MakeArgsAnyPosition(env: Env, fuel: nat, id: string, xs: seq<Value>, v: Value, ys: seq<Value>,
                                               forceNew: bool, share: seq<string>, st: Store)
    requires FirstParamAccepts(env, id, st.heap, v)
    requires forall i :: 0 <= i < |xs| ==> xs[i].Scalar?
    ensures Make(env, fuel, id, xs + [v] + ys, forceNew, share, st) == Make(env, fuel, id, [v] + xs + ys, forceNew, share, st)
  {
    var rule := RuleFor(env, id);
    var cls := TargetClass(id, rule);
    var cacheable := IsShared(rule) && !forceNew;
    if !(cacheable && Normalize(id) in st.singletons) && fuel > 0 && !ByFactory(rule) {
      var st1 := Prepare(st, cls, Normalize(id), cacheable);
      var share' := share + rule.shareInstances;
      assert Make(env, fuel, id, xs + [v] + ys, forceNew, share, st)
          == Wire(env, fuel - 1, |st.heap|, cls, rule, xs + [v] + ys, share', st1) by {
        MakeToBuild(env, fuel, id, xs + [v] + ys, forceNew, share, st, rule, cls);
        BuildToWire(env, fuel - 1, Normalize(id), cls, rule, xs + [v] + ys, cacheable, share, st);
      }
      assert Make(env, fuel, id, [v] + xs + ys, forceNew, share, st)
          == Wire(env, fuel - 1, |st.heap|, cls, rule, [v] + xs + ys, share', st1) by {
        MakeToBuild(env, fuel, id, [v] + xs + ys, forceNew, share, st, rule, cls);
        BuildToWire(env, fuel - 1, Normalize(id), cls, rule, [v] + xs + ys, cacheable, share, st);
      }
      assert Wire(env, fuel - 1, |st.heap|, cls, rule, xs + [v] + ys, share', st1)
          == Wire(env, fuel - 1, |st.heap|, cls, rule, [v] + xs + ys, share', st1) by {
        AcceptsGrows(env.u, st, st1, env.u[cls].params[0].declared.value, env.u[cls].params[0].nullable, v);
        WireArgsAnyPosition(env, fuel - 1, |st.heap|, cls, rule, xs, v, ys, share', st1);
      }
    }
  }

  /** At the container surface: `create(id, ['Foo', $b])` is `create(id, [$b, 'Foo'])`. */
  lemma {:induction false} CreateArgsAnyOrder(c: Dice.Container, fuel: nat, id: string, xs: seq<Value>, v: Value, ys: seq<Value>,
                                              forceNew: bool)
    requires FirstParamAccepts(c.Env(), id, c.heap, v)
    requires forall i :: 0 <= i < |xs| ==> xs[i].Scalar?
    ensures Dice.Create(c, fuel, id, xs + [v] + ys, forceNew) == Dice.Create(c, fuel, id, [v] + xs + ys, forceNew)
  {
    MakeArgsAnyPosition(c.Env(), fuel, id, xs, v, ys, forceNew, [], Store(c.heap, c.singletons, map[]));
  }

  predicate AllUntyped(ps: seq<Param>) {
    forall i :: 0 <= i < |ps| ==> ps[i].declared.None?
  }

  /** Untyped parameters take the pool in order, one entry each, and build nothing. */
  lemma {:induction false} UntypedInOrder(env: Env, fuel: nat, rule: Rule, ps: seq<Param>, pool: seq<Value>,
                                          share: seq<string>, st: Store)
    requires AllUntyped(ps) && |ps| <= |pool|
    ensures ResolveParams(env, fuel, rule, ps, pool, share, st) == Done(pool[..|ps|], st)
    decreases |ps|
  {
    if |ps| == 0 {
      ResolveParamsEmpty(env, fuel, rule, pool, share, st);
    } else {
      UntypedFromPool(env, fuel, rule, ps[0], pool, share, st);
      UntypedInOrder(env, fuel, rule, ps[1..], pool[1..], share, st);
      ResolveParamsStep(env, fuel, rule, ps, pool, share, st, pool[0], pool[1..], st);
      assert [pool[0]] + pool[1..][..|ps| - 1] == pool[..|ps|];
    }
  }

  /**
   * Call-site arguments come before the rule's `constructParams`: a class
   * whose parameters are untyped takes the call-site arguments first, and
   * the literals only for the parameters the call site left over.
   */
  lemma {:induction false} ArgsBeforeConstructParams(env: Env, fuel: nat, id: string, args: seq<Value>, forceNew: bool,
                                                     share: seq<string>, st: Store, rule: Rule, cls: string)
    requires fuel > 0
    requires RuleFor(env, id) == rule && !ByFactory(rule)
    requires TargetClass(id, rule) == cls && cls in env.u
    requires !(IsShared(rule) && !forceNew && Normalize(id) in st.singletons)
    requires forall i :: 0 <= i < |ConstructParams(rule)| ==> Inert(ConstructParams(rule)[i])
    requires Calls(rule) == []
    requires AllUntyped(env.u[cls].params)
    requires |env.u[cls].params| <= |args| + |ConstructParams(rule)|
    ensures Make(env, fuel, id, args, forceNew, share, st)
         == Done(|st.heap|, Fill(Prepare(st, cls, Normalize(id), IsShared(rule) && !forceNew), |st.heap|,
                                 (args + InertValues(ConstructParams(rule)))[..|env.u[cls].params|]))
  {
    var st1 := Prepare(st, cls, Normalize(id), IsShared(rule) && !forceNew);
    var pool := args + InertValues(ConstructParams(rule));
    MakeUnfold(env, fuel, id, args, forceNew, share, st, rule, cls);
    UntypedInOrder(env, fuel - 1, rule, env.u[cls].params, pool, share + rule.shareInstances, st1);
  }

  predicate AllScalar(vs: seq<Value>) {
    forall i :: 0 <= i < |vs| ==> vs[i].Scalar?
  }

  /**
   * A typed parameter that no entry of a scalar-only pool serves and no
   * substitution covers is built first, from nothing; the untyped
   * parameters after it then take the pool in order, all of it still there.
   */
  lemma {:induction false} DependencyThenUntyped(env: Env, fuel: nat, rule: Rule, params: seq<Param>, p: Param, ps: seq<Param>,
                                                 pool: seq<Value>, share: seq<string>, st: Store, r: Ref, st': Store)
    requires params == [p] + ps && AllUntyped(ps)
    requires p.declared.Some? && Substitution(rule, p.declared.value).None? && SharedKey(env, share, p.declared.value).None?
    requires AllScalar(pool) && |ps| <= |pool|
    requires Make(env, fuel, p.declared.value, [], ForcesNew(rule, p.declared.value), share, st) == Done(r, st')
    ensures ResolveParams(env, fuel, rule, params, pool, share, st) == Done([Obj(r)] + pool[..|ps|], st')
  {
    assert TakeTyped(env.u, st.heap, p.declared.value, p.nullable, pool).None?;
    TypedFromCreate(env, fuel, rule, p, pool, share, st);
    UntypedInOrder(env, fuel, rule, ps, pool, share, st');
    assert params[0] == p && params[1..] == ps;
    ResolveParamsCons(env, fuel, rule, params, pool, share, st, Obj(r), pool, st', pool[..|ps|], st');
  }

  /**
   * At the container surface: a class whose constructor parameters are all
   * untyped, under a rule with literal `constructParams` and no `call`s, is
   * one new object holding the call-site arguments followed by the literals,
   * as many as it has parameters; it is cached when the rule is shared.
   */
  lemma {:induction false} CreateArgsThenLiterals(c: Dice.Container, fuel: nat, id: string, cls: string, args: seq<Value>,
                                                  forceNew: bool)
    requires fuel > 0
    requires var rule := Dice.GetRule(c, id);
             && !ByFactory(rule) && TargetClass(id, rule) == cls && cls in c.u
             && AllUntyped(c.u[cls].params)
             && (forall i :: 0 <= i < |ConstructParams(rule)| ==> Inert(ConstructParams(rule)[i]))
             && Calls(rule) == []
             && |c.u[cls].params| <= |args| + |ConstructParams(rule)|
             && !(IsShared(rule) && !forceNew && Normalize(id) in c.singletons)
    ensures var rule := Dice.GetRule(c, id);
            var vals := (args + InertValues(ConstructParams(rule)))[..|c.u[cls].params|];
            Dice.Create(c, fuel, id, args, forceNew)
              == Success(Dice.Created(|c.heap|, c.(heap := c.heap + [Instance(cls, vals, [])],
                                                  singletons := if IsShared(rule) && !forceNew
                                                                then c.singletons[Normalize(id) := |c.heap|]
                                                                else c.singletons)))
  {
    var rule := Dice.GetRule(c, id);
    var cacheable := IsShared(rule) && !forceNew;
    var st := Store(c.heap, c.singletons, map[]);
    var vals := (args + InertValues(ConstructParams(rule)))[..|c.u[cls].params|];
    var st' := Fill(Prepare(st, cls, Normalize(id), cacheable), |st.heap|, vals);
    assert Make(c.Env(), fuel, id, args, forceNew, [], st) == Done(|c.heap|, st') by {
      ArgsBeforeConstructParams(c.Env(), fuel, id, args, forceNew, [], st, rule, cls);
    }
    assert st'.heap == c.heap + [Instance(cls, vals, [])];
  }
}
