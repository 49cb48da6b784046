/**
 * The `constructParams` tests where the literals meet a constructor that
 * also asks for a dependency, either before them or beside a class that
 * takes them.
 *
 * Assumed fixtures: `RequiresConstructorArgsB(A $a, $foo, $bar)` with `A`
 * without constructor parameters; `ParamRequiresArgs(D $d,
 * RequiresConstructorArgsA $a)` with `D` without constructor parameters and
 * `RequiresConstructorArgsA($foo, $bar)`.
 */
module ConstructTests {
  import opened Wrappers
  import opened Identifiers
  import opened Arena
  import opened Classes
  import opened Rules
  import opened Matcher
  import opened Engine
  import opened Steps
  import opened Fixtures
  import opened Scenarios
  import opened Laws
  import opened ArgumentTests
  import opened SharingTests
  import opened GraphTests
  import Dice

  // testConstructParamsMixed and testConstructArgsMixed

  function MixedParams(a: string): seq<Param> {
    [Dep(a), Untyped("foo"), Untyped("bar")]
  }

  function MixedUniverse(rb: string, a: string): Universe {
    map[rb := Class(MixedParams(a)), a := Class([])]
  }

  predicate MixedNames(rb: string, a: string) {
    Name(rb) && Name(a) && rb != a
  }

  /** `RequiresConstructorArgsB` under `rule`, which neither shares, substitutes nor calls; `A` plain and unruled. */
  predicate MixedEnv(env: Env, rule: Rule, rb: string, a: string) {
    && MixedNames(rb, a)
    && RuleFor(env, rb) == rule && !ByFactory(rule) && TargetClass(rb, rule) == rb
    && rb in env.u && env.u[rb].params == MixedParams(a)
    && !IsShared(rule) && rule.shareInstances == [] && Calls(rule) == []
    && Substitution(rule, a).None? && !ForcesNew(rule, a)
    && PlainClass(env, a, NoRule, a, [])
  }

  /** The `RequiresConstructorArgsB` made as object `n`, holding the `A` after it and the two scalars. */
  function MixedObject(rb: string, x: string, y: string, n: nat): Instance {
    Instance(rb, [Obj(n + 1), Scalar(x), Scalar(y)], [])
  }

  /** A plain class without parameters, as a dependency that `rule` does not force: one new object. */
  lemma {:induction false} LeafUnforced(env: Env, fuel: nat, x: string, rule: Rule, share: seq<string>, st: Store)
    requires fuel > 0 && PlainClass(env, x, NoRule, x, []) && Normalize(x) == x && !ForcesNew(rule, x)
    ensures Make(env, fuel, x, [], ForcesNew(rule, x), share, st) == Done(|st.heap|, st.(heap := st.heap + [Bare(x)]))
  {
    LeafMake(env, fuel, x, share, st);
  }

  /**
   * `RequiresConstructorArgsB`'s parameters, with the two scalars in the
   * pool: a new `A` for `$a`, then the scalars in order.
   */
  lemma {:induction false} MixedParamsResolve(env: Env, rule: Rule, a: string, pool: seq<Value>, x: string, y: string,
                                              share: seq<string>, fuel: nat, st: Store)
    requires fuel > 0 && PlainClass(env, a, NoRule, a, []) && Normalize(a) == a
    requires Substitution(rule, a).None? && !ForcesNew(rule, a) && SharedKey(env, share, a).None?
    requires pool == [Scalar(x), Scalar(y)]
    ensures ResolveParams(env, fuel, rule, MixedParams(a), pool, share, st)
         == Done([Obj(|st.heap|), Scalar(x), Scalar(y)], st.(heap := st.heap + [Bare(a)]))
  {
    LeafUnforced(env, fuel, a, rule, share, st);
    assert AllScalar(pool);
    DependencyThenUntyped(env, fuel, rule, MixedParams(a), Dep(a), [Untyped("foo"), Untyped("bar")], pool, share, st,
                          |st.heap|, st.(heap := st.heap + [Bare(a)]));
    assert [Obj(|st.heap|)] + pool[..2] == [Obj(|st.heap|), Scalar(x), Scalar(y)];
  }

  /** `RequiresConstructorArgsB`, once its parameters are resolved, receives them. */
  lemma {:induction false} MixedFill(rb: string, a: string, x: string, y: string, st: Store)
    ensures var p := Prepare(st, rb, rb, false);
            Fill(p.(heap := p.heap + [Bare(a)]), |st.heap|, [Obj(|st.heap| + 1), Scalar(x), Scalar(y)])
              == st.(heap := st.heap + [MixedObject(rb, x, y, |st.heap|), Bare(a)])
  {
    var p := Prepare(st, rb, rb, false);
    assert Fill(p.(heap := p.heap + [Bare(a)]), |st.heap|, [Obj(|st.heap| + 1), Scalar(x), Scalar(y)]).heap
        == st.heap + [MixedObject(rb, x, y, |st.heap|), Bare(a)];
  }

  /**
   * Making `RequiresConstructorArgsB` when the call-site arguments and the
   * rule's literals together are the two scalars: a new `A` goes to `$a`,
   * and the scalars go, in order, to `$foo` and `$bar`.
   */
  lemma {:induction false} MixedMake(env: Env, rule: Rule, rb: string, a: string, args: seq<Value>, x: string, y: string,
                                     fuel: nat, st: Store)
    requires MixedEnv(env, rule, rb, a) && fuel > 1
    requires forall i :: 0 <= i < |ConstructParams(rule)| ==> Inert(ConstructParams(rule)[i])
    requires args + InertValues(ConstructParams(rule)) == [Scalar(x), Scalar(y)]
    ensures Make(env, fuel, rb, args, false, [], st)
         == Done(|st.heap|, st.(heap := st.heap + [MixedObject(rb, x, y, |st.heap|), Bare(a)]))
  {
    var p := Prepare(st, rb, rb, false);
    var none: seq<string> := [];
    assert Prepare(st, rb, Normalize(rb), IsShared(rule) && !false) == p;
    assert none + rule.shareInstances == none;
    MixedParamsResolve(env, rule, a, args + InertValues(ConstructParams(rule)), x, y, none + rule.shareInstances, fuel - 1, p);
    MixedFill(rb, a, x, y, st);
    MakeResolved(env, fuel, rb, args, false, none, st, rule, rb, [Obj(|st.heap| + 1), Scalar(x), Scalar(y)],
                 p.(heap := p.heap + [Bare(a)]));
  }

  /** The objects either test's `create` leaves on an empty container. */
  function MixedHeap(rb: string, a: string, x: string, y: string): seq<Instance> {
    [MixedObject(rb, x, y, 0), Bare(a)]
  }

  /** `create('RequiresConstructorArgsB', args)` on an empty container. */
  lemma {:induction false} MixedCreateOn(k: Dice.Container, rule: Rule, rb: string, a: string, args: seq<Value>,
                                         x: string, y: string, fuel: nat)
    requires MixedEnv(k.Env(), rule, rb, a) && k.heap == [] && k.singletons == map[] && fuel > 1
    requires forall i :: 0 <= i < |ConstructParams(rule)| ==> Inert(ConstructParams(rule)[i])
    requires args + InertValues(ConstructParams(rule)) == [Scalar(x), Scalar(y)]
    ensures Dice.Create(k, fuel, rb, args, false) == Success(Dice.Created(0, k.(heap := MixedHeap(rb, a, x, y))))
  {
    var st := Start([], map[]);
    MixedMake(k.Env(), rule, rb, a, args, x, y, fuel, st);
    assert st.(heap := st.heap + [MixedObject(rb, x, y, 0), Bare(a)]) == st.(heap := MixedHeap(rb, a, x, y));
    CreateFromMake(k, fuel, rb, args, false, 0, st.(heap := MixedHeap(rb, a, x, y)));
  }

  /** In that heap, `$obj->a` is an `A`, and `$obj->foo`, `$obj->bar` are the two scalars. */
  lemma {:induction false} MixedLinks(k: Dice.Container, rb: string, a: string, x: string, y: string)
    requires k.heap == MixedHeap(rb, a, x, y)
    ensures && Dice.Arg(k, 0, 0) == Some(Obj(1)) && Dice.InstanceOf(k, 1, a)
            && Dice.Arg(k, 0, 1) == Some(Scalar(x)) && Dice.Arg(k, 0, 2) == Some(Scalar(y))
  {
    IsAReflexive(k.u, a, a);
  }

  /** Under `['constructParams' => [x, y]]` on `RequiresConstructorArgsB`, the classes are as `MixedEnv` describes. */
  lemma {:induction false} MixedLiteralsEnv(rb: string, a: string, x: string, y: string)
    requires MixedNames(rb, a)
    ensures var k := Dice.AddRule(Dice.New(MixedUniverse(rb, a)), rb, LiteralsRule(x, y));
            && MixedEnv(k.Env(), LiteralsRule(x, y), rb, a)
            && InertValues(ConstructParams(LiteralsRule(x, y))) == [Scalar(x), Scalar(y)]
  {
    var u := MixedUniverse(rb, a);
    var k := Dice.AddRule(Dice.New(u), rb, LiteralsRule(x, y));
    assert k.rules == map[rb := LiteralsRule(x, y)] by {
      MergeNoRule(LiteralsRule(x, y));
    }
    OwnRule(u, k.rules, rb);
    Unruled(u, k.rules, a);
    LiteralValues(x, y);
  }

  /**
   * `testConstructParamsMixed`: with `constructParams` `[x, y]` on
   * `RequiresConstructorArgsB`, `create` gives `$foo` the `x` and `$bar` the
   * `y`, and `$a` a new `A`: the literals skip the typed parameter.
   */
  lemma {:induction false} ConstructParamsMixed(rb: string, a: string, x: string, y: string, fuel: nat)
    requires MixedNames(rb, a) && fuel > 1
    ensures var k := Dice.AddRule(Dice.New(MixedUniverse(rb, a)), rb, LiteralsRule(x, y));
            var k1 := k.(heap := MixedHeap(rb, a, x, y));
            && Dice.Create(k, fuel, rb, [], false) == Success(Dice.Created(0, k1))
            && Dice.Arg(k1, 0, 1) == Some(Scalar(x)) && Dice.Arg(k1, 0, 2) == Some(Scalar(y))
            && Dice.Arg(k1, 0, 0) == Some(Obj(1)) && Dice.InstanceOf(k1, 1, a)
  {
    var k := Dice.AddRule(Dice.New(MixedUniverse(rb, a)), rb, LiteralsRule(x, y));
    var none: seq<Value> := [];
    MixedLiteralsEnv(rb, a, x, y);
    assert none + InertValues(ConstructParams(LiteralsRule(x, y))) == [Scalar(x), Scalar(y)];
    MixedCreateOn(k, LiteralsRule(x, y), rb, a, none, x, y, fuel);
    MixedLinks(k.(heap := MixedHeap(rb, a, x, y)), rb, a, x, y);
  }

  /**
   * `testConstructArgsMixed`: with no rule, `create('RequiresConstructorArgsB',
   * [x, y])` gives `$foo` the `x` and `$bar` the `y`, and `$a` a new `A`: the
   * call-site scalars skip the typed parameter.
   */
  lemma {:induction false} ConstructArgsMixed(rb: string, a: string, x: string, y: string, fuel: nat)
    requires MixedNames(rb, a) && fuel > 1
    ensures var k := Dice.New(MixedUniverse(rb, a));
            var k1 := k.(heap := MixedHeap(rb, a, x, y));
            && Dice.Create(k, fuel, rb, [Scalar(x), Scalar(y)], false) == Success(Dice.Created(0, k1))
            && Dice.Arg(k1, 0, 1) == Some(Scalar(x)) && Dice.Arg(k1, 0, 2) == Some(Scalar(y))
            && Dice.Arg(k1, 0, 0) == Some(Obj(1)) && Dice.InstanceOf(k1, 1, a)
  {
    var k := Dice.New(MixedUniverse(rb, a));
    NoRules(k.u, rb);
    NoRules(k.u, a);
    assert [Scalar(x), Scalar(y)] + InertValues(ConstructParams(NoRule)) == [Scalar(x), Scalar(y)];
    MixedCreateOn(k, NoRule, rb, a, [Scalar(x), Scalar(y)], x, y, fuel);
    MixedLinks(k.(heap := MixedHeap(rb, a, x, y)), rb, a, x, y);
  }

  // testConstructParamsNested

  function NestedUniverse(pra: string, d: string, rca: string): Universe {
    map[pra := Class([Dep(d), Dep(rca)]), d := Class([]), rca := TwoScalars()]
  }

  predicate NestedNames(pra: string, d: string, rca: string) {
    Name(pra) && Name(d) && Name(rca) && pra != d && pra != rca && d != rca
  }

  /** `ParamRequiresArgs` shares `D`; `RequiresConstructorArgsA` has the literals; `D` serves nothing else. */
  predicate NestedEnv(env: Env, pra: string, d: string, rca: string, x: string, y: string) {
    && NestedNames(pra, d, rca)
    && RuleFor(env, pra) == ShareRule(d) && TargetClass(pra, ShareRule(d)) == pra
    && pra in env.u && env.u[pra].params == [Dep(d), Dep(rca)]
    && PlainClass(env, d, NoRule, d, [])
    && RuleFor(env, rca) == LiteralsRule(x, y) && TargetClass(rca, LiteralsRule(x, y)) == rca
    && rca in env.u && env.u[rca].params == TwoScalars().params
    && !SharesFor(env, d, rca)
  }

  /** The two rules of the test, each under its own key. */
  lemma {:induction false} NestedEnvOf(pra: string, d: string, rca: string, x: string, y: string)
    requires NestedNames(pra, d, rca)
    ensures var k := Dice.AddRule(Dice.AddRule(Dice.New(NestedUniverse(pra, d, rca)), rca, LiteralsRule(x, y)), pra, ShareRule(d));
            NestedEnv(k.Env(), pra, d, rca, x, y)
  {
    var u := NestedUniverse(pra, d, rca);
    var k := Dice.AddRule(Dice.AddRule(Dice.New(u), rca, LiteralsRule(x, y)), pra, ShareRule(d));
    assert k.rules == map[rca := LiteralsRule(x, y), pra := ShareRule(d)] by {
      MergeNoRule(LiteralsRule(x, y));
      MergeNoRule(ShareRule(d));
    }
    OwnRule(u, k.rules, pra);
    OwnRule(u, k.rules, rca);
    Unruled(u, k.rules, d);
  }

  /** `$d`, the first `D` of the request: a new `D`, which the request keeps. */
  lemma {:induction false} DParam(env: Env, pra: string, d: string, rca: string, x: string, y: string, fuel: nat, st: Store)
    requires NestedEnv(env, pra, d, rca, x, y) && fuel > 0 && d !in st.request
    ensures ResolveParam(env, fuel, ShareRule(d), Dep(d), [], [d], st)
         == Done((Obj(|st.heap|), []), st.(heap := st.heap + [Bare(d)], request := st.request[d := |st.heap|]))
  {
    LeafMake(env, fuel, d, [], st);
    assert FromRequest(env, fuel, d, st)
        == Done(|st.heap|, st.(heap := st.heap + [Bare(d)], request := st.request[d := |st.heap|]));
    assert SharesFor(env, d, d);
    assert SharedKey(env, [d], d) == Some(d);
    assert TakeTyped(env.u, st.heap, d, false, []).None?;
    TypedFromRequest(env, fuel, ShareRule(d), Dep(d), [], [d], st);
  }

  /** The `RequiresConstructorArgsA` made as object `n`, holding the rule's two literals. */
  function LiteralsObject(rca: string, x: string, y: string): Instance {
    Instance(rca, [Scalar(x), Scalar(y)], [])
  }

  /** `RequiresConstructorArgsA` under its literals rule, made as a dependency: one new object holding the literals. */
  lemma {:induction false} LiteralsMake(env: Env, rca: string, x: string, y: string, share: seq<string>, fuel: nat, st: Store)
    requires fuel > 0 && RuleFor(env, rca) == LiteralsRule(x, y) && TargetClass(rca, LiteralsRule(x, y)) == rca
    requires rca in env.u && env.u[rca].params == TwoScalars().params
    ensures Make(env, fuel, rca, [], false, share, st) == Done(|st.heap|, st.(heap := st.heap + [LiteralsObject(rca, x, y)]))
  {
    LiteralValues(x, y);
    MakeFromLiterals(env, fuel, rca, rca, LiteralsRule(x, y), share, st);
  }

  /** `$a`, which `D` does not serve: a new `RequiresConstructorArgsA` holding the literals of its own rule. */
  lemma {:induction false} LiteralsParam(env: Env, pra: string, d: string, rca: string, x: string, y: string, fuel: nat, st: Store)
    requires NestedEnv(env, pra, d, rca, x, y) && fuel > 0
    ensures ResolveParams(env, fuel, ShareRule(d), [Dep(rca)], [], [d], st)
         == Done([Obj(|st.heap|)], st.(heap := st.heap + [LiteralsObject(rca, x, y)]))
  {
    LiteralsMake(env, rca, x, y, [d], fuel, st);
    assert SharedKey(env, [d], rca).None?;
    assert TakeTyped(env.u, st.heap, rca, false, []).None?;
    TypedFromCreate(env, fuel, ShareRule(d), Dep(rca), [], [d], st);
    ResolveOne(env, fuel, ShareRule(d), Dep(rca), [], [d], st, Obj(|st.heap|), [], st.(heap := st.heap + [LiteralsObject(rca, x, y)]));
  }

  /** The objects `create('ParamRequiresArgs')` adds after the new object `n`. */
  function NestedTail(d: string, rca: string, x: string, y: string): seq<Instance> {
    [Bare(d), LiteralsObject(rca, x, y)]
  }

  /** The store once `$d` and then `$a` are made, after the objects of `p`. */
  lemma {:induction false} NestedStores(d: string, rca: string, x: string, y: string, p: Store)
    requires p.request == map[]
    ensures var p2 := p.(heap := p.heap + [Bare(d)], request := p.request[d := |p.heap|]);
            && |p2.heap| == |p.heap| + 1
            && p2.(heap := p2.heap + [LiteralsObject(rca, x, y)])
               == p.(heap := p.heap + NestedTail(d, rca, x, y), request := map[d := |p.heap|])
  {
    var p2 := p.(heap := p.heap + [Bare(d)], request := p.request[d := |p.heap|]);
    assert p2.heap + [LiteralsObject(rca, x, y)] == p.heap + NestedTail(d, rca, x, y);
  }

  /** `ParamRequiresArgs`'s two parameters, resolved in a new request: a `D` the request keeps, then the literals' object. */
  lemma {:induction false} NestedParams(env: Env, pra: string, d: string, rca: string, x: string, y: string, fuel: nat, p: Store)
    requires NestedEnv(env, pra, d, rca, x, y) && fuel > 0 && p.request == map[]
    ensures ResolveParams(env, fuel, ShareRule(d), [Dep(d), Dep(rca)], [], [d], p)
         == Done([Obj(|p.heap|), Obj(|p.heap| + 1)], p.(heap := p.heap + NestedTail(d, rca, x, y), request := map[d := |p.heap|]))
  {
    var p2 := p.(heap := p.heap + [Bare(d)], request := p.request[d := |p.heap|]);
    NestedStores(d, rca, x, y, p);
    DParam(env, pra, d, rca, x, y, fuel, p);
    LiteralsParam(env, pra, d, rca, x, y, fuel, p2);
    ResolveTwo(env, fuel, ShareRule(d), Dep(d), Dep(rca), [d], p, Obj(|p.heap|), p2, Obj(|p.heap| + 1),
               p2.(heap := p2.heap + [LiteralsObject(rca, x, y)]));
  }

  /** What building `ParamRequiresArgs` in a new request leaves: it holds the two objects after it, and the request keeps the `D`. */
  function NestedMade(st: Store, pra: string, d: string, rca: string, x: string, y: string): Store {
    var n := |st.heap|;
    st.(heap := st.heap + ([Instance(pra, [Obj(n + 1), Obj(n + 2)], [])] + NestedTail(d, rca, x, y)), request := map[d := n + 1])
  }

  /** `ParamRequiresArgs`, once its parameters are resolved, receives them. */
  lemma {:induction false} NestedFill(pra: string, d: string, rca: string, x: string, y: string, st: Store)
    ensures var n := |st.heap|;
            var p := Prepare(st, pra, pra, false);
            Fill(p.(heap := p.heap + NestedTail(d, rca, x, y), request := map[d := n + 1]), n, [Obj(n + 1), Obj(n + 2)])
              == NestedMade(st, pra, d, rca, x, y)
  {
    var n := |st.heap|;
    var p := Prepare(st, pra, pra, false);
    assert Fill(p.(heap := p.heap + NestedTail(d, rca, x, y), request := map[d := n + 1]), n, [Obj(n + 1), Obj(n + 2)]).heap
        == st.heap + ([Instance(pra, [Obj(n + 1), Obj(n + 2)], [])] + NestedTail(d, rca, x, y));
  }

  /** Building `ParamRequiresArgs` in a new request: `$d` and `$a` are the two objects after it. */
  lemma {:induction false} NestedMake(env: Env, pra: string, d: string, rca: string, x: string, y: string, fuel: nat, st: Store)
    requires NestedEnv(env, pra, d, rca, x, y) && fuel > 1 && st.request == map[]
    ensures var n := |st.heap|;
            Make(env, fuel, pra, [], false, [], st) == Done(n, NestedMade(st, pra, d, rca, x, y))
  {
    var n := |st.heap|;
    var p := Prepare(st, pra, pra, false);
    var none: seq<string> := [];
    var noValues: seq<Value> := [];
    assert Prepare(st, pra, Normalize(pra), IsShared(ShareRule(d)) && !false) == p;
    assert none + ShareRule(d).shareInstances == [d];
    assert noValues + InertValues(ConstructParams(ShareRule(d))) == [];
    NestedParams(env, pra, d, rca, x, y, fuel - 1, p);
    NestedFill(pra, d, rca, x, y, st);
    MakeResolved(env, fuel, pra, noValues, false, none, st, ShareRule(d), pra, [Obj(n + 1), Obj(n + 2)],
                 p.(heap := p.heap + NestedTail(d, rca, x, y), request := map[d := n + 1]));
  }

  /** What `create('ParamRequiresArgs')` builds on an empty container, objects numbered from 0. */
  function NestedHeap(pra: string, d: string, rca: string, x: string, y: string): seq<Instance> {
    [Instance(pra, [Obj(1), Obj(2)], []), Bare(d), LiteralsObject(rca, x, y)]
  }

  /** Building `ParamRequiresArgs` in an empty store leaves that heap. */
  lemma {:induction false} NestedFromEmpty(pra: string, d: string, rca: string, x: string, y: string)
    ensures NestedMade(Start([], map[]), pra, d, rca, x, y) == Store(NestedHeap(pra, d, rca, x, y), map[], map[d := 1])
  {
    assert NestedMade(Start([], map[]), pra, d, rca, x, y).heap == NestedHeap(pra, d, rca, x, y);
  }

  /** `create('ParamRequiresArgs')` on an empty container whose classes are as `NestedEnv` describes. */
  lemma {:induction false} NestedCreateOn(k: Dice.Container, pra: string, d: string, rca: string, x: string, y: string, fuel: nat)
    requires NestedEnv(k.Env(), pra, d, rca, x, y) && k.heap == [] && k.singletons == map[] && fuel > 1
    ensures Dice.Create(k, fuel, pra, [], false) == Success(Dice.Created(0, k.(heap := NestedHeap(pra, d, rca, x, y))))
  {
    var st := Start([], map[]);
    var made := Store(NestedHeap(pra, d, rca, x, y), map[], map[d := 1]);
    assert Make(k.Env(), fuel, pra, [], false, [], st) == Done(0, made) by {
      NestedFromEmpty(pra, d, rca, x, y);
      NestedMake(k.Env(), pra, d, rca, x, y, fuel, st);
    }
    CreateFromMake(k, fuel, pra, [], false, 0, made);
  }

  /**
   * `testConstructParamsNested`: the literals on `RequiresConstructorArgsA`
   * reach it when it is built as `ParamRequiresArgs`'s `$a`, under a rule of
   * `ParamRequiresArgs` that shares `D`: `$obj->a->foo` is `x` and
   * `$obj->a->bar` is `y`.
   */
  lemma {:induction false} ConstructParamsNested(pra: string, d: string, rca: string, x: string, y: string, fuel: nat)
    requires NestedNames(pra, d, rca) && fuel > 1
    ensures var k := Dice.AddRule(Dice.AddRule(Dice.New(NestedUniverse(pra, d, rca)), rca, LiteralsRule(x, y)), pra, ShareRule(d));
            var k1 := k.(heap := NestedHeap(pra, d, rca, x, y));
            && Dice.Create(k, fuel, pra, [], false) == Success(Dice.Created(0, k1))
            && Dice.Arg(k1, 0, 1) == Some(Obj(2)) && Dice.InstanceOf(k1, 2, rca)
            && Dice.Arg(k1, 2, 0) == Some(Scalar(x)) && Dice.Arg(k1, 2, 1) == Some(Scalar(y))
  {
    var k := Dice.AddRule(Dice.AddRule(Dice.New(NestedUniverse(pra, d, rca)), rca, LiteralsRule(x, y)), pra, ShareRule(d));
    NestedEnvOf(pra, d, rca, x, y);
    NestedCreateOn(k, pra, d, rca, x, y, fuel);
    IsAReflexive(k.u, rca, rca);
  }
}
