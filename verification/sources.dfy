/**
 * Where the value of one constructor parameter comes from, described apart
 * from the graph builder: the sources a parameter can draw on, the order in
 * which it tries them, and what each supplies on its own. `ParamPrecedence`
 * shows the builder's parameter step is "the first source on offer".
 */
module Sources {
  import opened Wrappers
  import opened Identifiers
  import opened Arena
  import opened Classes
  import opened Rules
  import opened Matcher
  import opened Engine
  import opened Steps

  datatype Source =
    | FromPool        // an argument given at the call site or by `constructParams`
    | Substituted     // the rule's substitution for the declared class
    | RequestShared   // the instance shared within the current request
    | NewDependency   // a dependency built by the container
    | FromDefault     // the parameter's declared default
    | FromNull        // null, where the parameter allows it

  /** The order in which a parameter declared with a class tries its sources. */
  const TypedOrder: seq<Source> := [FromPool, Substituted, RequestShared, NewDependency]

  /** The order in which a parameter without a declared class tries its sources. */
  const UntypedOrder: seq<Source> := [FromPool, FromDefault, FromNull]

  function Order(p: Param): seq<Source> {
    if p.declared.Some? then TypedOrder else UntypedOrder
  }

  /** Whether source `s` has something to offer for `p`. */
  predicate Offers(env: Env, rule: Rule, p: Param, pool: seq<Value>, share: seq<string>, st: Store, s: Source) {
    match s
    case FromPool =>
      if p.declared.Some? then TakeTyped(env.u, st.heap, p.declared.value, p.nullable, pool).Some?
      else |pool| > 0
    case Substituted => p.declared.Some? && Substitution(rule, p.declared.value).Some?
    case RequestShared => p.declared.Some? && SharedKey(env, share, p.declared.value).Some?
    case NewDependency => p.declared.Some?
    case FromDefault => p.default.Some?
    case FromNull => p.nullable
  }

  /** The first source of `order` that offers something, and its position. */
  function FirstOffered(env: Env, rule: Rule, p: Param, pool: seq<Value>, share: seq<string>, st: Store,
                        order: seq<Source>): (r: Option<nat>)
    ensures r.None? <==> forall i :: 0 <= i < |order| ==> !Offers(env, rule, p, pool, share, st, order[i])
    ensures r.Some? ==> && r.value < |order| && Offers(env, rule, p, pool, share, st, order[r.value])
                        && forall j :: 0 <= j < r.value ==> !Offers(env, rule, p, pool, share, st, order[j])
  {
    FirstOfferedFrom(env, rule, p, pool, share, st, order, 0)
  }

  /** `FirstOffered` among the positions from `k` on. */
  function FirstOfferedFrom(env: Env, rule: Rule, p: Param, pool: seq<Value>, share: seq<string>, st: Store,
                            order: seq<Source>, k: nat): (r: Option<nat>)
    requires k <= |order|
    decreases |order| - k
    ensures r.None? <==> forall i :: k <= i < |order| ==> !Offers(env, rule, p, pool, share, st, order[i])
    ensures r.Some? ==> && k <= r.value < |order| && Offers(env, rule, p, pool, share, st, order[r.value])
                        && forall j :: k <= j < r.value ==> !Offers(env, rule, p, pool, share, st, order[j])
  {
    if k == |order| then None
    else if Offers(env, rule, p, pool, share, st, order[k]) then Some(k)
    else FirstOfferedFrom(env, rule, p, pool, share, st, order, k + 1)
  }

  /** A built object as a parameter value, with the pool left as it was. */
  function AsObject(step: Step<Ref>, pool: seq<Value>): Step<(Value, seq<Value>)> {
    match step
    case Failed(e) => Failed(e)
    case Done(r, st) => Done((Obj(r), pool), st)
  }

  /** What source `s` supplies for `p` when it is the one chosen. */
  function Supply(env: Env, fuel: nat, rule: Rule, p: Param, pool: seq<Value>, share: seq<string>, st: Store, s: Source)
    : Step<(Value, seq<Value>)>
    requires Offers(env, rule, p, pool, share, st, s)
  {
    match s
    case FromPool =>
      if p.declared.Some? then Done(TakeTyped(env.u, st.heap, p.declared.value, p.nullable, pool).value, st)
      else Done((pool[0], pool[1..]), st)
    case Substituted =>
      (match Expand(env, fuel, Substitution(rule, p.declared.value).value, share, st)
       case Failed(e) => Failed(e)
       case Done(v, st1) => Done((v, pool), st1))
    case RequestShared => AsObject(FromRequest(env, fuel, SharedKey(env, share, p.declared.value).value, st), pool)
    case NewDependency =>
      var t := p.declared.value;
      AsObject(Make(env, fuel, t, [], ForcesNew(rule, t), share, st), pool)
    case FromDefault => Done((p.default.value, pool), st)
    case FromNull => Done((Null, pool), st)
  }

  /** `FirstOffered` is position `k` when `k` offers and nothing before it does. */
  lemma {:induction false} FirstOfferedAt(env: Env, rule: Rule, p: Param, pool: seq<Value>, share: seq<string>, st: Store,
                                          order: seq<Source>, k: nat)
    requires k < |order| && Offers(env, rule, p, pool, share, st, order[k])
    requires forall j :: 0 <= j < k ==> !Offers(env, rule, p, pool, share, st, order[j])
    ensures FirstOffered(env, rule, p, pool, share, st, order) == Some(k)
  {
    var first := FirstOffered(env, rule, p, pool, share, st, order);
    assert first.Some?;
    assert !(first.value < k) && !(k < first.value);
  }

  /** `ParamPrecedence` for a parameter with a declared class. */
  lemma {:induction false} TypedPrecedence(env: Env, fuel: nat, rule: Rule, p: Param, pool: seq<Value>, share: seq<string>, st: Store)
    requires p.declared.Some?
    ensures var first := FirstOffered(env, rule, p, pool, share, st, TypedOrder);
            && first.Some?
            && ResolveParam(env, fuel, rule, p, pool, share, st) == Supply(env, fuel, rule, p, pool, share, st, TypedOrder[first.value])
  {
    var first := FirstOffered(env, rule, p, pool, share, st, TypedOrder);
    var res := ResolveParam(env, fuel, rule, p, pool, share, st);
    if Offers(env, rule, p, pool, share, st, FromPool) {
      assert first == Some(0) by {
        FirstOfferedAt(env, rule, p, pool, share, st, TypedOrder, 0);
      }
      assert res == Supply(env, fuel, rule, p, pool, share, st, FromPool) by {
        TypedFromPool(env, fuel, rule, p, pool, share, st);
      }
    } else if Offers(env, rule, p, pool, share, st, Substituted) {
      assert first == Some(1) by {
        FirstOfferedAt(env, rule, p, pool, share, st, TypedOrder, 1);
      }
      assert res == Supply(env, fuel, rule, p, pool, share, st, Substituted) by {
        TypedFromSubstitution(env, fuel, rule, p, pool, share, st);
      }
    } else if Offers(env, rule, p, pool, share, st, RequestShared) {
      assert first == Some(2) by {
        FirstOfferedAt(env, rule, p, pool, share, st, TypedOrder, 2);
      }
      assert res == Supply(env, fuel, rule, p, pool, share, st, RequestShared) by {
        TypedFromRequest(env, fuel, rule, p, pool, share, st);
      }
    } else {
      assert first == Some(3) by {
        FirstOfferedAt(env, rule, p, pool, share, st, TypedOrder, 3);
      }
      assert res == Supply(env, fuel, rule, p, pool, share, st, NewDependency) by {
        TypedFromCreate(env, fuel, rule, p, pool, share, st);
      }
    }
  }

  /** `ParamPrecedence` for a parameter without a declared class. */
  lemma {:induction false} UntypedPrecedence(env: Env, fuel: nat, rule: Rule, p: Param, pool: seq<Value>, share: seq<string>, st: Store)
    requires p.declared.None?
    ensures var first := FirstOffered(env, rule, p, pool, share, st, UntypedOrder);
            ResolveParam(env, fuel, rule, p, pool, share, st)
              == if first.None? then Failed(Unresolvable(p.name))
                 else Supply(env, fuel, rule, p, pool, share, st, UntypedOrder[first.value])
  {
    if |pool| > 0 {
      FirstOfferedAt(env, rule, p, pool, share, st, UntypedOrder, 0);
      UntypedFromPool(env, fuel, rule, p, pool, share, st);
    } else {
      UntypedFallback(env, fuel, rule, p, share, st);
      if p.default.Some? {
        FirstOfferedAt(env, rule, p, pool, share, st, UntypedOrder, 1);
      } else if p.nullable {
        FirstOfferedAt(env, rule, p, pool, share, st, UntypedOrder, 2);
      } else {
        assert forall i :: 0 <= i < |UntypedOrder| ==> !Offers(env, rule, p, pool, share, st, UntypedOrder[i]);
      }
    }
  }

  /**
   * Resolving a parameter is taking the first source on offer in its order;
   * with none on offer it is unresolvable. A parameter with a declared class
   * always has the new dependency on offer, so only an untyped one can be
   * unresolvable.
   */
  lemma {:induction false} ParamPrecedence(env: Env, fuel: nat, rule: Rule, p: Param, pool: seq<Value>, share: seq<string>, st: Store)
    ensures var first := FirstOffered(env, rule, p, pool, share, st, Order(p));
            ResolveParam(env, fuel, rule, p, pool, share, st)
              == if first.None? then Failed(Unresolvable(p.name))
                 else Supply(env, fuel, rule, p, pool, share, st, Order(p)[first.value])
    ensures p.declared.Some? ==> FirstOffered(env, rule, p, pool, share, st, Order(p)).Some?
  {
    if p.declared.Some? {
      TypedPrecedence(env, fuel, rule, p, pool, share, st);
    } else {
      UntypedPrecedence(env, fuel, rule, p, pool, share, st);
    }
  }

  /**
   * A dependency whose class the rule lists in `newInstances`, and whose own
   * rule has no factory `instanceOf`, is a new object, whatever instance of
   * that class is cached: no existing singleton is rebound, and none of
   * them is the new object.
   */
  lemma {:induction false} ForcedDependency(env: Env, fuel: nat, rule: Rule, p: Param, pool: seq<Value>, share: seq<string>, st: Store)
    requires p.declared.Some? && ForcesNew(rule, p.declared.value) && !ByFactory(RuleFor(env, p.declared.value))
    requires FirstOffered(env, rule, p, pool, share, st, Order(p)) == Some(3)
    requires Valid(st)
    ensures var res := ResolveParam(env, fuel, rule, p, pool, share, st);
            res.Done? ==>
              && res.v == (Obj(|st.heap|), pool)
              && |st.heap| < |res.st.heap| && res.st.heap[|st.heap|].cls == TargetClass(p.declared.value, RuleFor(env, p.declared.value))
              && forall k :: k in st.singletons ==> k in res.st.singletons && res.st.singletons[k] == st.singletons[k] != |st.heap|
  {
    ParamPrecedence(env, fuel, rule, p, pool, share, st);
    assert Order(p)[3] == NewDependency;
  }

  /**
   * The partner of `ForcedDependency`: a dependency whose class is not
   * listed in `newInstances`, under a shared rule with an instance cached,
   * is that instance, and nothing is built.
   */
  lemma {:induction false} SharedDependency(env: Env, fuel: nat, rule: Rule, p: Param, pool: seq<Value>, share: seq<string>, st: Store)
    requires p.declared.Some? && !ForcesNew(rule, p.declared.value)
    requires IsShared(RuleFor(env, p.declared.value)) && Normalize(p.declared.value) in st.singletons
    requires FirstOffered(env, rule, p, pool, share, st, Order(p)) == Some(3)
    ensures ResolveParam(env, fuel, rule, p, pool, share, st)
         == Done((Obj(st.singletons[Normalize(p.declared.value)]), pool), st)
  {
    ParamPrecedence(env, fuel, rule, p, pool, share, st);
    assert Order(p)[3] == NewDependency;
  }

  /** The description that stands for value `v`: a literal, `null`, or the object itself. */
  function Describe(v: Value): ValueSpec {
    match v
    case Scalar(s) => Literal(s)
    case Null => NullLiteral
    case Obj(r) => Prebuilt(r)
  }

  /** Whether every object among `vs` exists in `st`. */
  predicate Present(vs: seq<Value>, st: Store) {
    forall i :: 0 <= i < |vs| ==> vs[i].Obj? ==> vs[i].ref < |st.heap|
  }

  /**
   * Expansion inverts `Describe`: a list of descriptions of existing values
   * expands back to those values, in order, and builds nothing. A
   * description of an object that does not exist is an error.
   */
  lemma {:induction false} DescribeRoundTrip(env: Env, fuel: nat, vs: seq<Value>, share: seq<string>, st: Store)
    requires Present(vs, st)
    ensures ExpandAll(env, fuel, seq(|vs|, i requires 0 <= i < |vs| => Describe(vs[i])), share, st) == Done(vs, st)
    ensures forall r: Ref :: |st.heap| <= r ==> Expand(env, fuel, Prebuilt(r), share, st) == Failed(DanglingRef(r))
    decreases |vs|
  {
    var specs := seq(|vs|, i requires 0 <= i < |vs| => Describe(vs[i]));
    if |vs| > 0 {
      assert Expand(env, fuel, specs[0], share, st) == Done(vs[0], st);
      assert specs[1..] == seq(|vs[1..]|, i requires 0 <= i < |vs[1..]| => Describe(vs[1..][i]));
      DescribeRoundTrip(env, fuel, vs[1..], share, st);
      ExpandAllCons(env, fuel, specs, share, st, vs[0], st, vs[1..], st);
      assert [vs[0]] + vs[1..] == vs;
    }
  }

  /** `['instance' => x]` under a shared rule whose instance exists is that instance, and nothing changes. */
  lemma {:induction false} ExpandSharedInstance(env: Env, fuel: nat, x: string, share: seq<string>, st: Store)
    requires IsShared(RuleFor(env, x)) && Normalize(x) in st.singletons
    ensures Expand(env, fuel, InstanceRef(x), share, st) == Done(Obj(st.singletons[Normalize(x)]), st)
  {
  }

  /**
   * `['instance' => x]` under a rule that builds a class: an undeclared
   * class is an error naming it; otherwise the value is a new object of
   * that class at the end of the arena, with one argument per constructor
   * parameter, and cached under `x` when the rule is shared.
   */
  lemma {:induction false} ExpandNewInstance(env: Env, fuel: nat, x: string, share: seq<string>, st: Store)
    requires fuel > 0 && !ByFactory(RuleFor(env, x))
    requires !(IsShared(RuleFor(env, x)) && Normalize(x) in st.singletons)
    ensures var cls := TargetClass(x, RuleFor(env, x));
            var res := Expand(env, fuel, InstanceRef(x), share, st);
            && (cls !in env.u ==> res == Failed(UnknownClass(cls)))
            && (res.Done? ==>
                  && cls in env.u && res.v == Obj(|st.heap|) && Grows(st, res.st) && |st.heap| < |res.st.heap|
                  && res.st.heap[|st.heap|].cls == cls && |res.st.heap[|st.heap|].args| == |env.u[cls].params|
                  && (IsShared(RuleFor(env, x)) ==> res.st.singletons[Normalize(x)] == |st.heap|))
  {
    var rule := RuleFor(env, x);
    var cls := TargetClass(x, rule);
    if cls in env.u {
      MakeToBuild(env, fuel, x, [], false, share, st, rule, cls);
    }
  }

  /**
   * A callback is what it returns: a closure that builds gives a new object
   * of its class, appended to the arena with nothing cached; a closure that
   * returns a fixed object is that object, exactly as the object itself would be.
   */
  lemma {:induction false} ExpandCallback(env: Env, fuel: nat, f: Factory, share: seq<string>, st: Store)
    ensures f.Fresh? ==>
              Expand(env, fuel, Callback(f), share, st)
                == Done(Obj(|st.heap|), st.(heap := st.heap + [Instance(Normalize(f.cls), [], [])]))
    ensures f.Fixed? ==> Expand(env, fuel, Callback(f), share, st) == Expand(env, fuel, Prebuilt(f.ref), share, st)
  {
  }

  /** A scope that names a server of `t` keeps naming the same first server when more entries follow. */
  lemma {:induction false} SharedKeyPrefix(env: Env, share: seq<string>, more: seq<string>, t: string)
    requires SharedKey(env, share, t).Some?
    ensures SharedKey(env, share + more, t) == SharedKey(env, share, t)
    decreases |share|
  {
    if SharesFor(env, share[0], t) {
      SharedKeyHead(env, share, more, t);
    } else {
      SharedKeyTail(env, share, more, t);
      SharedKeyPrefix(env, share[1..], more, t);
    }
  }

  lemma SharedKeyHead(env: Env, share: seq<string>, more: seq<string>, t: string)
    requires |share| > 0 && SharesFor(env, share[0], t)
    ensures SharedKey(env, share + more, t) == SharedKey(env, share, t) == Some(share[0])
  {
    assert (share + more)[0] == share[0];
  }

  lemma SharedKeyTail(env: Env, share: seq<string>, more: seq<string>, t: string)
    requires |share| > 0 && !SharesFor(env, share[0], t)
    ensures SharedKey(env, share, t) == SharedKey(env, share[1..], t)
    ensures SharedKey(env, share + more, t) == SharedKey(env, share[1..] + more, t)
  {
    assert (share + more)[0] == share[0];
    assert (share + more)[1..] == share[1..] + more;
  }

  /**
   * Object `r`, completed without a pool, is complete only when its first
   * parameter resolves; its first argument is then that parameter's value,
   * and the store of that resolution is kept.
   */
  lemma {:induction false} WireFirst(env: Env, fuel: nat, r: Ref, cls: string, rule: Rule, share: seq<string>, st: Store)
    requires cls in env.u && r < |st.heap| && |env.u[cls].params| > 0 && ConstructParams(rule) == []
    ensures var first := ResolveParam(env, fuel, rule, env.u[cls].params[0], [], share, st);
            var res := Wire(env, fuel, r, cls, rule, [], share, st);
            res.Done? ==> first.Done? && GrowsBeside(first.st, res.st, r) && res.st.heap[r].args[0] == first.v.0
  {
    var ps := env.u[cls].params;
    var nil: seq<Value> := [];
    assert ExpandAll(env, fuel, ConstructParams(rule), share, st) == Done(nil, st);
    assert nil + nil == nil;
    var first := ResolveParam(env, fuel, rule, ps[0], [], share, st);
    var all := ResolveParams(env, fuel, rule, ps, [], share, st);
    if first.Done? {
      ResolveParamsStep(env, fuel, rule, ps, [], share, st, first.v.0, first.v.1, first.st);
      if all.Done? {
        assert all.v[0] == first.v.0 && Grows(first.st, all.st);
        GrowsThenFill(first.st, all.st, r, all.v);
      }
    } else {
      assert all.Failed?;
    }
  }

  /**
   * Object `r`, completed without a pool under a rule with no substitution
   * for its first parameter's type `t`, which a scope entry serves: its
   * first argument is the instance the request shares under that entry's
   * normal form `shared`.
   */
  lemma {:induction false} WireFromRequest(env: Env, fuel: nat, r: Ref, cls: string, rule: Rule, scope: seq<string>, st: Store,
                                           t: string, shared: string)
    requires cls in env.u && r < |st.heap| && ConstructParams(rule) == []
    requires |env.u[cls].params| > 0 && env.u[cls].params[0].declared == Some(t)
    requires Substitution(rule, t).None?
    requires SharedKey(env, scope, t).Some? && shared == Normalize(SharedKey(env, scope, t).value)
    ensures var res := Wire(env, fuel, r, cls, rule, [], scope, st);
            res.Done? ==>
              && shared in res.st.request && |res.st.heap[r].args| > 0
              && res.st.heap[r].args[0] == Obj(res.st.request[shared])
              && (shared in st.request ==> res.st.request[shared] == st.request[shared])
  {
    var p := env.u[cls].params[0];
    assert TakeTyped(env.u, st.heap, t, p.nullable, []).None?;
    TypedFromRequest(env, fuel, rule, p, [], scope, st);
    WireFirst(env, fuel, r, cls, rule, scope, st);
  }

  /** `WireFromRequest` for a new object of `cls`, built within scope `share`. */
  lemma {:induction false} BuildFromRequest(env: Env, fuel: nat, key: string, cls: string, rule: Rule, cacheable: bool,
                                            share: seq<string>, st: Store, t: string, shared: string, r: Ref, st': Store)
    requires cls in env.u && (cacheable ==> key !in st.singletons) && ConstructParams(rule) == []
    requires |env.u[cls].params| > 0 && env.u[cls].params[0].declared == Some(t)
    requires Substitution(rule, t).None?
    requires SharedKey(env, share, t).Some? && shared == Normalize(SharedKey(env, share, t).value)
    ensures Build(env, fuel, key, cls, rule, [], cacheable, share, st) == Done(r, st') ==>
              && r == |st.heap| < |st'.heap| && shared in st'.request
              && |st'.heap[|st.heap|].args| > 0 && st'.heap[|st.heap|].args[0] == Obj(st'.request[shared])
              && (shared in st.request ==> st'.request[shared] == st.request[shared])
  {
    if Build(env, fuel, key, cls, rule, [], cacheable, share, st) == Done(r, st') {
      var scope := share + rule.shareInstances;
      SharedKeyPrefix(env, share, rule.shareInstances, t);
      BuildToWire(env, fuel, key, cls, rule, [], cacheable, share, st);
      WireFromRequest(env, fuel, |st.heap|, cls, rule, scope, Prepare(st, cls, key, cacheable), t, shared);
    }
  }

  /**
   * The identifiers shared within a request reach the objects that value
   * descriptions build: when `['instance' => x]` builds a class whose first
   * parameter has type `t`, nothing earlier supplies it, and a scope entry
   * serves `t`, that parameter is the instance the request shares under the
   * first such entry's normal form `shared`, the one already shared if
   * there is one.
   */
  lemma {:induction false} ExpandShareReaches(env: Env, fuel: nat, x: string, share: seq<string>, st: Store, t: string,
                                              shared: string, v: Value, st': Store)
    requires fuel > 0 && !ByFactory(RuleFor(env, x)) && ConstructParams(RuleFor(env, x)) == []
    requires !(IsShared(RuleFor(env, x)) && Normalize(x) in st.singletons)
    requires TargetClass(x, RuleFor(env, x)) in env.u
    requires |env.u[TargetClass(x, RuleFor(env, x))].params| > 0
    requires env.u[TargetClass(x, RuleFor(env, x))].params[0].declared == Some(t)
    requires Substitution(RuleFor(env, x), t).None?
    requires SharedKey(env, share, t).Some? && shared == Normalize(SharedKey(env, share, t).value)
    requires Expand(env, fuel, InstanceRef(x), share, st) == Done(v, st')
    ensures && v == Obj(|st.heap|) && |st.heap| < |st'.heap| && shared in st'.request
            && |st'.heap[|st.heap|].args| > 0 && st'.heap[|st.heap|].args[0] == Obj(st'.request[shared])
            && (shared in st.request ==> st'.request[shared] == st.request[shared])
  {
    var rule := RuleFor(env, x);
    var cls := TargetClass(x, rule);
    var made := Make(env, fuel, x, [], false, share, st);
    ExpandIsMake(env, fuel, x, share, st);
    assert made == Done(made.v, st') && v == Obj(made.v);
    MakeFromRequest(env, fuel - 1, x, share, st, t, shared, rule, cls, made.v, st');
  }

  /** `BuildFromRequest` for `create(x)` without arguments, with `fuel + 1` to spend. */
  lemma {:induction false} MakeFromRequest(env: Env, fuel: nat, x: string, share: seq<string>, st: Store, t: string, shared: string,
                                           rule: Rule, cls: string, r: Ref, st': Store)
    requires rule == RuleFor(env, x) && cls == TargetClass(x, rule) && cls in env.u
    requires !ByFactory(rule) && ConstructParams(rule) == [] && !(IsShared(rule) && Normalize(x) in st.singletons)
    requires |env.u[cls].params| > 0 && env.u[cls].params[0].declared == Some(t)
    requires Substitution(rule, t).None?
    requires SharedKey(env, share, t).Some? && shared == Normalize(SharedKey(env, share, t).value)
    requires Make(env, fuel + 1, x, [], false, share, st) == Done(r, st')
    ensures && r == |st.heap| < |st'.heap| && shared in st'.request
            && |st'.heap[|st.heap|].args| > 0 && st'.heap[|st.heap|].args[0] == Obj(st'.request[shared])
            && (shared in st.request ==> st'.request[shared] == st.request[shared])
  {
    MakeToBuild(env, fuel + 1, x, [], false, share, st, rule, cls);
    BuildFromRequest(env, fuel, Normalize(x), cls, rule, IsShared(rule) && !false, share, st, t, shared, r, st');
  }

  /** `['instance' => x]` is the object `create(x)` makes, and fails as it does. */
  lemma ExpandIsMake(env: Env, fuel: nat, x: string, share: seq<string>, st: Store)
    ensures var made := Make(env, fuel, x, [], false, share, st);
            var res := Expand(env, fuel, InstanceRef(x), share, st);
            && (res.Done? <==> made.Done?)
            && (res.Done? ==> res.v == Obj(made.v) && res.st == made.st)
  {
  }
}
