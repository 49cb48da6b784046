/**
 * The graph builder: `create` resolves an identifier to a rule, builds the
 * concrete class, and resolves each constructor parameter in turn, recursing
 * into dependencies. The store is threaded through every step so that object
 * identity, the global singleton cache and the per-request shared map are
 * explicit. Recursion is bounded by `fuel`; running out is reported as an
 * error, never as a result.
 */
module Engine {
  import opened Wrappers
  import opened Identifiers
  import opened Arena
  import opened Classes
  import opened Rules
  import opened Matcher

  /** What `create` consults but never changes: the classes and the rules. */
  datatype Env = Env(u: Universe, rules: RuleStore)

  datatype Error =
    | UnknownClass(name: string)
    | Unresolvable(param: string)
    | DanglingRef(ref: Ref)
    | OutOfFuel

  /** The outcome of one step of construction: a value and the store after it, or an error. */
  datatype Step<+T> = Done(v: T, st: Store) | Failed(error: Error)

  function RuleFor(env: Env, id: string): Rule {
    GetRule(env.u, env.rules, id)
  }

  /** Whether the rule hands construction to a factory. */
  predicate ByFactory(rule: Rule) {
    rule.instanceOf.Some? && rule.instanceOf.value.FactoryTarget?
  }

  /** The class built for `id`: the one `instanceOf` names, else `id` itself. */
  function TargetClass(id: string, rule: Rule): string {
    match rule.instanceOf
    case Some(ClassTarget(c)) => Normalize(c)
    case _ => Normalize(id)
  }

  /** Whether the shared-instance entry `k` builds objects that a parameter of type `t` accepts. */
  predicate SharesFor(env: Env, k: string, t: string) {
    var rule := RuleFor(env, k);
    !ByFactory(rule) && IsA(env.u, TargetClass(k, rule), t)
  }

  /** The first shared-instance entry in scope that serves type `t`. */
  function SharedKey(env: Env, share: seq<string>, t: string): (r: Option<string>)
    ensures r.None? <==> forall i :: 0 <= i < |share| ==> !SharesFor(env, share[i], t)
    ensures r.Some? ==> exists i :: 0 <= i < |share| && share[i] == r.value && SharesFor(env, r.value, t)
                                    && forall j :: 0 <= j < i ==> !SharesFor(env, share[j], t)
  {
    if |share| == 0 then None
    else if SharesFor(env, share[0], t) then Some(share[0])
    else
      var rest := SharedKey(env, share[1..], t);
      SharedKeyShift(env, share, t, rest);
      rest
  }

  /** What `SharedKey` promises of the tail of the scope, it promises of the scope when the head does not serve. */
  lemma SharedKeyShift(env: Env, share: seq<string>, t: string, r: Option<string>)
    requires |share| > 0 && !SharesFor(env, share[0], t)
    requires r.None? <==> forall i :: 0 <= i < |share[1..]| ==> !SharesFor(env, share[1..][i], t)
    requires r.Some? ==> exists i :: 0 <= i < |share[1..]| && share[1..][i] == r.value && SharesFor(env, r.value, t)
                                     && forall j :: 0 <= j < i ==> !SharesFor(env, share[1..][j], t)
    ensures r.None? <==> forall i :: 0 <= i < |share| ==> !SharesFor(env, share[i], t)
    ensures r.Some? ==> exists i :: 0 <= i < |share| && share[i] == r.value && SharesFor(env, r.value, t)
                                    && forall j :: 0 <= j < i ==> !SharesFor(env, share[j], t)
  {
    assert forall j :: 1 <= j < |share| ==> share[j] == share[1..][j - 1];
    if r.Some? {
      var i :| 0 <= i < |share[1..]| && share[1..][i] == r.value && SharesFor(env, r.value, t)
               && forall j :: 0 <= j < i ==> !SharesFor(env, share[1..][j], t);
      assert share[i + 1] == r.value;
    } else {
      forall i | 0 <= i < |share|
        ensures !SharesFor(env, share[i], t)
      {
        if i > 0 { assert share[i] == share[1..][i - 1]; }
      }
    }
  }

  function ConstructParams(rule: Rule): seq<ValueSpec> {
    rule.constructParams.GetOr([])
  }

  function Calls(rule: Rule): seq<CallSpec> {
    rule.call.GetOr([])
  }

  /** Runs a closure. */
  function RunFactory(f: Factory, st: Store): (res: Step<Ref>)
    ensures res.Done? ==> Grows(st, res.st) && res.v < |res.st.heap|
    ensures res.Done? && Valid(st) ==> Valid(res.st)
    ensures res.Done? && f.Fresh? ==> res.v == |st.heap| && res.st.heap[res.v].cls == Normalize(f.cls)
    ensures f.Fixed? ==> (res.Done? <==> f.ref < |st.heap|)
  {
    match f
    case Fresh(cls) =>
      var (r, st1) := Alloc(st, Normalize(cls));
      Done(r, st1)
    case Fixed(r) =>
      if r < |st.heap| then Done(r, st) else Failed(DanglingRef(r))
  }

  /**
   * `create`: the instance for `id`, built with call-site arguments `args`.
   * A shared rule returns the cached instance, unless `forceNew`. The
   * identifiers in `share` are shared within the current request.
   */
  function Make(env: Env, fuel: nat, id: string, args: seq<Value>, forceNew: bool, share: seq<string>, st: Store): (res: Step<Ref>)
    decreases fuel, 0, 0
    ensures res.Done? ==> Grows(st, res.st)
    ensures res.Done? && Valid(st) ==> Valid(res.st) && res.v < |res.st.heap|
    ensures res.Done? && IsShared(RuleFor(env, id)) && !forceNew ==>
              Normalize(id) in res.st.singletons && res.st.singletons[Normalize(id)] == res.v
    ensures res.Done? && (forceNew || !IsShared(RuleFor(env, id))) && !ByFactory(RuleFor(env, id)) ==>
              && res.v == |st.heap| < |res.st.heap|
              && TargetClass(id, RuleFor(env, id)) in env.u
              && res.st.heap[res.v].cls == TargetClass(id, RuleFor(env, id))
              && |res.st.heap[res.v].args| == |env.u[TargetClass(id, RuleFor(env, id))].params|
  {
    var n := Normalize(id);
    var rule := RuleFor(env, id);
    var cacheable := IsShared(rule) && !forceNew;
    if cacheable && n in st.singletons then Done(st.singletons[n], st)
    else if fuel == 0 then Failed(OutOfFuel)
    else if ByFactory(rule) then
      match RunFactory(rule.instanceOf.value.factory, st)
      case Failed(e) => Failed(e)
      case Done(r, st1) => Done(r, if cacheable then Cache(st1, n, r) else st1)
    else if TargetClass(id, rule) !in env.u then Failed(UnknownClass(TargetClass(id, rule)))
    else Build(env, fuel - 1, n, TargetClass(id, rule), rule, args, cacheable, share, st)
  }

  /** Records `r` as the singleton for `key`. */
  function Cache(st: Store, key: string, r: Ref): (st': Store)
    requires key !in st.singletons
    ensures Grows(st, st') && key in st'.singletons && st'.singletons[key] == r
    ensures Valid(st) && r < |st.heap| ==> Valid(st')
  {
    st.(singletons := st.singletons[key := r])
  }

  /**
   * Builds a new object of class `cls`. When `cacheable`, the object is cached
   * under `key` before any dependency is resolved, so that a cycle through it
   * ends at the cache and sees this very object.
   */
  function Build(env: Env, fuel: nat, key: string, cls: string, rule: Rule, args: seq<Value>,
                 cacheable: bool, share: seq<string>, st: Store): (res: Step<Ref>)
    requires cls in env.u
    requires cacheable ==> key !in st.singletons
    decreases fuel, 5, 0
    ensures res.Done? ==> res.v == |st.heap| < |res.st.heap| && Grows(st, res.st)
    ensures res.Done? ==> res.st.heap[res.v].cls == cls && |res.st.heap[res.v].args| == |env.u[cls].params|
    ensures res.Done? && cacheable ==> key in res.st.singletons && res.st.singletons[key] == res.v
    ensures res.Done? && Valid(st) ==> Valid(res.st)
  {
    var st1 := Prepare(st, cls, key, cacheable);
    match Wire(env, fuel, |st.heap|, cls, rule, args, share + rule.shareInstances, st1)
    case Failed(e) => Failed(e)
    case Done(r, st') =>
      AllocThenBeside(st, st1, st');
      Done(r, st')
  }

  /** The store once a new object of `cls` is allocated and, when `cacheable`, cached under `key`. */
  function Prepare(st: Store, cls: string, key: string, cacheable: bool): (st': Store)
    requires cacheable ==> key !in st.singletons
    ensures |st'.heap| == |st.heap| + 1 && st'.heap[|st.heap|] == Instance(cls, [], []) && Grows(st, st')
    ensures cacheable ==> key in st'.singletons && st'.singletons[key] == |st.heap|
    ensures !cacheable ==> st'.singletons == st.singletons
    ensures st'.request == st.request
    ensures Valid(st) ==> Valid(st')
  {
    var (r, st1) := Alloc(st, cls);
    if cacheable then Cache(st1, key, r) else st1
  }

  /**
   * Completes object `r` of class `cls`: resolves its constructor parameters
   * from the pool of call-site arguments followed by the rule's
   * `constructParams`, stores them, then makes the rule's `call`s.
   */
  function Wire(env: Env, fuel: nat, r: Ref, cls: string, rule: Rule, args: seq<Value>, share: seq<string>, st: Store)
    : (res: Step<Ref>)
    requires cls in env.u && r < |st.heap|
    decreases fuel, 4, 0
    ensures res.Done? ==> res.v == r && GrowsBeside(st, res.st, r)
    ensures res.Done? ==> |res.st.heap[r].args| == |env.u[cls].params|
    ensures res.Done? && Valid(st) ==> Valid(res.st)
  {
    match ExpandAll(env, fuel, ConstructParams(rule), share, st)
    case Failed(e) => Failed(e)
    case Done(fixed, st1) =>
      match ResolveParams(env, fuel, rule, env.u[cls].params, args + fixed, share, st1)
      case Failed(e) => Failed(e)
      case Done(vals, st2) =>
        var st3 := Fill(st2, r, vals);
        GrowsTransitive(st, st1, st2);
        GrowsThenFill(st, st2, r, vals);
        match RunCalls(env, fuel, r, Calls(rule), share, st3)
        case Failed(e) => Failed(e)
        case Done(r', st4) =>
          GrowsBesideTransitive(st, st3, st4, r);
          Done(r', st4)
  }

  /** The value a rule describes. */
  function Expand(env: Env, fuel: nat, spec: ValueSpec, share: seq<string>, st: Store): (res: Step<Value>)
    decreases fuel, 1, 0
    ensures res.Done? ==> Grows(st, res.st)
    ensures res.Done? && Valid(st) ==> Valid(res.st)
  {
    match spec
    case Literal(s) => Done(Scalar(s), st)
    case NullLiteral => Done(Null, st)
    case InstanceRef(x) =>
      (match Make(env, fuel, x, [], false, share, st)
       case Failed(e) => Failed(e)
       case Done(r, st1) => Done(Obj(r), st1))
    case Callback(f) =>
      (match RunFactory(f, st)
       case Failed(e) => Failed(e)
       case Done(r, st1) => Done(Obj(r), st1))
    case Prebuilt(r) =>
      if r < |st.heap| then Done(Obj(r), st) else Failed(DanglingRef(r))
  }

  /** The values of a list of descriptions, left to right. */
  function ExpandAll(env: Env, fuel: nat, specs: seq<ValueSpec>, share: seq<string>, st: Store): (res: Step<seq<Value>>)
    decreases fuel, 2, |specs|
    ensures res.Done? ==> Grows(st, res.st) && |res.v| == |specs|
    ensures res.Done? && Valid(st) ==> Valid(res.st)
  {
    if |specs| == 0 then Done([], st)
    else
      match Expand(env, fuel, specs[0], share, st)
      case Failed(e) => Failed(e)
      case Done(v, st1) =>
        match ExpandAll(env, fuel, specs[1..], share, st1)
        case Failed(e) => Failed(e)
        case Done(vs, st2) => Done([v] + vs, st2)
  }

  /** A parameter with nothing else to go on: its default, else null when allowed. */
  function Fallback(p: Param, pool: seq<Value>, st: Store): Step<(Value, seq<Value>)> {
    if p.default.Some? then Done((p.default.value, pool), st)
    else if p.nullable then Done((Null, pool), st)
    else Failed(Unresolvable(p.name))
  }

  /**
   * One constructor parameter, with the pool that remains. An untyped
   * parameter takes the next pool entry, else its default, else null when it
   * allows null.
   */
  function ResolveParam(env: Env, fuel: nat, rule: Rule, p: Param, pool: seq<Value>, share: seq<string>, st: Store)
    : (res: Step<(Value, seq<Value>)>)
    decreases fuel, 2, 1
    ensures res.Done? ==> Grows(st, res.st) && |res.v.1| <= |pool|
    ensures res.Done? && Valid(st) ==> Valid(res.st)
  {
    match p.declared
    case None =>
      (match TakeNext(pool)
       case Some((v, rest)) => Done((v, rest), st)
       case None => Fallback(p, pool, st))
    case Some(t) => ResolveTyped(env, fuel, rule, p, t, pool, share, st)
  }

  /**
   * A parameter declared as class `t` tries, in order: an accepted pool
   * entry, the rule's substitution for `t`, a request-shared instance, and
   * else it is a new dependency, whose failure (an undeclared class, say) is
   * the failure of the parameter: no default or null masks it.
   */
  function ResolveTyped(env: Env, fuel: nat, rule: Rule, p: Param, t: string, pool: seq<Value>, share: seq<string>, st: Store)
    : (res: Step<(Value, seq<Value>)>)
    decreases fuel, 2, 0
    ensures res.Done? ==> Grows(st, res.st) && |res.v.1| <= |pool|
    ensures res.Done? && Valid(st) ==> Valid(res.st)
  {
    match TakeTyped(env.u, st.heap, t, p.nullable, pool)
    case Some((v, rest)) => Done((v, rest), st)
    case None =>
      match Substitution(rule, t)
      case Some(spec) =>
        (match Expand(env, fuel, spec, share, st)
         case Failed(e) => Failed(e)
         case Done(v, st1) => Done((v, pool), st1))
      case None =>
        match SharedKey(env, share, t)
        case Some(k) =>
          (match FromRequest(env, fuel, k, st)
           case Failed(e) => Failed(e)
           case Done(r, st1) => Done((Obj(r), pool), st1))
        case None =>
          match Make(env, fuel, t, [], ForcesNew(rule, t), share, st)
          case Failed(e) => Failed(e)
          case Done(r, st1) => Done((Obj(r), pool), st1)
  }

  /**
   * The request-shared instance for `k`: the one already made in this
   * request, else a new one, which is then kept for the rest of the request.
   */
  function FromRequest(env: Env, fuel: nat, k: string, st: Store): (res: Step<Ref>)
    decreases fuel, 1, 0
    ensures res.Done? ==> Grows(st, res.st)
    ensures res.Done? ==> Normalize(k) in res.st.request && res.st.request[Normalize(k)] == res.v
    ensures res.Done? && Valid(st) ==> Valid(res.st)
  {
    var key := Normalize(k);
    if key in st.request then Done(st.request[key], st)
    else
      match Make(env, fuel, k, [], false, [], st)
      case Failed(e) => Failed(e)
      case Done(r, st1) =>
        if key in st1.request then Done(st1.request[key], st1)
        else Done(r, st1.(request := st1.request[key := r]))
  }

  /** All constructor parameters, in order, drawing on one pool. */
  function ResolveParams(env: Env, fuel: nat, rule: Rule, ps: seq<Param>, pool: seq<Value>, share: seq<string>, st: Store)
    : (res: Step<seq<Value>>)
    decreases fuel, 3, |ps|
    ensures res.Done? ==> Grows(st, res.st) && |res.v| == |ps|
    ensures res.Done? && Valid(st) ==> Valid(res.st)
  {
    if |ps| == 0 then Done([], st)
    else
      match ResolveParam(env, fuel, rule, ps[0], pool, share, st)
      case Failed(e) => Failed(e)
      case Done((v, rest), st1) =>
        match ResolveParams(env, fuel, rule, ps[1..], rest, share, st1)
        case Failed(e) => Failed(e)
        case Done(vs, st2) => Done([v] + vs, st2)
  }

  /** The post-construction calls, in declared order, recorded on object `r`. */
  function RunCalls(env: Env, fuel: nat, r: Ref, calls: seq<CallSpec>, share: seq<string>, st: Store): (res: Step<Ref>)
    requires r < |st.heap|
    decreases fuel, 3, |calls|
    ensures res.Done? ==> res.v == r && GrowsBeside(st, res.st, r)
    ensures res.Done? ==> res.st.heap[r].args == st.heap[r].args
    ensures res.Done? ==> |res.st.heap[r].calls| == |st.heap[r].calls| + |calls|
    ensures res.Done? && Valid(st) ==> Valid(res.st)
  {
    if |calls| == 0 then Done(r, st)
    else
      match ExpandAll(env, fuel, calls[0].args, share, st)
      case Failed(e) => Failed(e)
      case Done(vals, st1) =>
        RunCalls(env, fuel, r, calls[1..], share, Log(st1, r, Invocation(calls[0].name, vals)))
  }
}
