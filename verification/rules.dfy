/**
 * The rule store. A rule is a record of optional fields that tells the
 * container how to build the instances resolved under one identifier. Rules
 * are registered under normalised identifiers and combined on every lookup:
 * the wildcard rule `*`, then the rule of the nearest ancestor or interface,
 * then the rule registered for the identifier itself, each layer overriding
 * the one before.
 */
module Rules {
  import opened Wrappers
  import opened Identifiers
  import opened Arena
  import opened Classes

  /** A closure: builds a fresh object of a class, or returns one fixed object. */
  datatype Factory = Fresh(cls: string) | Fixed(ref: Ref)

  /** How a rule describes one argument value. */
  datatype ValueSpec =
    | Literal(text: string)
    | NullLiteral
    | InstanceRef(id: string)
    | Callback(factory: Factory)
    | Prebuilt(ref: Ref)

  /** What `instanceOf` names: a class or virtual rule, or a factory. */
  datatype Target = ClassTarget(name: string) | FactoryTarget(factory: Factory)

  /** One entry of `call`: a method name and its argument descriptions. */
  datatype CallSpec = CallSpec(name: string, args: seq<ValueSpec>)

  /**
   * The fields of a rule. Scalar fields and ordered lists are `Option`s, so an
   * unset field is distinct from an explicitly empty one. Substitutions are an
   * ordered association list, like the array they come from.
   */
  datatype Rule = Rule(
    shared: Option<bool>,
    instanceOf: Option<Target>,
    constructParams: Option<seq<ValueSpec>>,
    substitutions: seq<(string, ValueSpec)>,
    shareInstances: seq<string>,
    newInstances: seq<string>,
    call: Option<seq<CallSpec>>)

  /** The rule with no field set. */
  const NoRule: Rule := Rule(None, None, None, [], [], [], None)

  function Prefer<T>(base: Option<T>, over: Option<T>): Option<T> {
    if over.Some? then over else base
  }

  /**
   * A list keyed by position laid over another: each position `over` has is
   * taken from `over`, each further position of `base` is kept.
   */
  function Overlay<T>(base: seq<T>, over: seq<T>): (r: seq<T>)
    ensures |r| == if |over| < |base| then |base| else |over|
    ensures forall i :: 0 <= i < |over| ==> r[i] == over[i]
    ensures forall i :: |over| <= i < |base| ==> r[i] == base[i]
  {
    if |over| < |base| then over + base[|over|..] else over
  }

  /** A list field of `over` laid over that of `base` when both are set; else whichever is set. */
  function MergeList<T>(base: Option<seq<T>>, over: Option<seq<T>>): Option<seq<T>> {
    if base.Some? && over.Some? then Some(Overlay(base.value, over.value)) else Prefer(base, over)
  }

  /**
   * `over` layered on `base`: a set scalar field of `over` replaces the one of
   * `base`; the positional lists are overlaid entry by entry; the keyed
   * collections are combined, entries of `over` first, so that on the same
   * key the entry of `over` is the one found.
   */
  function Merge(base: Rule, over: Rule): Rule {
    Rule(
      Prefer(base.shared, over.shared),
      Prefer(base.instanceOf, over.instanceOf),
      MergeList(base.constructParams, over.constructParams),
      over.substitutions + base.substitutions,
      over.shareInstances + base.shareInstances,
      over.newInstances + base.newInstances,
      MergeList(base.call, over.call))
  }

  predicate IsShared(rule: Rule) {
    rule.shared == Some(true)
  }

  /** Whether a substitution entry is keyed by `key` up to normalisation. */
  predicate KeyedBy(entry: (string, ValueSpec), key: string) {
    Normalize(entry.0) == Normalize(key)
  }

  /** The position of the first substitution keyed by `key`. */
  function FirstKeyed(entries: seq<(string, ValueSpec)>, key: string): (r: Option<nat>)
    ensures r.None? <==> forall i :: 0 <= i < |entries| ==> !KeyedBy(entries[i], key)
    ensures r.Some? ==> r.value < |entries| && KeyedBy(entries[r.value], key)
                        && forall j :: 0 <= j < r.value ==> !KeyedBy(entries[j], key)
  {
    if |entries| == 0 then None
    else if KeyedBy(entries[0], key) then Some(0)
    else match FirstKeyed(entries[1..], key)
      case None => None
      case Some(i) => Some(i + 1)
  }

  /** The substitution a rule declares for the declared type `t`. */
  function Substitution(rule: Rule, t: string): Option<ValueSpec> {
    match FirstKeyed(rule.substitutions, t)
    case None => None
    case Some(i) => Some(rule.substitutions[i].1)
  }

  /** Whether `newInstances` lists `t`: a dependency of that type is always built anew. */
  predicate ForcesNew(rule: Rule, t: string) {
    exists i :: 0 <= i < |rule.newInstances| && Normalize(rule.newInstances[i]) == Normalize(t)
  }

  /** Declared rules, keyed by normalised identifier. */
  type RuleStore = map<string, Rule>

  function Stored(rs: RuleStore, n: string): Rule {
    if n in rs then rs[n] else NoRule
  }

  /**
   * `addRule`: the fields given are merged into whatever is already registered
   * under the identifier; every other registration is left as it was.
   */
  function AddRule(rs: RuleStore, id: string, fields: Rule): (rs': RuleStore)
    ensures rs'.Keys == rs.Keys + {Normalize(id)}
    ensures rs'[Normalize(id)] == Merge(Stored(rs, Normalize(id)), fields)
    ensures forall k :: k in rs && k != Normalize(id) ==> rs'[k] == rs[k]
  {
    var n := Normalize(id);
    rs[n := Merge(Stored(rs, n), fields)]
  }

  /** Whether a non-wildcard rule is registered for identifier `a`. */
  predicate Governs(rs: RuleStore, a: string) {
    var n := Normalize(a);
    n != Wildcard && n in rs
  }

  /** The position of the first ancestor that has a rule of its own. */
  function FirstGoverned(rs: RuleStore, ancestors: seq<string>): (r: Option<nat>)
    ensures r.None? <==> forall i :: 0 <= i < |ancestors| ==> !Governs(rs, ancestors[i])
    ensures r.Some? ==> r.value < |ancestors| && Governs(rs, ancestors[r.value])
                        && forall j :: 0 <= j < r.value ==> !Governs(rs, ancestors[j])
  {
    if |ancestors| == 0 then None
    else if Governs(rs, ancestors[0]) then Some(0)
    else
      var rest := FirstGoverned(rs, ancestors[1..]);
      assert forall j :: 1 <= j < |ancestors| ==> ancestors[j] == ancestors[1..][j - 1];
      match rest
      case None => None
      case Some(i) => Some(i + 1)
  }

  /** The rule a class inherits from its nearest governed ancestor or interface, if any. */
  function Inherited(u: Universe, rs: RuleStore, n: string): Option<Rule> {
    if n !in u then None
    else match FirstGoverned(rs, u[n].ancestors)
      case None => None
      case Some(i) => Some(rs[Normalize(u[n].ancestors[i])])
  }

  /** `getRule`: the effective rule for an identifier, recomputed on every call. */
  function GetRule(u: Universe, rs: RuleStore, id: string): Rule {
    var n := Normalize(id);
    if n == Wildcard then Stored(rs, Wildcard)
    else
      var base := Stored(rs, Wildcard);
      var middle := match Inherited(u, rs, n)
        case None => base
        case Some(r) => Merge(base, r);
      Merge(middle, Stored(rs, n))
  }

  /** The empty rule is a unit of merging on both sides. */
  lemma MergeNoRule(r: Rule)
    ensures Merge(NoRule, r) == r
    ensures Merge(r, NoRule) == r
  {
  }

  /** Overlaying is associative: either way, the top list wins, then the middle, then the bottom. */
  lemma {:induction false} OverlayAssociative<T>(a: seq<T>, b: seq<T>, c: seq<T>)
    ensures Overlay(Overlay(a, b), c) == Overlay(a, Overlay(b, c))
  {
    var l, r := Overlay(Overlay(a, b), c), Overlay(a, Overlay(b, c));
    assert |l| == |r|;
    forall i | 0 <= i < |l|
      ensures l[i] == r[i]
    {
      if i < |c| {
        assert l[i] == c[i] == r[i];
      } else if i < |b| {
        assert l[i] == Overlay(a, b)[i] == b[i];
      }
    }
  }

  lemma {:induction false} MergeListAssociative<T>(a: Option<seq<T>>, b: Option<seq<T>>, c: Option<seq<T>>)
    ensures MergeList(MergeList(a, b), c) == MergeList(a, MergeList(b, c))
  {
    if a.Some? && b.Some? && c.Some? {
      OverlayAssociative(a.value, b.value, c.value);
    }
  }

  lemma PreferAssociative<T>(a: Option<T>, b: Option<T>, c: Option<T>)
    ensures Prefer(Prefer(a, b), c) == Prefer(a, Prefer(b, c))
  {
  }

  lemma ConcatAssociative<T>(a: seq<T>, b: seq<T>, c: seq<T>)
    ensures c + (b + a) == (c + b) + a
  {
  }

  /** Layering is associative, so the order of registration is all that matters. */
  lemma {:induction false} MergeAssociative(a: Rule, b: Rule, c: Rule)
    ensures Merge(Merge(a, b), c) == Merge(a, Merge(b, c))
  {
    PreferAssociative(a.shared, b.shared, c.shared);
    PreferAssociative(a.instanceOf, b.instanceOf, c.instanceOf);
    MergeListAssociative(a.constructParams, b.constructParams, c.constructParams);
    ConcatAssociative(a.substitutions, b.substitutions, c.substitutions);
    ConcatAssociative(a.shareInstances, b.shareInstances, c.shareInstances);
    ConcatAssociative(a.newInstances, b.newInstances, c.newInstances);
    MergeListAssociative(a.call, b.call, c.call);
  }

  /** The first entry keyed by `key` in a concatenation: from the front part if it has one, else from the back. */
  lemma {:induction false} FirstKeyedConcat(front: seq<(string, ValueSpec)>, back: seq<(string, ValueSpec)>, key: string)
    ensures FirstKeyed(front + back, key)
         == if FirstKeyed(front, key).Some? then FirstKeyed(front, key)
            else if FirstKeyed(back, key).Some? then Some(|front| + FirstKeyed(back, key).value)
            else None
    decreases |front|
  {
    if |front| > 0 {
      assert (front + back)[0] == front[0];
      assert (front + back)[1..] == front[1..] + back;
      FirstKeyedConcat(front[1..], back, key);
    } else {
      assert front + back == back;
    }
  }

  /** After merging, a substitution of the overriding rule wins; otherwise the base rule's applies. */
  lemma SubstitutionMerge(base: Rule, over: Rule, t: string)
    ensures Substitution(Merge(base, over), t)
         == if Substitution(over, t).Some? then Substitution(over, t) else Substitution(base, t)
  {
    var o, b := over.substitutions, base.substitutions;
    FirstKeyedConcat(o, b, t);
    var fo, fb := FirstKeyed(o, t), FirstKeyed(b, t);
    if fo.Some? {
      assert (o + b)[fo.value] == o[fo.value];
    } else if fb.Some? {
      assert (o + b)[|o| + fb.value] == b[fb.value];
    }
  }

  /** `newInstances` of a merged rule lists exactly what either layer lists. */
  lemma ForcesNewMerge(base: Rule, over: Rule, t: string)
    ensures ForcesNew(Merge(base, over), t) <==> ForcesNew(base, t) || ForcesNew(over, t)
  {
    var o, b := over.newInstances, base.newInstances;
    var m := o + b;
    assert Merge(base, over).newInstances == m;
    if ForcesNew(base, t) {
      var i :| 0 <= i < |b| && Normalize(b[i]) == Normalize(t);
      assert m[|o| + i] == b[i];
    }
    if ForcesNew(over, t) {
      var i :| 0 <= i < |o| && Normalize(o[i]) == Normalize(t);
      assert m[i] == o[i];
    }
    if ForcesNew(Merge(base, over), t) {
      var i :| 0 <= i < |m| && Normalize(m[i]) == Normalize(t);
      if i < |o| {
        assert m[i] == o[i];
      } else {
        assert m[i] == b[i - |o|];
      }
    }
  }

  /**
   * Rule `r` honours the fields set in `f`: each scalar `f` sets is `r`'s,
   * each position of a list `f` sets holds `f`'s entry, each substitution
   * `f` declares is the one `r` finds, and each identifier `f` lists for
   * sharing or forcing is listed by `r` too.
   */
  ghost predicate Honours(r: Rule, f: Rule) {
    && (f.shared.Some? ==> r.shared == f.shared)
    && (f.instanceOf.Some? ==> r.instanceOf == f.instanceOf)
    && (f.constructParams.Some? ==>
          && r.constructParams.Some? && |f.constructParams.value| <= |r.constructParams.value|
          && forall i :: 0 <= i < |f.constructParams.value| ==> r.constructParams.value[i] == f.constructParams.value[i])
    && (forall t :: Substitution(f, t).Some? ==> Substitution(r, t) == Substitution(f, t))
    && (forall i :: 0 <= i < |f.shareInstances| ==> f.shareInstances[i] in r.shareInstances)
    && (forall t :: ForcesNew(f, t) ==> ForcesNew(r, t))
    && (f.call.Some? ==>
          && r.call.Some? && |f.call.value| <= |r.call.value|
          && forall i :: 0 <= i < |f.call.value| ==> r.call.value[i] == f.call.value[i])
  }

  /** The overriding layer of a merge is honoured. */
  lemma {:induction false} MergeHonours(base: Rule, over: Rule)
    ensures Honours(Merge(base, over), over)
  {
    var m := Merge(base, over);
    forall t | Substitution(over, t).Some?
      ensures Substitution(m, t) == Substitution(over, t)
    {
      SubstitutionMerge(base, over, t);
    }
    forall t | ForcesNew(over, t)
      ensures ForcesNew(m, t)
    {
      ForcesNewMerge(base, over, t);
    }
    forall i | 0 <= i < |over.shareInstances|
      ensures over.shareInstances[i] in m.shareInstances
    {
      assert m.shareInstances[i] == over.shareInstances[i];
    }
  }

  /**
   * After `addRule(id, fields)`, the effective rule of `id` honours `fields`,
   * whatever the wildcard, the ancestors or the earlier registrations say.
   */
  lemma {:induction false} AddRuleHonoured(u: Universe, rs: RuleStore, id: string, fields: Rule)
    ensures Honours(GetRule(u, AddRule(rs, id, fields), id), fields)
  {
    var n := Normalize(id);
    var rs' := AddRule(rs, id, fields);
    var own := Stored(rs, n);
    assert Stored(rs', n) == Merge(own, fields);
    if n == Wildcard {
      MergeHonours(own, fields);
    } else {
      var middle := match Inherited(u, rs', n)
        case None => Stored(rs', Wildcard)
        case Some(r) => Merge(Stored(rs', Wildcard), r);
      assert GetRule(u, rs', id) == Merge(middle, Merge(own, fields));
      MergeAssociative(middle, own, fields);
      MergeHonours(Merge(middle, own), fields);
    }
  }

  /** The wildcard rule is returned as registered: it is not merged with itself. */
  lemma WildcardRoundTrip(u: Universe, fields: Rule)
    ensures GetRule(u, AddRule(map[], Wildcard, fields), Wildcard) == fields
  {
    assert Normalize(Wildcard) == Wildcard;
    MergeNoRule(fields);
  }

  /** An identifier with no rule of its own and no governed ancestor gets the wildcard rule unchanged. */
  lemma WildcardIsInherited(u: Universe, rs: RuleStore, id: string)
    requires Normalize(id) != Wildcard && Normalize(id) !in rs
    requires Inherited(u, rs, Normalize(id)).None?
    ensures GetRule(u, rs, id) == Stored(rs, Wildcard)
  {
    MergeNoRule(Stored(rs, Wildcard));
  }

  /**
   * Per-field precedence of `getRule` for `shared`: the identifier's own rule,
   * else the nearest governed ancestor's, else the wildcard's.
   */
  lemma SharedPrecedence(u: Universe, rs: RuleStore, id: string)
    requires Normalize(id) != Wildcard
    ensures var n := Normalize(id);
            var own := Stored(rs, n).shared;
            var up := Inherited(u, rs, n);
            GetRule(u, rs, id).shared
              == if own.Some? then own
                 else if up.Some? && up.value.shared.Some? then up.value.shared
                 else Stored(rs, Wildcard).shared
  {
  }

  /** A field set by `addRule` is what `getRule` reports for that identifier. */
  lemma AddRuleSetsShared(u: Universe, rs: RuleStore, id: string, fields: Rule)
    requires fields.shared.Some?
    ensures GetRule(u, AddRule(rs, id, fields), id).shared == fields.shared
  {
    NormalizeIdempotent(id);
  }

  /**
   * `addRule` for one identifier leaves the effective rule of another alone,
   * unless it is the wildcard or one of that identifier's ancestors.
   */
  lemma AddRuleFrame(u: Universe, rs: RuleStore, id: string, fields: Rule, other: string)
    requires Normalize(id) != Wildcard && Normalize(id) != Normalize(other)
    requires Normalize(other) in u ==>
               forall i :: 0 <= i < |u[Normalize(other)].ancestors| ==>
                 Normalize(u[Normalize(other)].ancestors[i]) != Normalize(id)
    ensures GetRule(u, AddRule(rs, id, fields), other) == GetRule(u, rs, other)
  {
    var rs' := AddRule(rs, id, fields);
    var m := Normalize(other);
    NormalizeIdempotent(id);
    NormalizeIdempotent(other);
    if m != Wildcard && m in u {
      var anc := u[m].ancestors;
      assert forall i :: 0 <= i < |anc| ==> (Governs(rs', anc[i]) <==> Governs(rs, anc[i]));
      var f, f' := FirstGoverned(rs, anc), FirstGoverned(rs', anc);
      if f.Some? {
        assert f'.Some? && f'.value == f.value;
      } else {
        assert f'.None?;
      }
    }
  }
}
