/**
 * The argument matcher. Explicitly supplied values form a pool. A parameter
 * with a declared class takes the first pool entry that is an instance of
 * that class (or a null, when the parameter accepts null), wherever it sits;
 * an untyped parameter takes the next entry in order. Whatever is taken
 * leaves the pool; the rest keeps its order.
 */
module Matcher {
  import opened Wrappers
  import opened Arena
  import opened Classes

  /** Whether value `v` can be passed for a parameter declared as `t`. */
  predicate Accepts(u: Universe, heap: seq<Instance>, t: string, nullable: bool, v: Value) {
    match v
    case Obj(r) => r < |heap| && IsA(u, heap[r].cls, t)
    case Null => nullable
    case Scalar(_) => false
  }

  /** The pool without its entry at position `i`. */
  function Without(pool: seq<Value>, i: nat): (rest: seq<Value>)
    requires i < |pool|
    ensures |rest| == |pool| - 1
    ensures forall j :: 0 <= j < i ==> rest[j] == pool[j]
    ensures forall j :: i <= j < |rest| ==> rest[j] == pool[j + 1]
  {
    pool[..i] + pool[i + 1..]
  }

  /** The position of the first pool entry a parameter declared as `t` accepts. */
  function FirstAccepted(u: Universe, heap: seq<Instance>, t: string, nullable: bool, pool: seq<Value>): (r: Option<nat>)
    ensures r.None? <==> forall i :: 0 <= i < |pool| ==> !Accepts(u, heap, t, nullable, pool[i])
    ensures r.Some? ==> r.value < |pool| && Accepts(u, heap, t, nullable, pool[r.value])
                        && forall j :: 0 <= j < r.value ==> !Accepts(u, heap, t, nullable, pool[j])
  {
    if |pool| == 0 then None
    else if Accepts(u, heap, t, nullable, pool[0]) then Some(0)
    else
      var rest := FirstAccepted(u, heap, t, nullable, pool[1..]);
      assert forall j :: 1 <= j < |pool| ==> pool[j] == pool[1..][j - 1];
      match rest
      case None => None
      case Some(i) => Some(i + 1)
  }

  /** The value a typed parameter takes from the pool, with the pool that remains. */
  function TakeTyped(u: Universe, heap: seq<Instance>, t: string, nullable: bool, pool: seq<Value>): (r: Option<(Value, seq<Value>)>)
    ensures r.None? <==> forall i :: 0 <= i < |pool| ==> !Accepts(u, heap, t, nullable, pool[i])
    ensures r.Some? ==> exists i :: && 0 <= i < |pool| && pool[i] == r.value.0
                                    && r.value.1 == pool[..i] + pool[i + 1..]
                                    && Accepts(u, heap, t, nullable, r.value.0)
                                    && forall j :: 0 <= j < i ==> !Accepts(u, heap, t, nullable, pool[j])
  {
    match FirstAccepted(u, heap, t, nullable, pool)
    case None => None
    case Some(i) => Some((pool[i], Without(pool, i)))
  }

  /** The value an untyped parameter takes from the pool, with the pool that remains. */
  function TakeNext(pool: seq<Value>): Option<(Value, seq<Value>)> {
    if |pool| == 0 then None else Some((pool[0], pool[1..]))
  }

  /**
   * Scalars never stand in the way of a typed match: the object is found
   * wherever it sits among them, and the scalars keep their relative order.
   */
  lemma TypedSkipsScalars(u: Universe, heap: seq<Instance>, t: string, nullable: bool,
                          xs: seq<Value>, v: Value, ys: seq<Value>)
    requires forall i :: 0 <= i < |xs| ==> xs[i].Scalar?
    requires Accepts(u, heap, t, nullable, v)
    ensures TakeTyped(u, heap, t, nullable, xs + [v] + ys) == Some((v, xs + ys))
  {
    var pool := xs + [v] + ys;
    assert forall j :: 0 <= j < |xs| ==> pool[j] == xs[j];
    assert pool[|xs|] == v;
    var i := FirstAccepted(u, heap, t, nullable, pool);
    assert i.Some? && i.value == |xs|;
    assert Without(pool, |xs|) == xs + ys;
  }

  /** An accepted value at the head of the pool is the one taken. */
  lemma TakeTypedHead(u: Universe, heap: seq<Instance>, t: string, nullable: bool, v: Value, rest: seq<Value>)
    requires Accepts(u, heap, t, nullable, v)
    ensures TakeTyped(u, heap, t, nullable, [v] + rest) == Some((v, rest))
  {
    var pool := [v] + rest;
    assert FirstAccepted(u, heap, t, nullable, pool) == Some(0);
    assert Without(pool, 0) == rest;
  }

  /** Moving an accepted value in front of the scalars before it leaves the typed take unchanged. */
  lemma TypedTakeMoved(u: Universe, heap: seq<Instance>, t: string, nullable: bool,
                       xs: seq<Value>, v: Value, ys: seq<Value>)
    requires forall i :: 0 <= i < |xs| ==> xs[i].Scalar?
    requires Accepts(u, heap, t, nullable, v)
    ensures TakeTyped(u, heap, t, nullable, xs + [v] + ys) == TakeTyped(u, heap, t, nullable, [v] + xs + ys) == Some((v, xs + ys))
  {
    TypedSkipsScalars(u, heap, t, nullable, xs, v, ys);
    assert [v] + xs + ys == [v] + (xs + ys);
    TakeTypedHead(u, heap, t, nullable, v, xs + ys);
  }
}
