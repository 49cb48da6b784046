/**
 * Object identity. Every object the container builds lives in an arena and is
 * named by its index there, so "the same instance" is equality of references.
 * Objects refer to one another through references, which is how a cyclic
 * object graph is represented.
 */
module Arena {

  type Ref = nat

  /** A value handed to a constructor or a method: a scalar, null, or an object. */
  datatype Value = Scalar(text: string) | Null | Obj(ref: Ref)

  /** A post-construction method call recorded on an object. */
  datatype Invocation = Invocation(name: string, args: seq<Value>)

  /** An object: its concrete class, its constructor arguments, and the calls made on it. */
  datatype Instance = Instance(cls: string, args: seq<Value>, calls: seq<Invocation>)

  /**
   * The mutable part of the container during one request: the arena, the
   * global singleton cache, and the per-request shared-instance map.
   */
  datatype Store = Store(heap: seq<Instance>, singletons: map<string, Ref>, request: map<string, Ref>)

  /** Every cached reference names an object of the arena. */
  predicate Valid(st: Store) {
    && (forall k :: k in st.singletons ==> st.singletons[k] < |st.heap|)
    && (forall k :: k in st.request ==> st.request[k] < |st.heap|)
  }

  /**
   * `st'` is a later state of `st`: objects that existed are untouched, and
   * no cache entry is dropped or rebound.
   */
  predicate Grows(st: Store, st': Store) {
    && |st.heap| <= |st'.heap|
    && (forall i :: 0 <= i < |st.heap| ==> st'.heap[i] == st.heap[i])
    && (forall k :: k in st.singletons ==> k in st'.singletons && st'.singletons[k] == st.singletons[k])
    && (forall k :: k in st.request ==> k in st'.request && st'.request[k] == st.request[k])
  }

  /**
   * `st'` is a later state of `st` in which object `r`, the one under
   * construction, may also have been completed; it keeps its class.
   */
  predicate GrowsBeside(st: Store, st': Store, r: Ref) {
    && |st.heap| <= |st'.heap|
    && (forall i :: 0 <= i < |st.heap| && i != r ==> st'.heap[i] == st.heap[i])
    && (r < |st.heap| ==> st'.heap[r].cls == st.heap[r].cls)
    && (forall k :: k in st.singletons ==> k in st'.singletons && st'.singletons[k] == st.singletons[k])
    && (forall k :: k in st.request ==> k in st'.request && st'.request[k] == st.request[k])
  }

  lemma GrowsReflexive(st: Store)
    ensures Grows(st, st)
  {
  }

  lemma GrowsTransitive(a: Store, b: Store, c: Store)
    requires Grows(a, b) && Grows(b, c)
    ensures Grows(a, c)
  {
  }

  lemma GrowsBesideTransitive(a: Store, b: Store, c: Store, r: Ref)
    requires GrowsBeside(a, b, r) && GrowsBeside(b, c, r)
    ensures GrowsBeside(a, c, r)
  {
  }

  /** A new object, then any completion of it, is a later state of the store before the allocation. */
  lemma AllocThenBeside(a: Store, b: Store, c: Store)
    requires Grows(a, b) && |b.heap| == |a.heap| + 1 && GrowsBeside(b, c, |a.heap|)
    ensures Grows(a, c) && |a.heap| < |c.heap| && c.heap[|a.heap|].cls == b.heap[|a.heap|].cls
  {
  }

  /** Completing the object under construction keeps every other object. */
  lemma GrowsThenFill(a: Store, b: Store, r: Ref, args: seq<Value>)
    requires Grows(a, b) && r < |b.heap|
    ensures GrowsBeside(a, Fill(b, r, args), r)
  {
  }

  /** Adds a new, not yet constructed object of class `cls` at the end of the arena. */
  function Alloc(st: Store, cls: string): (r: (Ref, Store))
    ensures r.0 == |st.heap| && |r.1.heap| == |st.heap| + 1
    ensures r.1.heap[r.0] == Instance(cls, [], [])
    ensures Grows(st, r.1)
    ensures r.1.singletons == st.singletons && r.1.request == st.request
    ensures Valid(st) ==> Valid(r.1)
  {
    (|st.heap|, st.(heap := st.heap + [Instance(cls, [], [])]))
  }

  /** Stores the constructor arguments of object `r`. */
  function Fill(st: Store, r: Ref, args: seq<Value>): (st': Store)
    requires r < |st.heap|
    ensures |st'.heap| == |st.heap|
    ensures st'.heap[r] == st.heap[r].(args := args)
    ensures forall i :: 0 <= i < |st.heap| && i != r ==> st'.heap[i] == st.heap[i]
    ensures st'.singletons == st.singletons && st'.request == st.request
    ensures Valid(st) ==> Valid(st')
  {
    st.(heap := st.heap[r := st.heap[r].(args := args)])
  }

  /** Appends a method call to the log of object `r`. */
  function Log(st: Store, r: Ref, call: Invocation): (st': Store)
    requires r < |st.heap|
    ensures |st'.heap| == |st.heap|
    ensures st'.heap[r] == st.heap[r].(calls := st.heap[r].calls + [call])
    ensures forall i :: 0 <= i < |st.heap| && i != r ==> st'.heap[i] == st.heap[i]
    ensures st'.singletons == st.singletons && st'.request == st.request
    ensures Valid(st) ==> Valid(st')
  {
    st.(heap := st.heap[r := st.heap[r].(calls := st.heap[r].calls + [call])])
  }
}
