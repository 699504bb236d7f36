/** The slots of a circular buffer, from some index on and once round. */
module Circular {

  /** An index, or an index past the end that goes round once. */
  function Around(i: nat, size: nat): nat { if i >= size then i - size else i }

  /** `n` elements, the first of them at index `from`. */
  function Slots<T>(store: seq<T>, from: nat, n: nat): (q: seq<T>)
    requires from < |store| && n <= |store|
    ensures |q| == n && forall i | 0 <= i < n :: q[i] == store[Around(from + i, |store|)]
  {
    seq(n, i requires 0 <= i < n => store[Around(from + i, |store|)])
  }

  /** One element more. */
  lemma {:induction false} SlotsSnoc<T>(store: seq<T>, from: nat, n: nat)
    requires from < |store| && n < |store|
    ensures Slots(store, from, n + 1) == Slots(store, from, n) + [store[Around(from + n, |store|)]]
  {}

  /** One element fewer. */
  lemma {:induction false} SlotsFirst<T>(store: seq<T>, from: nat, n: nat)
    requires from < |store| && 0 < n <= |store|
    ensures Slots(store, from, n) == [store[from]] + Slots(store, Around(from + 1, |store|), n - 1)
  {}

  /** Storing into the slot after them leaves them alone. */
  lemma {:induction false} SlotsStored<T>(store: seq<T>, from: nat, n: nat, x: T)
    requires from < |store| && n < |store|
    ensures Slots(store[Around(from + n, |store|) := x], from, n) == Slots(store, from, n)
  {
    forall i | 0 <= i < n ensures Slots(store[Around(from + n, |store|) := x], from, n)[i] == Slots(store, from, n)[i] {
      assert Around(from + i, |store|) != Around(from + n, |store|);
    }
  }
}
