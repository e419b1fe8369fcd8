/** What several components share: fixed-width numbers, optional values, and the ids and
    iteration orders of the event-driven parts. */
module Basics {

  type byte = x: int | 0 <= x < 256
  type uint16 = x: int | 0 <= x < 0x1_0000
  type uint32 = x: int | 0 <= x < 0x1_0000_0000
  type uint64 = x: int | 0 <= x < 0x1_0000_0000_0000_0000
  type int32 = x: int | -0x8000_0000 <= x < 0x8000_0000

  datatype Option<T> = None | Some(value: T)

  function Pow2(k: nat): (p: nat)
    ensures p > 0
  {
    if k == 0 then 1 else 2 * Pow2(k - 1)
  }

  lemma Pow2Of32()
    ensures Pow2(32) == 0x1_0000_0000
  {
    assert Pow2(10) == 1024;
    assert Pow2(20) == 1024 * 1024;
  }

  /** Unsigned difference, with wrap-around. */
  function Minus(a: uint64, b: uint64): uint64 {
    (a - b) % 0x1_0000_0000_0000_0000
  }

  /** At least `limit` has passed since `first`. A clock behind `first` reads as far ahead of it. */
  predicate Elapsed(first: uint64, now: uint64, limit: uint64) {
    if now >= first then now >= first + limit else now + 0x1_0000_0000_0000_0000 >= first + limit
  }

  lemma ElapsedIff(first: uint64, now: uint64, limit: uint64)
    ensures Elapsed(first, now, limit) <==> Minus(now, first) >= limit
  {
  }

  /** An order in which a hash table with these keys may be iterated. */
  predicate Enumerates(order: seq<uint64>, keys: set<uint64>) {
    (forall k :: 0 <= k < |order| ==> order[k] in keys)
    && (forall x :: x in keys ==> x in order)
    && Distinct(order)
  }

  /** The first id in iteration order that is in the set. */
  function FirstIn(order: seq<uint64>, ids: set<uint64>): (id: Option<uint64>)
    ensures id.Some? ==> id.value in ids && id.value in order
    ensures id.None? <==> forall k :: 0 <= k < |order| ==> order[k] !in ids
  {
    if order == [] then None else if order[0] in ids then Some(order[0]) else FirstIn(order[1..], ids)
  }

  /** A search that has come to position k without success, and stops there if it is not the end. */
  lemma {:induction false} FirstInIs(order: seq<uint64>, ids: set<uint64>, k: nat)
    requires k <= |order| && (k < |order| ==> order[k] in ids)
    requires forall r :: 0 <= r < k ==> order[r] !in ids
    ensures FirstIn(order, ids) == if k < |order| then Some(order[k]) else None
  {
    if k > 0 {
      FirstInIs(order[1..], ids, k - 1);
    }
  }

  function Concat<T>(parts: seq<seq<T>>): seq<T> {
    if parts == [] then [] else parts[0] + Concat(parts[1..])
  }

  lemma ConcatNone<T>()
    ensures Concat<T>([]) == []
  {
  }

  predicate Distinct(ids: seq<uint64>) {
    forall i, j :: 0 <= i < j < |ids| ==> ids[i] != ids[j]
  }

  /** Distinct ids are those that occur once in the multiset. */
  lemma {:induction false} DistinctCounts(ids: seq<uint64>)
    ensures Distinct(ids) <==> forall x :: multiset(ids)[x] <= 1
    decreases |ids|
  {
    if ids != [] {
      var n := |ids| - 1;
      var front, last := ids[..n], ids[n];
      DistinctCounts(front);
      assert ids == front + [last];
      if Distinct(ids) {
        assert last !in front;
      } else if Distinct(front) {
        assert last in front;
        assert multiset(ids)[last] >= 2;
      } else {
        var x :| multiset(front)[x] > 1;
        assert multiset(ids)[x] > 1;
      }
    }
  }
}
