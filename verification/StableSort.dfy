// The standard library's stable sort, greatest key first, and what it means for
// where each element ends up.

module StableSort {
  import opened Common

  function Place<T>(key: T -> int, e: T, sorted: seq<T>): (p: nat)
    ensures p <= |sorted|
    ensures forall i :: 0 <= i < p ==> key(sorted[i]) >= key(e)
    ensures p < |sorted| ==> key(sorted[p]) < key(e)
  {
    if sorted == [] || key(sorted[0]) < key(e) then 0 else 1 + Place(key, e, sorted[1..])
  }

  function Inserted<T>(key: T -> int, e: T, sorted: seq<T>): seq<T> {
    sorted[..Place(key, e, sorted)] + [e] + sorted[Place(key, e, sorted)..]
  }

  // Elements are inserted in turn, each behind those with a key at least as great.
  function Descending<T>(key: T -> int, entries: seq<T>): (s: seq<T>)
    ensures |s| == |entries|
  {
    if entries == [] then [] else Inserted(key, entries[|entries| - 1], Descending(key, entries[..|entries| - 1]))
  }

  predicate IsDescending<T>(key: T -> int, entries: seq<T>) {
    forall i, j :: 0 <= i < j < |entries| ==> key(entries[i]) >= key(entries[j])
  }

  lemma {:induction false} DescendingIsSorted<T>(key: T -> int, entries: seq<T>)
    ensures IsDescending(key, Descending(key, entries))
  {
    if entries != [] {
      DescendingIsSorted(key, entries[..|entries| - 1]);
    }
  }

  // How many keys are at least t; sorting does not change it.
  function CountAtLeast<T>(key: T -> int, entries: seq<T>, t: int): nat {
    if entries == [] then 0
    else CountAtLeast(key, entries[..|entries| - 1], t) + (if key(entries[|entries| - 1]) >= t then 1 else 0)
  }

  lemma {:induction false} CountAppend<T>(key: T -> int, a: seq<T>, b: seq<T>, t: int)
    ensures CountAtLeast(key, a + b, t) == CountAtLeast(key, a, t) + CountAtLeast(key, b, t)
    decreases |b|
  {
    if b == [] {
      assert a + b == a;
    } else {
      assert (a + b)[..|a + b| - 1] == a + b[..|b| - 1];
      CountAppend(key, a, b[..|b| - 1], t);
    }
  }

  lemma CountInserted<T>(key: T -> int, e: T, sorted: seq<T>, t: int)
    ensures CountAtLeast(key, Inserted(key, e, sorted), t) == CountAtLeast(key, sorted, t) + (if key(e) >= t then 1 else 0)
  {
    var p := Place(key, e, sorted);
    CountAppend(key, sorted[..p] + [e], sorted[p..], t);
    CountAppend(key, sorted[..p], [e], t);
    CountAppend(key, sorted[..p], sorted[p..], t);
    assert sorted == sorted[..p] + sorted[p..];
    assert [e][..0] == [];
  }

  lemma {:induction false} CountSorted<T>(key: T -> int, entries: seq<T>, t: int)
    ensures CountAtLeast(key, Descending(key, entries), t) == CountAtLeast(key, entries, t)
  {
    if entries != [] {
      CountSorted(key, entries[..|entries| - 1], t);
      CountInserted(key, entries[|entries| - 1], Descending(key, entries[..|entries| - 1]), t);
    }
  }

  lemma {:induction false} CountInSorted<T>(key: T -> int, sorted: seq<T>, t: int, p: nat)
    requires p <= |sorted| && (forall i :: 0 <= i < p ==> key(sorted[i]) >= t) && forall i :: p <= i < |sorted| ==> key(sorted[i]) < t
    ensures CountAtLeast(key, sorted, t) == p
  {
    if sorted != [] {
      CountInSorted(key, sorted[..|sorted| - 1], t, if p == |sorted| then p - 1 else p);
    }
  }

  // How many elements go before the i-th: earlier-listed ones whose key is at
  // least as great, and later-listed ones whose key is strictly greater.
  function Rank<T>(key: T -> int, entries: seq<T>, i: nat): nat
    requires i < |entries|
  {
    CountAtLeast(key, entries[..i], key(entries[i])) + CountAtLeast(key, entries[i + 1..], key(entries[i]) + 1)
  }

  lemma InsertedAt<T>(key: T -> int, e: T, sorted: seq<T>, k: nat)
    requires k < |sorted|
    ensures k < Place(key, e, sorted) ==> Inserted(key, e, sorted)[k] == sorted[k]
    ensures k >= Place(key, e, sorted) ==> Inserted(key, e, sorted)[k + 1] == sorted[k]
    ensures Inserted(key, e, sorted)[Place(key, e, sorted)] == e
  {
  }

  lemma PlaceIsCount<T>(key: T -> int, e: T, entries: seq<T>)
    ensures Place(key, e, Descending(key, entries)) == CountAtLeast(key, entries, key(e))
  {
    DescendingIsSorted(key, entries);
    var sorted := Descending(key, entries);
    var p := Place(key, e, sorted);
    assert forall i :: p <= i < |sorted| ==> key(sorted[i]) <= key(sorted[p]);
    CountInSorted(key, sorted, key(e), p);
    CountSorted(key, entries, key(e));
  }

  lemma RankStep<T>(key: T -> int, entries: seq<T>, i: nat)
    requires i < |entries| - 1
    ensures var n := |entries| - 1;
            Rank(key, entries, i) == Rank(key, entries[..n], i) + (if key(entries[n]) > key(entries[i]) then 1 else 0)
  {
    var n := |entries| - 1;
    var front := entries[..n];
    assert entries[..i] == front[..i];
    assert entries[i + 1..][..n - i - 1] == front[i + 1..];
  }

  // Every element ends up at its rank: the result is in order, and elements with
  // equal keys stay in the order they were listed.
  lemma {:induction false} SortedAtRank<T>(key: T -> int, entries: seq<T>, i: nat)
    requires i < |entries|
    ensures Rank(key, entries, i) < |entries| && Descending(key, entries)[Rank(key, entries, i)] == entries[i]
  {
    var n := |entries| - 1;
    var front, last := entries[..n], entries[n];
    PlaceIsCount(key, last, front);
    if i == n {
      assert entries[i + 1..] == [];
      RankOfLast(key, entries);
    } else {
      SortedAtRank(key, front, i);
      RankStep(key, entries, i);
      DescendingIsSorted(key, front);
      PlaceOrder(key, last, Descending(key, front), Rank(key, front, i));
      InsertedAt(key, last, Descending(key, front), Rank(key, front, i));
    }
  }

  lemma RankOfLast<T>(key: T -> int, entries: seq<T>)
    requires entries != []
    ensures var n := |entries| - 1; Rank(key, entries, n) == CountAtLeast(key, entries[..n], key(entries[n]))
  {
    assert entries[|entries| - 1 + 1..] == [];
  }

  lemma PlaceOrder<T>(key: T -> int, e: T, sorted: seq<T>, k: nat)
    requires k < |sorted| && IsDescending(key, sorted)
    ensures k < Place(key, e, sorted) <==> key(sorted[k]) >= key(e)
  {
  }

  lemma {:induction false} SortIsPermutation<T>(key: T -> int, entries: seq<T>)
    ensures multiset(Descending(key, entries)) == multiset(entries)
  {
    if entries != [] {
      var front, last := entries[..|entries| - 1], entries[|entries| - 1];
      SortIsPermutation(key, front);
      InsertedAdds(key, last, Descending(key, front));
      assert entries == front + [last];
    }
  }

  lemma InsertedAdds<T>(key: T -> int, e: T, sorted: seq<T>)
    ensures multiset(Inserted(key, e, sorted)) == multiset(sorted) + multiset{e}
  {
    var p := Place(key, e, sorted);
    assert sorted == sorted[..p] + sorted[p..];
  }

  lemma {:induction false} SortFixes<T>(key: T -> int, entries: seq<T>)
    requires IsDescending(key, entries)
    ensures Descending(key, entries) == entries
  {
    if entries != [] {
      var n := |entries| - 1;
      SortFixes(key, entries[..n]);
      assert Place(key, entries[n], entries[..n]) == n;
    }
  }

  lemma InsertedStaysDistinct<T>(key: T -> int, e: T, sorted: seq<T>)
    requires Distinct(sorted) && e !in sorted
    ensures Distinct(Inserted(key, e, sorted))
  {
  }

  lemma {:induction false} SortKeepsDistinct<T>(key: T -> int, entries: seq<T>)
    requires Distinct(entries)
    ensures Distinct(Descending(key, entries))
  {
    if entries != [] {
      var front, last := entries[..|entries| - 1], entries[|entries| - 1];
      SortKeepsDistinct(key, front);
      SortIsPermutation(key, front);
      assert last in Descending(key, front) ==> last in multiset(Descending(key, front));
      InsertedStaysDistinct(key, last, Descending(key, front));
    }
  }
}
