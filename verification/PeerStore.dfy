// The list of recently reachable peers. The clock and the test whether an entry
// still makes a usable address (which depends on the host's interfaces) are
// inputs of every operation; addresses are already normalised texts.

module PeerStore {
  import opened Common
  import opened StableSort

  datatype Entry = Entry(peerId: string, address: string, lastSeen: nat) {
    function Key(): (string, string) {
      (peerId, address)
    }
  }

  type Usable = (string, string) -> bool

  function Recency(e: Entry): int {
    e.lastSeen
  }

  const MAX_PEER_AGE_SECS: nat := 30 * 24 * 60 * 60

  function MinSeen(now: nat): nat {
    Max(now - MAX_PEER_AGE_SECS, 0)
  }

  predicate Live(usable: Usable, now: nat, e: Entry) {
    e.lastSeen >= MinSeen(now) && usable(e.peerId, e.address)
  }

  function Keys(entries: seq<Entry>): (s: set<(string, string)>)
    ensures forall i :: 0 <= i < |entries| ==> entries[i].Key() in s
  {
    set i | 0 <= i < |entries| :: entries[i].Key()
  }

  // What retain keeps: of each key, the first live entry.
  function Retained(usable: Usable, now: nat, entries: seq<Entry>): seq<Entry> {
    if entries == [] then []
    else
      var kept, e := Retained(usable, now, entries[..|entries| - 1]), entries[|entries| - 1];
      if Live(usable, now, e) && e.Key() !in Keys(kept) then kept + [e] else kept
  }

  function Truncated(entries: seq<Entry>, max: nat): seq<Entry> {
    entries[..Min(max, |entries|)]
  }

  function Pruned(usable: Usable, now: nat, max: nat, entries: seq<Entry>): seq<Entry> {
    Truncated(Descending(Recency, Retained(usable, now, entries)), max)
  }

  predicate DistinctKeys(entries: seq<Entry>) {
    forall i, j :: 0 <= i < j < |entries| ==> entries[i].Key() != entries[j].Key()
  }

  ghost predicate AllLive(usable: Usable, now: nat, entries: seq<Entry>) {
    forall i :: 0 <= i < |entries| ==> Live(usable, now, entries[i])
  }

  // What a prune promises.
  ghost predicate Clean(usable: Usable, now: nat, max: nat, entries: seq<Entry>) {
    DistinctKeys(entries) && IsDescending(Recency, entries) && |entries| <= max && AllLive(usable, now, entries)
  }

  // ---- What a prune keeps ----

  lemma {:induction false} RetainedIsLiveAndDistinct(usable: Usable, now: nat, entries: seq<Entry>)
    ensures DistinctKeys(Retained(usable, now, entries)) && AllLive(usable, now, Retained(usable, now, entries))
  {
    if entries != [] {
      RetainedIsLiveAndDistinct(usable, now, entries[..|entries| - 1]);
    }
  }

  // Of every key with a live entry, exactly its first live entry is retained.
  ghost predicate FirstLive(usable: Usable, now: nat, entries: seq<Entry>, i: nat) {
    i < |entries| && Live(usable, now, entries[i]) &&
    forall j :: 0 <= j < i && Live(usable, now, entries[j]) ==> entries[j].Key() != entries[i].Key()
  }

  ghost predicate HasLiveKey(usable: Usable, now: nat, entries: seq<Entry>, key: (string, string)) {
    exists i :: 0 <= i < |entries| && Live(usable, now, entries[i]) && entries[i].Key() == key
  }

  lemma {:induction false} RetainedKeysAreLive(usable: Usable, now: nat, entries: seq<Entry>, key: (string, string))
    ensures key in Keys(Retained(usable, now, entries)) <==> HasLiveKey(usable, now, entries, key)
  {
    if entries != [] {
      var n := |entries| - 1;
      RetainedKeysAreLive(usable, now, entries[..n], key);
      RetainStep(usable, now, entries);
      assert forall i :: 0 <= i < n ==> entries[..n][i] == entries[i];
    }
  }

  lemma {:induction false} RetainedIsFirstLive(usable: Usable, now: nat, entries: seq<Entry>, e: Entry)
    ensures e in Retained(usable, now, entries) <==> IsFirstLive(usable, now, entries, e)
  {
    if entries != [] {
      var n := |entries| - 1;
      RetainedIsFirstLive(usable, now, entries[..n], e);
      RetainedKeysAreLive(usable, now, entries[..n], entries[n].Key());
      FirstLiveStep(usable, now, entries, e);
    }
  }

  ghost predicate IsFirstLive(usable: Usable, now: nat, entries: seq<Entry>, e: Entry) {
    exists i: nat :: FirstLive(usable, now, entries, i) && entries[i] == e
  }

  lemma FirstLiveStep(usable: Usable, now: nat, entries: seq<Entry>, e: Entry)
    requires entries != []
    ensures var n := |entries| - 1;
            IsFirstLive(usable, now, entries, e) <==>
            IsFirstLive(usable, now, entries[..n], e) ||
            (entries[n] == e && Live(usable, now, e) && !HasLiveKey(usable, now, entries[..n], e.Key()))
  {
    var n := |entries| - 1;
    var front := entries[..n];
    FirstLiveAtEnd(usable, now, entries);
    if IsFirstLive(usable, now, front, e) {
      var i: nat :| FirstLive(usable, now, front, i) && front[i] == e;
      FirstLiveBefore(usable, now, entries, i);
    }
    if IsFirstLive(usable, now, entries, e) {
      var i: nat :| FirstLive(usable, now, entries, i) && entries[i] == e;
      if i < n {
        FirstLiveBefore(usable, now, entries, i);
      }
    }
  }

  lemma FirstLiveBefore(usable: Usable, now: nat, entries: seq<Entry>, i: nat)
    requires i < |entries| - 1
    ensures FirstLive(usable, now, entries[..|entries| - 1], i) <==> FirstLive(usable, now, entries, i)
  {
  }

  lemma FirstLiveAtEnd(usable: Usable, now: nat, entries: seq<Entry>)
    requires entries != []
    ensures var n := |entries| - 1;
            FirstLive(usable, now, entries, n) <==> Live(usable, now, entries[n]) && !HasLiveKey(usable, now, entries[..n], entries[n].Key())
  {
    var n := |entries| - 1;
    assert forall j :: 0 <= j < n ==> entries[..n][j] == entries[j];
  }

  lemma RetainStep(usable: Usable, now: nat, entries: seq<Entry>)
    requires entries != []
    ensures var n := |entries| - 1; var kept := Retained(usable, now, entries[..n]);
            Keys(Retained(usable, now, entries)) == Keys(kept) + (if Live(usable, now, entries[n]) then {entries[n].Key()} else {})
  {
    var n := |entries| - 1;
    var kept := Retained(usable, now, entries[..n]);
    if Live(usable, now, entries[n]) && entries[n].Key() !in Keys(kept) {
      var all := kept + [entries[n]];
      assert forall i :: 0 <= i < |kept| ==> all[i] == kept[i];
      assert all[|kept|] == entries[n];
    }
  }

  lemma InsertedKeysStayDistinct(e: Entry, sorted: seq<Entry>)
    requires DistinctKeys(sorted) && forall i :: 0 <= i < |sorted| ==> sorted[i].Key() != e.Key()
    ensures DistinctKeys(Inserted(Recency, e, sorted))
  {
  }

  lemma {:induction false} KeysStayDistinct(entries: seq<Entry>)
    requires DistinctKeys(entries)
    ensures DistinctKeys(Descending(Recency, entries))
  {
    if entries != [] {
      var front, last := entries[..|entries| - 1], entries[|entries| - 1];
      KeysStayDistinct(front);
      SortIsPermutation(Recency, front);
      forall i | 0 <= i < |front|
        ensures Descending(Recency, front)[i].Key() != last.Key()
      {
        assert Descending(Recency, front)[i] in multiset(front);
      }
      InsertedKeysStayDistinct(last, Descending(Recency, front));
    }
  }

  lemma PruneIsClean(usable: Usable, now: nat, max: nat, entries: seq<Entry>)
    ensures Clean(usable, now, max, Pruned(usable, now, max, entries))
  {
    var kept := Retained(usable, now, entries);
    RetainedIsLiveAndDistinct(usable, now, entries);
    DescendingIsSorted(Recency, kept);
    KeysStayDistinct(kept);
    SortIsPermutation(Recency, kept);
    forall i | 0 <= i < |kept|
      ensures Live(usable, now, Descending(Recency, kept)[i])
    {
      assert Descending(Recency, kept)[i] in multiset(kept);
    }
  }

  lemma {:induction false} RetainFixes(usable: Usable, now: nat, entries: seq<Entry>)
    requires AllLive(usable, now, entries) && DistinctKeys(entries)
    ensures Retained(usable, now, entries) == entries
  {
    if entries != [] {
      var front, last := entries[..|entries| - 1], entries[|entries| - 1];
      RetainFixes(usable, now, front);
      assert last.Key() !in Keys(front);
      assert front + [last] == entries;
    }
  }

  // A prune changes nothing exactly when there is nothing to prune; so at a fixed
  // clock and with the same interfaces a second prune changes nothing.
  lemma PruneFixesIff(usable: Usable, now: nat, max: nat, entries: seq<Entry>)
    ensures Pruned(usable, now, max, entries) == entries <==> Clean(usable, now, max, entries)
    ensures Pruned(usable, now, max, Pruned(usable, now, max, entries)) == Pruned(usable, now, max, entries)
  {
    PruneIsClean(usable, now, max, entries);
    CleanIsFixed(usable, now, max, Pruned(usable, now, max, entries));
    if Clean(usable, now, max, entries) {
      CleanIsFixed(usable, now, max, entries);
    }
  }

  lemma CleanIsFixed(usable: Usable, now: nat, max: nat, entries: seq<Entry>)
    requires Clean(usable, now, max, entries)
    ensures Pruned(usable, now, max, entries) == entries
  {
    RetainFixes(usable, now, entries);
    SortFixes(Recency, entries);
  }

  // A retained entry survives the truncation exactly when fewer than max entries
  // go before it.
  lemma SurvivesIff(usable: Usable, now: nat, max: nat, entries: seq<Entry>, i: nat)
    requires i < |Retained(usable, now, entries)|
    ensures var kept := Retained(usable, now, entries);
            kept[i] in Pruned(usable, now, max, entries) <==> Rank(Recency, kept, i) < max
  {
    var kept := Retained(usable, now, entries);
    RetainedIsLiveAndDistinct(usable, now, entries);
    KeysStayDistinct(kept);
    SortedAtRank(Recency, kept, i);
    var sorted := Descending(Recency, kept);
    var r := Rank(Recency, kept, i);
    forall k | 0 <= k < |sorted| && sorted[k] == kept[i]
      ensures k == r
    {
      assert sorted[k].Key() == sorted[r].Key();
    }
  }

  // So no entry is dropped for want of room while a strictly older one is kept.
  lemma NeverDropsTheNewer(usable: Usable, now: nat, max: nat, entries: seq<Entry>, dropped: Entry, kept: Entry)
    requires dropped in Retained(usable, now, entries) && dropped !in Pruned(usable, now, max, entries)
    requires kept in Pruned(usable, now, max, entries)
    ensures kept.lastSeen >= dropped.lastSeen && |Pruned(usable, now, max, entries)| == max
  {
    var all := Retained(usable, now, entries);
    var i :| 0 <= i < |all| && all[i] == dropped;
    SurvivesIff(usable, now, max, entries, i);
    SortedAtRank(Recency, all, i);
    DescendingIsSorted(Recency, all);
    var k :| 0 <= k < |Pruned(usable, now, max, entries)| && Pruned(usable, now, max, entries)[k] == kept;
    assert Descending(Recency, all)[k] == kept && k < Rank(Recency, all, i);
  }

  // ---- Recording and removing ----

  function IndexOf(entries: seq<Entry>, key: (string, string)): (k: nat)
    ensures k <= |entries|
    ensures forall i :: 0 <= i < k ==> entries[i].Key() != key
    ensures k < |entries| ==> entries[k].Key() == key
  {
    if entries == [] || entries[0].Key() == key then 0 else 1 + IndexOf(entries[1..], key)
  }

  function Recorded(entries: seq<Entry>, peerId: string, address: string, now: nat): seq<Entry> {
    var k := IndexOf(entries, (peerId, address));
    if k < |entries| then entries[k := entries[k].(lastSeen := now)] else entries + [Entry(peerId, address, now)]
  }

  function Without(entries: seq<Entry>, key: (string, string)): seq<Entry> {
    if entries == [] then []
    else
      var front, last := Without(entries[..|entries| - 1], key), entries[|entries| - 1];
      if last.Key() == key then front else front + [last]
  }

  function OnlyLive(usable: Usable, now: nat, entries: seq<Entry>): seq<Entry> {
    if entries == [] then []
    else
      var front, last := OnlyLive(usable, now, entries[..|entries| - 1]), entries[|entries| - 1];
      if Live(usable, now, last) then front + [last] else front
  }

  lemma {:induction false} RetainedExtends(usable: Usable, now: nat, entries: seq<Entry>, k: nat)
    requires k <= |entries|
    ensures Retained(usable, now, entries[..k]) <= Retained(usable, now, entries)
  {
    if k == |entries| {
      assert entries[..k] == entries;
    } else {
      RetainedExtends(usable, now, entries[..|entries| - 1], k);
      assert entries[..|entries| - 1][..k] == entries[..k];
    }
  }

  lemma {:induction false} CountNone(entries: seq<Entry>, t: nat)
    requires forall i :: 0 <= i < |entries| ==> entries[i].lastSeen < t
    ensures CountAtLeast(Recency, entries, t) == 0
  {
    if entries != [] {
      CountNone(entries[..|entries| - 1], t);
    }
  }

  lemma RetainedMembers(usable: Usable, now: nat, entries: seq<Entry>, e: Entry)
    requires e in Retained(usable, now, entries)
    ensures e in entries && Live(usable, now, e)
  {
    RetainedIsFirstLive(usable, now, entries, e);
  }

  lemma PrunedMembers(usable: Usable, now: nat, max: nat, entries: seq<Entry>, e: Entry)
    requires e in Pruned(usable, now, max, entries)
    ensures e in Retained(usable, now, entries)
  {
    var kept := Retained(usable, now, entries);
    SortIsPermutation(Recency, kept);
    assert e in multiset(Descending(Recency, kept));
  }

  // Where a freshly recorded entry stands among the retained ones.
  lemma RecordedPosition(usable: Usable, now: nat, entries: seq<Entry>, peerId: string, address: string)
    requires DistinctKeys(entries) && usable(peerId, address)
    ensures var all, k := Recorded(entries, peerId, address, now), IndexOf(entries, (peerId, address));
            var i, kept := |Retained(usable, now, all[..k])|, Retained(usable, now, all);
            i < |kept| && kept[i] == Entry(peerId, address, now) && kept[..i] == Retained(usable, now, all[..k])
  {
    var all, k := Recorded(entries, peerId, address, now), IndexOf(entries, (peerId, address));
    var e := Entry(peerId, address, now);
    var before := Retained(usable, now, all[..k]);
    assert all[k] == e && all[..k + 1][..k] == all[..k];
    if e.Key() in Keys(before) {
      RetainedKeysAreLive(usable, now, all[..k], e.Key());
      assert false;
    }
    assert Retained(usable, now, all[..k + 1]) == before + [e];
    RetainedExtends(usable, now, all, k + 1);
    var kept := Retained(usable, now, all);
    assert kept[..|before| + 1] == before + [e];
    assert kept[..|before|] == kept[..|before| + 1][..|before|];
  }

  // Nothing listed later is more recent than an entry recorded just now.
  lemma RecordedRank(usable: Usable, now: nat, all: seq<Entry>, i: nat)
    requires i < |Retained(usable, now, all)| && Retained(usable, now, all)[i].lastSeen == now
    requires forall j :: 0 <= j < |all| ==> all[j].lastSeen <= now
    ensures var kept := Retained(usable, now, all); Rank(Recency, kept, i) == CountAtLeast(Recency, kept[..i], now)
  {
    var kept := Retained(usable, now, all);
    forall j | 0 <= j < |kept|
      ensures kept[j].lastSeen <= now
    {
      RetainedMembers(usable, now, all, kept[j]);
    }
    CountNone(kept[i + 1..], now + 1);
  }

  // With a clock that has not run backwards, a recorded address is remembered
  // exactly when it is usable and fewer than max usable ones, listed before it,
  // were recorded in that same second.
  lemma RecordedSurvivesIff(usable: Usable, now: nat, max: nat, entries: seq<Entry>, peerId: string, address: string)
    requires DistinctKeys(entries) && forall i :: 0 <= i < |entries| ==> entries[i].lastSeen <= now
    ensures var all, k := Recorded(entries, peerId, address, now), IndexOf(entries, (peerId, address));
            Entry(peerId, address, now) in Pruned(usable, now, max, all)
            <==> usable(peerId, address) && CountAtLeast(Recency, Retained(usable, now, all[..k]), now) < max
  {
    var all, k := Recorded(entries, peerId, address, now), IndexOf(entries, (peerId, address));
    var e, kept := Entry(peerId, address, now), Retained(usable, now, all);
    if usable(peerId, address) {
      RecordedPosition(usable, now, entries, peerId, address);
      RecordedRank(usable, now, all, |Retained(usable, now, all[..k])|);
      SurvivesIff(usable, now, max, all, |Retained(usable, now, all[..k])|);
    } else if e in Pruned(usable, now, max, all) {
      PrunedMembers(usable, now, max, all, e);
      RetainedMembers(usable, now, all, e);
    }
  }

  // In particular nothing recorded in a new second is lost at once; but a full
  // store forgets an address recorded in the same second as its last one.
  lemma NewSecondIsRemembered(usable: Usable, now: nat, max: nat, entries: seq<Entry>, peerId: string, address: string)
    requires DistinctKeys(entries) && max > 0 && usable(peerId, address)
    requires forall i :: 0 <= i < |entries| ==> entries[i].lastSeen < now
    ensures Entry(peerId, address, now) in Pruned(usable, now, max, Recorded(entries, peerId, address, now))
  {
    var all, k := Recorded(entries, peerId, address, now), IndexOf(entries, (peerId, address));
    var before := Retained(usable, now, all[..k]);
    RecordedSurvivesIff(usable, now, max, entries, peerId, address);
    forall j | 0 <= j < |before|
      ensures before[j].lastSeen < now
    {
      RetainedMembers(usable, now, all[..k], before[j]);
    }
    CountNone(before, now);
  }

  lemma SameSecondIsForgotten(now: nat)
    ensures var usable: Usable := (p, a) => true;
            var entries := [Entry("a", "x", now)];
            Clean(usable, now, 1, entries) && Entry("b", "x", now) !in Pruned(usable, now, 1, Recorded(entries, "b", "x", now))
  {
    var usable: Usable := (p, a) => true;
    var e := Entry("a", "x", now);
    var entries := [e];
    assert entries[..0] == [];
    assert Retained(usable, now, []) == [];
    assert Keys([]) == {};
    assert Retained(usable, now, entries) == [] + [e] == entries;
    assert IndexOf(entries, ("b", "x")) == 1;
    var all := Recorded(entries, "b", "x", now);
    assert all[..1] == entries;
    assert CountAtLeast(Recency, entries, now) == CountAtLeast(Recency, [], now) + 1;
    RecordedSurvivesIff(usable, now, 1, entries, "b", "x");
  }

  // ---- The object ----

  class PeerStore {
    const maxEntries: nat
    var entries: seq<Entry>
    var file: Option<seq<Entry>>
    // The clock and interfaces of the last prune.
    ghost var prunedAt: nat
    ghost var prunedFor: Usable

    ghost predicate Valid()
      reads this
    {
      Clean(prunedFor, prunedAt, maxEntries, entries)
    }

    // An unreadable or missing file counts as an empty one.
    constructor Load(file: Option<seq<Entry>>, maxEntries: nat, usable: Usable, now: nat)
      ensures Valid() && prunedAt == now && prunedFor == usable && this.maxEntries == maxEntries && this.file == file
      ensures entries == Pruned(usable, now, maxEntries, if file.Some? then file.value else [])
    {
      this.maxEntries, this.file := maxEntries, file;
      entries := if file.Some? then file.value else [];
      prunedAt, prunedFor := now, usable;
      new;
      Prune(usable, now);
    }

    method Prune(usable: Usable, now: nat)
      modifies this`entries, this`prunedAt, this`prunedFor
      ensures Valid() && prunedAt == now && prunedFor == usable
      ensures entries == Pruned(usable, now, maxEntries, old(entries))
    {
      var minSeen := Max(now - MAX_PEER_AGE_SECS, 0);
      var kept: seq<Entry>, seen: set<(string, string)> := [], {};
      for i := 0 to |entries|
        invariant entries == old(entries)
        invariant kept == Retained(usable, now, entries[..i]) && seen == Keys(kept)
      {
        var e := entries[i];
        assert entries[..i + 1][..i] == entries[..i];
        RetainStep(usable, now, entries[..i + 1]);
        if e.lastSeen >= minSeen && usable(e.peerId, e.address) {
          if e.Key() !in seen {
            kept := kept + [e];
          }
          seen := seen + {e.Key()};
        }
      }
      assert entries[..|entries|] == entries;
      PruneIsClean(usable, now, maxEntries, entries);
      assert kept == Retained(usable, now, entries);
      entries := Truncated(Descending(Recency, kept), maxEntries);
      prunedAt, prunedFor := now, usable;
    }

    // The address is None when it is not one a peer could be reached at.
    method RecordAddress(peerId: string, address: Option<string>, usable: Usable, now: nat)
      requires Valid()
      modifies this
      ensures Valid()
      ensures address.None? ==> entries == old(entries) && file == old(file)
      ensures address.Some? ==> prunedAt == now && prunedFor == usable && file == Some(entries)
      ensures address.Some? ==> entries == Pruned(usable, now, maxEntries, Recorded(old(entries), peerId, address.value, now))
    {
      if address.None? {
        return;
      }
      var k := IndexOf(entries, (peerId, address.value));
      if k < |entries| {
        entries := entries[k := entries[k].(lastSeen := now)];
      } else {
        entries := entries + [Entry(peerId, address.value, now)];
      }
      Prune(usable, now);
      file := Some(entries);
    }

    method RemoveAddress(peerId: string, address: string)
      requires Valid()
      modifies this`entries, this`file
      ensures Valid()
      ensures entries == Without(old(entries), (peerId, address))
      ensures file == if |entries| == |old(entries)| then old(file) else Some(entries)
    {
      WithoutStaysClean(prunedFor, prunedAt, maxEntries, entries, (peerId, address));
      var kept: seq<Entry> := [];
      for i := 0 to |entries|
        invariant kept == Without(entries[..i], (peerId, address))
      {
        assert entries[..i + 1][..i] == entries[..i];
        if entries[i].Key() != (peerId, address) {
          kept := kept + [entries[i]];
        }
      }
      assert entries[..|entries|] == entries;
      var changed := |kept| != |entries|;
      entries := kept;
      if changed {
        file := Some(entries);
      }
    }
  }

  lemma {:induction false} WithoutMembers(entries: seq<Entry>, key: (string, string), e: Entry)
    ensures e in Without(entries, key) <==> e in entries && e.Key() != key
  {
    if entries != [] {
      WithoutMembers(entries[..|entries| - 1], key, e);
      assert entries == entries[..|entries| - 1] + [entries[|entries| - 1]];
    }
  }

  lemma {:induction false} WithoutStaysClean(usable: Usable, now: nat, max: nat, entries: seq<Entry>, key: (string, string))
    requires Clean(usable, now, max, entries)
    ensures Clean(usable, now, max, Without(entries, key)) && |Without(entries, key)| <= |entries|
  {
    if entries != [] {
      var n := |entries| - 1;
      var front := Without(entries[..n], key);
      WithoutStaysClean(usable, now, max, entries[..n], key);
      forall i | 0 <= i < |front|
        ensures front[i].Key() != entries[n].Key() && front[i].lastSeen >= entries[n].lastSeen
      {
        WithoutMembers(entries[..n], key, front[i]);
      }
    }
  }

  // A restart forgets only what has become too old or unusable meanwhile, and
  // keeps the rest in order: loading never truncates what was saved.
  lemma {:induction false} RestartKeepsLive(usable: Usable, now: nat, max: nat, entries: seq<Entry>)
    requires DistinctKeys(entries) && IsDescending(Recency, entries) && |entries| <= max
    ensures Pruned(usable, now, max, entries) == OnlyLive(usable, now, entries)
  {
    LiveStaysClean(usable, now, entries);
    var live := OnlyLive(usable, now, entries);
    RetainedIsLive(usable, now, entries);
    SortFixes(Recency, live);
  }

  lemma {:induction false} LiveMembers(usable: Usable, now: nat, entries: seq<Entry>, e: Entry)
    requires e in OnlyLive(usable, now, entries)
    ensures e in entries && Live(usable, now, e)
  {
    if entries != [] {
      var n := |entries| - 1;
      if e in OnlyLive(usable, now, entries[..n]) {
        LiveMembers(usable, now, entries[..n], e);
      }
    }
  }

  lemma {:induction false} LiveStaysClean(usable: Usable, now: nat, entries: seq<Entry>)
    requires DistinctKeys(entries) && IsDescending(Recency, entries)
    ensures DistinctKeys(OnlyLive(usable, now, entries)) && IsDescending(Recency, OnlyLive(usable, now, entries))
    ensures |OnlyLive(usable, now, entries)| <= |entries|
  {
    if entries != [] {
      var n := |entries| - 1;
      var front := OnlyLive(usable, now, entries[..n]);
      LiveStaysClean(usable, now, entries[..n]);
      forall i | 0 <= i < |front|
        ensures front[i].Key() != entries[n].Key() && front[i].lastSeen >= entries[n].lastSeen
      {
        LiveMembers(usable, now, entries[..n], front[i]);
      }
    }
  }

  lemma {:induction false} RetainedIsLive(usable: Usable, now: nat, entries: seq<Entry>)
    requires DistinctKeys(entries)
    ensures Retained(usable, now, entries) == OnlyLive(usable, now, entries)
  {
    if entries != [] {
      var n := |entries| - 1;
      RetainedIsLive(usable, now, entries[..n]);
      var front := OnlyLive(usable, now, entries[..n]);
      forall i | 0 <= i < |front|
        ensures front[i].Key() != entries[n].Key()
      {
        LiveMembers(usable, now, entries[..n], front[i]);
      }
    }
  }
}
