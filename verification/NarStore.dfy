// The local nar cache: an in-memory index over a directory of nar files and
// metadata sidecars. The directory is two maps keyed by file stem: `<stem>.nar`
// and `<stem>.json`. Reads and writes succeed; the clock is passed in.

module NarStore {
  import opened Common
  import opened Blocks
  import NixBase32

  datatype SeedSource = Manual | Downloaded | Cache

  datatype Metadata = Metadata(storePath: Option<string>, source: SeedSource, createdAt: nat, updatedAt: nat)

  // A sidecar either parses or is ignored with a warning.
  datatype Sidecar = Parsed(metadata: Metadata) | Garbled

  datatype Entry = Entry(narSize: nat, blockInfo: BlockInfo, storePath: Option<string>, source: SeedSource, createdAt: nat)

  datatype SeededNarInfo = SeededNarInfo(narSize: nat, blockCount: nat, blockSize: nat, storePath: Option<string>, source: SeedSource, createdAt: nat)

  datatype Narinfo = Narinfo(narHash: string, storePath: string)

  datatype Store = Store(nars: map<string, Bytes>, sidecars: map<string, Sidecar>, index: map<string, Entry>)

  datatype Env = Env(h: Hasher, blockSize: nat)

  function ReadMetadata(s: Store, stem: string): Option<Metadata> {
    if stem in s.sidecars && s.sidecars[stem].Parsed? then Some(s.sidecars[stem].metadata) else None
  }

  // ---- What a scan of the directory builds ----

  predicate Indexable(e: Env, s: Store, stem: string) {
    stem in s.nars && Hex(e.h(s.nars[stem])) == stem
  }

  function ScannedEntry(e: Env, s: Store, stem: string): Entry
    requires e.blockSize > 0 && stem in s.nars
  {
    var size := |s.nars[stem]|;
    match ReadMetadata(s, stem)
    case Some(m) => Entry(size, FromFileSize(size, e.blockSize), m.storePath, m.source, m.createdAt)
    case None => Entry(size, FromFileSize(size, e.blockSize), None, Cache, 0)
  }

  function Rescan(e: Env, s: Store): map<string, Entry>
    requires e.blockSize > 0
  {
    map stem | stem in s.nars && Indexable(e, s, stem) :: ScannedEntry(e, s, stem)
  }

  // The part of a rescan that leaves some stems out.
  function RescanBut(e: Env, s: Store, rest: set<string>): map<string, Entry>
    requires e.blockSize > 0
  {
    map stem | stem in s.nars && stem !in rest && Indexable(e, s, stem) :: ScannedEntry(e, s, stem)
  }

  lemma ScanOneMore(e: Env, s: Store, rest: set<string>, stem: string)
    requires e.blockSize > 0 && stem in rest && stem in s.nars
    ensures RescanBut(e, s, rest - {stem})
         == if Indexable(e, s, stem) then RescanBut(e, s, rest)[stem := ScannedEntry(e, s, stem)] else RescanBut(e, s, rest)
  {
  }

  predicate Synced(e: Env, s: Store)
    requires e.blockSize > 0
  {
    s.index == Rescan(e, s)
  }

  // ---- The operations, on values ----

  function WithSidecar(s: Store, stem: string, storePath: Option<string>, source: SeedSource, createdAt: nat, now: nat): Store {
    s.(sidecars := s.sidecars[stem := Parsed(Metadata(storePath, source, createdAt, now))])
  }

  function Saved(e: Env, s: Store, hash: string, data: Bytes, storePath: Option<string>, source: SeedSource, now: nat): Store
    requires e.blockSize > 0
  {
    var createdAt := match ReadMetadata(s, hash) case Some(m) => m.createdAt case None => now;
    var entry := Entry(|data|, FromFileSize(|data|, e.blockSize), storePath, source, createdAt);
    WithSidecar(s.(nars := s.nars[hash := data], index := s.index[hash := entry]), hash, storePath, source, createdAt, now)
  }

  // An already indexed nar becomes a manual seed and keeps the path it had.
  function Reseeded(s: Store, hash: string, storePath: string, now: nat): Store
    requires hash in s.index
  {
    var entry := s.index[hash];
    var path := if entry.storePath.Some? then entry.storePath else Some(storePath);
    WithSidecar(s.(index := s.index[hash := entry.(storePath := path, source := Manual)]), hash, path, Manual, entry.createdAt, now)
  }

  function Annotated(s: Store, hash: string, storePath: string, now: nat): Store {
    if hash in s.index && s.index[hash].storePath.None? && storePath != "" then
      var entry := s.index[hash];
      WithSidecar(s.(index := s.index[hash := entry.(storePath := Some(storePath))]), hash, Some(storePath), entry.source, entry.createdAt, now)
    else s
  }

  // Some NarHash field panics the decoder.
  ghost predicate BreaksOff(narinfos: seq<Narinfo>) {
    exists k :: 0 <= k < |narinfos| && FieldPanics(narinfos[k])
  }

  ghost predicate FieldPanics(narinfo: Narinfo) {
    NixBase32.Sha256Spec(narinfo.narHash).Panic?
  }

  // A field that does not decode is skipped; one that panics ends the whole call.
  ghost function AnnotatedAll(s: Store, narinfos: seq<Narinfo>, now: nat): Store {
    if narinfos == [] then s
    else
      var front, last := narinfos[..|narinfos| - 1], narinfos[|narinfos| - 1];
      var t := AnnotatedAll(s, front, now);
      if BreaksOff(front) then t else AnnotatedBy(t, last, now)
  }

  ghost function AnnotatedBy(s: Store, narinfo: Narinfo, now: nat): Store {
    match NixBase32.Sha256Spec(narinfo.narHash)
    case Decoded(digest) => Annotated(s, Hex(digest), narinfo.storePath, now)
    case _ => s
  }

  function Removed(s: Store, hash: string): Store {
    if hash in s.index then Store(s.nars - {hash}, s.sidecars - {hash}, s.index - {hash}) else s
  }

  // ---- The object ----

  class NarStore {
    const e: Env
    var nars: map<string, Bytes>
    var sidecars: map<string, Sidecar>
    var index: map<string, Entry>

    ghost function View(): Store
      reads this
    {
      Store(nars, sidecars, index)
    }

    constructor (e: Env, nars: map<string, Bytes>, sidecars: map<string, Sidecar>)
      requires e.blockSize > 0
      ensures this.e == e && View().nars == nars && View().sidecars == sidecars
      ensures Synced(e, View())
    {
      this.e, this.nars, this.sidecars, this.index := e, nars, sidecars, map[];
      new;
      Scan();
    }

    // Directory entries come in no particular order.
    method Scan()
      requires e.blockSize > 0 && index == map[]
      modifies this`index
      ensures Synced(e, View())
    {
      var rest := nars.Keys;
      while rest != {}
        invariant rest <= nars.Keys
        invariant index == RescanBut(e, View(), rest)
        decreases rest
      {
        var stem :| stem in rest;
        var data := nars[stem];
        ScanOneMore(e, View(), rest, stem);
        if Hex(e.h(data)) == stem {
          var metadata := ReadMetadataFile(stem);
          var storePath := if metadata.Some? then metadata.value.storePath else None;
          var source := if metadata.Some? then metadata.value.source else Cache;
          var createdAt := if metadata.Some? then metadata.value.createdAt else 0;
          index := index[stem := Entry(|data|, FromFileSize(|data|, e.blockSize), storePath, source, createdAt)];
        }
        rest := rest - {stem};
      }
    }

    method ReadMetadataFile(stem: string) returns (m: Option<Metadata>)
      ensures m == ReadMetadata(View(), stem)
    {
      if stem in sidecars && sidecars[stem].Parsed? {
        return Some(sidecars[stem].metadata);
      }
      return None;
    }

    method WriteMetadata(stem: string, storePath: Option<string>, source: SeedSource, createdAt: nat, now: nat)
      modifies this`sidecars
      ensures View() == WithSidecar(old(View()), stem, storePath, source, createdAt, now)
    {
      sidecars := sidecars[stem := Parsed(Metadata(storePath, source, createdAt, now))];
    }

    method SaveWithSource(hash: string, data: Bytes, storePath: Option<string>, source: SeedSource, now: nat)
      requires e.blockSize > 0
      modifies this
      ensures View() == Saved(e, old(View()), hash, data, storePath, source, now)
    {
      var metadata := ReadMetadataFile(hash);
      var createdAt := if metadata.Some? then metadata.value.createdAt else now;
      nars := nars[hash := data];
      index := index[hash := Entry(|data|, FromFileSize(|data|, e.blockSize), storePath, source, createdAt)];
      WriteMetadata(hash, storePath, source, createdAt, now);
    }

    // `computed` is what `guix hash` printed and `exported` what the serializer
    // wrote; either command may fail.
    method SeedStorePath(storePath: string, computed: Option<string>, exported: Option<Bytes>, now: nat) returns (hash: Option<string>)
      requires e.blockSize > 0
      modifies this
      ensures hash.Some? <==> computed.Some? && (computed.value in old(index) || exported.Some?)
      ensures hash.Some? ==> hash == computed
      ensures View() == if hash.None? then old(View())
                        else if computed.value in old(index) then Reseeded(old(View()), computed.value, storePath, now)
                        else Saved(e, old(View()), computed.value, exported.value, Some(storePath), Manual, now)
    {
      if computed.None? {
        return None;
      }
      var key := computed.value;
      if key in index {
        var entry := index[key];
        var path := if entry.storePath.Some? then entry.storePath else Some(storePath);
        index := index[key := entry.(storePath := path, source := Manual)];
        WriteMetadata(key, path, Manual, entry.createdAt, now);
        return computed;
      }
      if exported.None? {
        return None;
      }
      SaveWithSource(key, exported.value, Some(storePath), Manual, now);
      return computed;
    }

    method AnnotateSeedStorePath(hash: string, storePath: string, now: nat) returns (updated: bool)
      modifies this
      ensures View() == Annotated(old(View()), hash, storePath, now)
      ensures updated <==> hash in old(index) && old(index)[hash].storePath.None? && storePath != ""
    {
      if storePath == "" || hash !in index || index[hash].storePath.Some? {
        return false;
      }
      var entry := index[hash];
      index := index[hash := entry.(storePath := Some(storePath))];
      WriteMetadata(hash, Some(storePath), entry.source, entry.createdAt, now);
      return true;
    }

    // The count is that of the nars that had no store path before and have one now.
    // A panic on the way leaves what the narinfos before it did.
    method AnnotateFromNarinfos(narinfos: seq<Narinfo>, now: nat) returns (updated: nat, panicked: bool)
      modifies this
      ensures View() == AnnotatedAll(old(View()), narinfos, now)
      ensures panicked <==> BreaksOff(narinfos)
      ensures updated == |Labelled(old(index), index)|
    {
      updated := 0;
      assert Labelled(index, index) == {};
      for k := 0 to |narinfos|
        invariant View() == AnnotatedAll(old(View()), narinfos[..k], now) && !BreaksOff(narinfos[..k])
        invariant Relabels(old(index), index) && updated == |Labelled(old(index), index)|
      {
        var narinfo := narinfos[k];
        var decoded := NixBase32.Sha256Bytes(narinfo.narHash);
        OneMoreNarinfo(old(View()), narinfos, k, now);
        if decoded.Panic? {
          BrokenOff(old(View()), narinfos, k, now);
          return updated, true;
        }
        if decoded.Decoded? {
          ghost var before := index;
          var changed := AnnotateSeedStorePath(Hex(decoded.value), narinfo.storePath, now);
          if changed {
            OneMoreLabel(old(index), before, index, Hex(decoded.value));
            updated := updated + 1;
          }
        }
      }
      assert narinfos[..|narinfos|] == narinfos;
      panicked := false;
    }

    method RemoveSeed(hash: string) returns (info: Option<SeededNarInfo>)
      modifies this
      ensures View() == Removed(old(View()), hash)
      ensures info == if hash in old(index) then Some(InfoOf(e, old(index)[hash])) else None
    {
      if hash !in index {
        return None;
      }
      info := Some(InfoOf(e, index[hash]));
      index := index - {hash};
      nars := nars - {hash};
      sidecars := sidecars - {hash};
    }
  }

  lemma OneMoreField(front: seq<Narinfo>, last: Narinfo)
    ensures BreaksOff(front + [last]) <==> BreaksOff(front) || FieldPanics(last)
  {
    var all := front + [last];
    if BreaksOff(front) {
      var j :| 0 <= j < |front| && FieldPanics(front[j]);
      assert all[j] == front[j];
    }
    if FieldPanics(last) {
      assert all[|front|] == last;
    }
  }

  lemma OneMoreNarinfo(s: Store, narinfos: seq<Narinfo>, k: nat, now: nat)
    requires k < |narinfos| && !BreaksOff(narinfos[..k])
    ensures BreaksOff(narinfos[..k + 1]) <==> FieldPanics(narinfos[k])
    ensures AnnotatedAll(s, narinfos[..k + 1], now) == AnnotatedBy(AnnotatedAll(s, narinfos[..k], now), narinfos[k], now)
  {
    OneMoreField(narinfos[..k], narinfos[k]);
    assert narinfos[..k + 1] == narinfos[..k] + [narinfos[k]];
    assert narinfos[..k + 1][..k] == narinfos[..k];
  }

  // What comes after a panic changes nothing.
  lemma {:induction false} BrokenOff(s: Store, narinfos: seq<Narinfo>, k: nat, now: nat)
    requires k < |narinfos| && FieldPanics(narinfos[k])
    ensures BreaksOff(narinfos) && AnnotatedAll(s, narinfos, now) == AnnotatedAll(s, narinfos[..k + 1], now)
  {
    var front := narinfos[..|narinfos| - 1];
    if k == |front| {
      assert narinfos[..k + 1] == narinfos;
    } else {
      assert front[k] == narinfos[k] && front[..k + 1] == narinfos[..k + 1];
      BrokenOff(s, front, k, now);
    }
  }

  // The nars that gained a store path.
  function Labelled(before: map<string, Entry>, after: map<string, Entry>): set<string> {
    set k | k in before && before[k].storePath.None? && k in after && after[k].storePath.Some?
  }

  predicate Relabels(before: map<string, Entry>, after: map<string, Entry>) {
    after.Keys == before.Keys && forall k :: k in after && after[k].storePath.None? ==> before[k].storePath.None?
  }

  lemma OneMoreLabel(start: map<string, Entry>, before: map<string, Entry>, after: map<string, Entry>, hash: string)
    requires Relabels(start, before) && hash in before && before[hash].storePath.None?
    requires after.Keys == before.Keys && after[hash].storePath.Some?
    requires forall k :: k in before && k != hash ==> after[k] == before[k]
    ensures Relabels(start, after) && |Labelled(start, after)| == |Labelled(start, before)| + 1
  {
    assert Labelled(start, after) == Labelled(start, before) + {hash};
  }

  function InfoOf(e: Env, entry: Entry): SeededNarInfo {
    SeededNarInfo(entry.narSize, entry.blockInfo.blockCount, e.blockSize, entry.storePath, entry.source, entry.createdAt)
  }

  // ---- The index is always what a restart would rebuild ----

  // Saving under a name keeps index and directory in step exactly when the name
  // is the hash of the bytes; otherwise a restart would drop the entry.
  lemma SaveKeepsSyncIff(e: Env, s: Store, hash: string, data: Bytes, storePath: Option<string>, source: SeedSource, now: nat)
    requires e.blockSize > 0 && Synced(e, s)
    ensures Synced(e, Saved(e, s, hash, data, storePath, source, now)) <==> Hex(e.h(data)) == hash
  {
    var t := Saved(e, s, hash, data, storePath, source, now);
    SameElsewhere(e, s, t, hash);
    SyncedIff(e, s, t, hash);
    SavedEntry(e, s, hash, data, storePath, source, now);
  }

  lemma SavedEntry(e: Env, s: Store, hash: string, data: Bytes, storePath: Option<string>, source: SeedSource, now: nat)
    requires e.blockSize > 0
    ensures var t := Saved(e, s, hash, data, storePath, source, now);
            hash in t.index && hash in t.nars && ScannedEntry(e, t, hash) == t.index[hash] && (Indexable(e, t, hash) <==> Hex(e.h(data)) == hash)
  {
  }

  // When only one stem changed, that stem decides.
  lemma SyncedIff(e: Env, s: Store, t: Store, hash: string)
    requires e.blockSize > 0 && Synced(e, s)
    requires forall k :: k != hash ==> (k in Rescan(e, t) <==> k in Rescan(e, s)) && (k in Rescan(e, s) ==> Rescan(e, t)[k] == Rescan(e, s)[k])
    requires forall k :: k != hash ==> (k in t.index <==> k in s.index) && (k in s.index ==> t.index[k] == s.index[k])
    ensures Synced(e, t) <==>
              if hash in t.index then Indexable(e, t, hash) && t.index[hash] == ScannedEntry(e, t, hash) else !Indexable(e, t, hash)
  {
    var scanned := Rescan(e, t);
    assert hash in scanned <==> Indexable(e, t, hash);
    if (hash in t.index <==> hash in scanned) && (hash in scanned ==> scanned[hash] == t.index[hash]) {
      assert t.index.Keys == scanned.Keys;
      MapsEqual(t.index, scanned);
    }
  }

  // Entries of a rescan depend on their own files only.
  lemma SameElsewhere(e: Env, s: Store, t: Store, hash: string)
    requires e.blockSize > 0
    requires forall k :: k != hash ==> (k in t.nars <==> k in s.nars) && (k in s.nars ==> t.nars[k] == s.nars[k])
    requires forall k :: k != hash ==> (k in t.sidecars <==> k in s.sidecars) && (k in s.sidecars ==> t.sidecars[k] == s.sidecars[k])
    ensures forall k :: k != hash ==> (k in Rescan(e, t) <==> k in Rescan(e, s)) && (k in Rescan(e, s) ==> Rescan(e, t)[k] == Rescan(e, s)[k])
  {
    forall k | k != hash
      ensures k in Rescan(e, t) <==> k in Rescan(e, s)
      ensures k in Rescan(e, s) ==> Rescan(e, t)[k] == Rescan(e, s)[k]
    {
      assert ReadMetadata(t, k) == ReadMetadata(s, k);
    }
  }

  // A relabelled entry is what its new sidecar says, over the bytes it had.
  lemma EntryIsScanned(e: Env, s: Store, t: Store, hash: string)
    requires e.blockSize > 0 && Synced(e, s) && hash in s.index && t.nars == s.nars
    requires hash in t.index && ReadMetadata(t, hash).Some?
    requires var m := ReadMetadata(t, hash).value;
             t.index[hash] == s.index[hash].(storePath := m.storePath, source := m.source) && m.createdAt == s.index[hash].createdAt
    ensures hash in Rescan(e, t) && Rescan(e, t)[hash] == t.index[hash]
  {
    assert hash in Rescan(e, s) && Indexable(e, s, hash) && Indexable(e, t, hash);
  }

  lemma ReseedKeepsSync(e: Env, s: Store, hash: string, storePath: string, now: nat)
    requires e.blockSize > 0 && Synced(e, s) && hash in s.index
    ensures Synced(e, Reseeded(s, hash, storePath, now))
  {
    var t := Reseeded(s, hash, storePath, now);
    SameElsewhere(e, s, t, hash);
    EntryIsScanned(e, s, t, hash);
    assert forall k :: k != hash ==> (k in t.index <==> k in s.index);
    assert t.index == Rescan(e, t);
  }

  lemma AnnotateKeepsSync(e: Env, s: Store, hash: string, storePath: string, now: nat)
    requires e.blockSize > 0 && Synced(e, s)
    ensures Synced(e, Annotated(s, hash, storePath, now))
  {
    if hash in s.index {
      var t := Annotated(s, hash, storePath, now);
      SameElsewhere(e, s, t, hash);
      if t != s {
        EntryIsScanned(e, s, t, hash);
        assert forall k :: k != hash ==> (k in t.index <==> k in s.index);
        assert t.index == Rescan(e, t);
      }
    }
  }

  lemma {:induction false} AnnotateAllKeepsSync(e: Env, s: Store, narinfos: seq<Narinfo>, now: nat)
    requires e.blockSize > 0 && Synced(e, s)
    ensures Synced(e, AnnotatedAll(s, narinfos, now))
  {
    if narinfos != [] {
      var front, last := narinfos[..|narinfos| - 1], narinfos[|narinfos| - 1];
      AnnotateAllKeepsSync(e, s, front, now);
      var decoded := NixBase32.Sha256Spec(last.narHash);
      if decoded.Decoded? {
        AnnotateKeepsSync(e, AnnotatedAll(s, front, now), Hex(decoded.value), last.storePath, now);
      }
    }
  }

  lemma RemoveKeepsSync(e: Env, s: Store, hash: string)
    requires e.blockSize > 0 && Synced(e, s)
    ensures Synced(e, Removed(s, hash))
  {
    if hash in s.index {
      var t := Removed(s, hash);
      SameElsewhere(e, s, t, hash);
      SyncedIff(e, s, t, hash);
    }
  }

  // ---- Any sequence of operations ----

  datatype Op =
    | Save(hash: string, data: Bytes, storePath: Option<string>, source: SeedSource)
    | Seed(path: string, computed: string, exported: Bytes)
    | Annotate(narinfos: seq<Narinfo>)
    | Remove(removed: string)

  ghost function Applied(e: Env, s: Store, op: Op, now: nat): Store
    requires e.blockSize > 0
  {
    match op
    case Save(hash, data, storePath, source) => Saved(e, s, hash, data, storePath, source, now)
    case Seed(path, computed, exported) =>
      if computed in s.index then Reseeded(s, computed, path, now) else Saved(e, s, computed, exported, Some(path), Manual, now)
    case Annotate(narinfos) => AnnotatedAll(s, narinfos, now)
    case Remove(hash) => Removed(s, hash)
  }

  // The caller passed the nar's own hash; nothing is asked of the other operations.
  predicate TrueHash(e: Env, s: Store, op: Op) {
    match op
    case Save(hash, data, _, _) => Hex(e.h(data)) == hash
    case Seed(_, computed, exported) => computed in s.index || Hex(e.h(exported)) == computed
    case _ => true
  }

  ghost function AppliedAll(e: Env, s: Store, ops: seq<(Op, nat)>): Store
    requires e.blockSize > 0
  {
    if ops == [] then s
    else
      var n := |ops| - 1;
      Applied(e, AppliedAll(e, s, ops[..n]), ops[n].0, ops[n].1)
  }

  // An operation keeps the index in step exactly when it was given a true hash.
  lemma OperationKeepsSyncIff(e: Env, s: Store, op: Op, now: nat)
    requires e.blockSize > 0 && Synced(e, s)
    ensures Synced(e, Applied(e, s, op, now)) <==> TrueHash(e, s, op)
  {
    match op {
      case Save(hash, data, storePath, source) => SaveKeepsSyncIff(e, s, hash, data, storePath, source, now);
      case Seed(path, computed, exported) =>
        if computed in s.index {
          ReseedKeepsSync(e, s, computed, path, now);
        } else {
          SaveKeepsSyncIff(e, s, computed, exported, Some(path), Manual, now);
        }
      case Annotate(narinfos) => AnnotateAllKeepsSync(e, s, narinfos, now);
      case Remove(hash) => RemoveKeepsSync(e, s, hash);
    }
  }

  lemma {:induction false} IndexAlwaysEqualsRescan(e: Env, s: Store, ops: seq<(Op, nat)>)
    requires e.blockSize > 0 && Synced(e, s)
    requires forall n :: 0 <= n < |ops| ==> TrueHash(e, AppliedAll(e, s, ops[..n]), ops[n].0)
    ensures Synced(e, AppliedAll(e, s, ops))
  {
    if ops != [] {
      var n := |ops| - 1;
      var front := ops[..n];
      forall m | 0 <= m < n
        ensures TrueHash(e, AppliedAll(e, s, front[..m]), front[m].0)
      {
        assert front[..m] == ops[..m];
      }
      IndexAlwaysEqualsRescan(e, s, front);
      OperationKeepsSyncIff(e, AppliedAll(e, s, front), ops[n].0, ops[n].1);
    }
  }

  // Once a nar has a readable sidecar, no operation but its removal changes when
  // it was created, whatever the clock says.
  lemma CreationTimeIsStable(e: Env, s: Store, op: Op, now: nat, k: string)
    requires e.blockSize > 0 && Synced(e, s) && TrueHash(e, s, op)
    requires k in s.index && ReadMetadata(s, k).Some? && op != Remove(k)
    ensures var t := Applied(e, s, op, now);
            k in t.index && ReadMetadata(t, k).Some? && t.index[k].createdAt == s.index[k].createdAt
  {
    if op.Annotate? {
      AnnotationKeepsCreation(s, op.narinfos, now, k);
    }
  }

  lemma {:induction false} AnnotationKeepsCreation(s: Store, narinfos: seq<Narinfo>, now: nat, k: string)
    requires k in s.index && ReadMetadata(s, k).Some?
    ensures var t := AnnotatedAll(s, narinfos, now);
            k in t.index && ReadMetadata(t, k).Some? && t.index[k].createdAt == s.index[k].createdAt
  {
    if narinfos != [] {
      AnnotationKeepsCreation(s, narinfos[..|narinfos| - 1], now, k);
    }
  }
}
