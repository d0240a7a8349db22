// A provider and a downloader whose block sizes differ. The handshake states the
// provider's, the downloader ignores it: when the two counts differ, no download
// of a nar of known size can ever deliver it, however honest everybody is.

module BlockSizes {
  import opened Common
  import opened Blocks
  import opened Ledger
  import opened Invariants
  import opened Progress
  import opened DownloadLoop
  import opened LoopResults
  import opened Serving
  import NarStore

  // The count is the downloader's, the hashes are the provider's.
  ghost predicate CountedAndHashed(c: Setup, data: Bytes, provider: nat, downloader: nat) {
    && provider > 0 && downloader > 0 && data != []
    && c.info.blockCount == CeilDiv(|data|, downloader) % U32_LIMIT
    && HashedFrom(c.h, c.info, data, provider)
  }

  // What the downloader makes of an honest handshake is such a pair.
  lemma HandshakeCountsAndHashes(e: NarStore.Env, s: NarStore.Store, key: string, downloader: nat, c: Setup)
    requires e.blockSize > 0 && downloader > 0 && NarStore.Synced(e, s) && key in s.index && c.h == e.h
    requires HonestInfo(e, s, key, downloader, c.info)
    ensures CountedAndHashed(c, s.nars[key], e.blockSize, downloader)
  {
    HonestHashesAre(e, s, key);
    CountIs(|s.nars[key]|, downloader);
  }

  ghost predicate HonestInfo(e: NarStore.Env, s: NarStore.Store, key: string, downloader: nat, info: BlockInfo)
    requires e.blockSize > 0 && downloader > 0
  {
    && key in s.nars && s.nars[key] != [] && AnswerHandshake(e, s, key).Some? && AnswerHandshake(e, s, key).value.HandshakeReply?
    && var reply := AnswerHandshake(e, s, key).value;
       info == DownloadBlockInfo(|s.nars[key]|, downloader, reply.blockCount, NormalizeHashes(reply.blockHashes))
  }

  // More slots than hashes: the slots beyond the list stay empty.
  lemma TooManySlots(c: Setup, receivers: Receivers, data: Bytes, provider: nat, downloader: nat)
    requires CountedAndHashed(c, data, provider, downloader) && LedgerValid(c.h, c.info, receivers)
    requires c.info.blockCount > CeilDiv(|data|, provider)
    ensures !LedgerComplete(receivers, c.info.blockCount)
  {
    ChunksCount(data, provider);
    var i := CeilDiv(|data|, provider);
    assert |c.info.blockHashes| == i;
    if Held(receivers, i) {
      HeldHasHash(c, receivers, i);
    }
  }

  lemma HeldHasHash(c: Setup, receivers: Receivers, i: nat)
    requires LedgerValid(c.h, c.info, receivers) && Held(receivers, i)
    ensures i < |c.info.blockHashes|
  {
    var p :| Holds(receivers, p, i);
    assert SlotsMatch(c.h, c.info.blockHashes, receivers[p]);
  }

  // Fewer slots than hashes: what fits in them is a beginning of the nar.
  lemma TooFewSlots(c: Setup, receivers: Receivers, data: Bytes, provider: nat, downloader: nat, parts: seq<Bytes>)
    requires CountedAndHashed(c, data, provider, downloader) && LedgerValid(c.h, c.info, receivers)
    requires Genuine(receivers, data, provider) && IsChoice(receivers, c.info.blockCount, parts)
    requires c.info.blockCount < CeilDiv(|data|, provider)
    ensures |Flatten(parts)| < |data|
  {
    var all, n := Chunks(data, provider), c.info.blockCount;
    ChunksCount(data, provider);
    forall i | 0 <= i < n
      ensures parts[i] == all[i]
    {
      var p :| CopyOf(receivers, p, i, parts[i]);
    }
    assert parts == all[..n];
    BeginningIsShorter(data, provider, n);
  }

  lemma BeginningIsShorter(data: Bytes, size: nat, n: nat)
    requires size > 0 && n < |Chunks(data, size)|
    ensures |Flatten(Chunks(data, size)[..n])| < |data|
  {
    var all := Chunks(data, size);
    FlattenAppend(all[..n], all[n..]);
    assert all[..n] + all[n..] == all;
    ChunksFlatten(data, size);
    ChunkAt(data, size, n);
    assert Flatten(all[n..]) == all[n] + Flatten(all[n..][1..]);
  }

  // So, with or without panics on the way, and whatever is sent, nothing is ever
  // delivered when the two counts differ.
  lemma MisfitNeverDelivers(w: Course, data: Bytes, provider: nat, downloader: nat, narHash: string, r: Result<(Bytes, string), DownloadError>)
    requires IsCourse(w) && CountedAndHashed(w.c, data, provider, downloader)
    requires w.c.info.blockCount != CeilDiv(|data|, provider)
    requires HonestNotices(w.c.h, w.ticks, data, provider) && Outcome(w.c, narHash, |data|, End(w), r)
    ensures r == Err(Incomplete)
  {
    CourseKeeps(w, |w.ticks|);
    if w.c.info.blockCount > CeilDiv(|data|, provider) {
      TooManySlots(w.c, End(w).receivers, data, provider, downloader);
    } else if LedgerComplete(End(w).receivers, w.c.info.blockCount) {
      CourseStaysGenuine(w, data, provider);
      ShortJoin(w.c, narHash, End(w), data, provider, downloader, r);
    }
  }

  lemma CourseStaysGenuine(w: Course, data: Bytes, size: nat)
    requires IsCourse(w) && HashedFrom(w.c.h, w.c.info, data, size) && HonestNotices(w.c.h, w.ticks, data, size)
    ensures Genuine(End(w).receivers, data, size)
  {
    CourseIsRun(w, |w.ticks|);
    CourseIsHonest(w, |w.ticks|, data, size);
    InitialInv(w.c, w.offers);
    RunStaysGenuine(w.c, Initial(w.c, w.offers), RunOf(w, |w.ticks|), data, size);
  }

  lemma ShortJoin(c: Setup, narHash: string, end: State, data: Bytes, provider: nat, downloader: nat, r: Result<(Bytes, string), DownloadError>)
    requires CountedAndHashed(c, data, provider, downloader) && LedgerValid(c.h, c.info, end.receivers)
    requires Genuine(end.receivers, data, provider) && LedgerComplete(end.receivers, c.info.blockCount)
    requires c.info.blockCount < CeilDiv(|data|, provider) && Outcome(c, narHash, |data|, end, r)
    ensures r == Err(Incomplete)
  {
    var parts :| IsChoice(end.receivers, c.info.blockCount, parts) && OutcomeOf(c, narHash, |data|, parts, r);
    TooFewSlots(c, end.receivers, data, provider, downloader, parts);
  }

  // From the handshake on: what an honest provider announces for a nar of known size,
  // counted in blocks of another size, delivers nothing unless both sizes give as many.
  lemma HonestMisfitNeverDelivers(e: NarStore.Env, s: NarStore.Store, key: string, downloader: nat, w: Course, narHash: string, r: Result<(Bytes, string), DownloadError>)
    requires e.blockSize > 0 && downloader > 0 && NarStore.Synced(e, s) && key in s.index && w.c.h == e.h
    requires HonestInfo(e, s, key, downloader, w.c.info) && IsCourse(w)
    requires CeilDiv(|s.nars[key]|, downloader) % U32_LIMIT != CeilDiv(|s.nars[key]|, e.blockSize)
    requires HonestNotices(w.c.h, w.ticks, s.nars[key], e.blockSize) && Outcome(w.c, narHash, |s.nars[key]|, End(w), r)
    ensures r == Err(Incomplete)
  {
    HandshakeCountsAndHashes(e, s, key, downloader, w.c);
    MisfitNeverDelivers(w, s.nars[key], e.blockSize, downloader, narHash, r);
  }
}
