// The serving side of the block protocol and its agreement with the downloader.

module Serving {
  import opened Common
  import opened Blocks
  import opened Ledger
  import opened Scheduler
  import opened Invariants
  import opened DispatchQuality
  import opened NarStore

  datatype Response =
    | HandshakeReply(blocksAvailable: seq<nat>, blockCount: nat, blockSize: nat, blockHashes: seq<Bytes>)
    | BlocksReply(data: Reply)
    | ErrorReply

  function UpTo(n: nat): (s: seq<nat>)
    ensures |s| == n && forall i :: 0 <= i < n ==> s[i] == i
  {
    seq(n, i => i)
  }

  // The file can have vanished since it was indexed.
  function AnswerHandshake(e: Env, s: Store, key: string): Option<Response>
    requires e.blockSize > 0
  {
    if key !in s.index then None
    else if key !in s.nars then Some(HandshakeReply([], 0, e.blockSize, []))
    else
      var n := s.index[key].blockInfo.blockCount;
      Some(HandshakeReply(UpTo(n), n, e.blockSize, ComputeBlockHashes(e.h, s.nars[key], e.blockSize)))
  }

  // filter_map over the requested indices.
  function Slices(data: Bytes, blockSize: nat, indices: seq<nat>): Reply {
    if indices == [] then []
    else
      var i, rest := indices[0], Slices(data, blockSize, indices[1..]);
      var off := i * blockSize;
      if off >= |data| then rest else [(i, data[off..Min(off + blockSize, |data|)])] + rest
  }

  function ServeBlocks(e: Env, s: Store, key: string, indices: seq<nat>): Option<Response> {
    if key !in s.index || key !in s.nars then None
    else
      var blocks := Slices(s.nars[key], e.blockSize, indices);
      if blocks == [] then Some(ErrorReply) else Some(BlocksReply(blocks))
  }

  // ---- Serving is slicing the nar into its chunks ----

  function Genuine1(data: Bytes, size: nat, i: nat): (nat, Bytes)
    requires size > 0 && i < |Chunks(data, size)|
  {
    (i, Chunks(data, size)[i])
  }

  function GenuineBlocks(data: Bytes, size: nat, indices: seq<nat>): (r: Reply)
    requires size > 0 && forall k :: 0 <= k < |indices| ==> indices[k] < |Chunks(data, size)|
    ensures |r| == |indices|
    ensures forall k :: 0 <= k < |indices| ==> r[k] == Genuine1(data, size, indices[k])
  {
    seq(|indices|, k requires 0 <= k < |indices| => Genuine1(data, size, indices[k]))
  }

  lemma BeyondEnd(data: Bytes, size: nat, i: nat)
    requires size > 0
    ensures i * size >= |data| <==> i >= |Chunks(data, size)|
  {
    var n := |Chunks(data, size)|;
    ChunksCount(data, size);
    if i < n {
      ChunkAt(data, size, i);
    } else {
      CeilCovers(|data|, size, i);
    }
  }

  function InRange(n: nat, indices: seq<nat>): (r: seq<nat>)
    ensures forall k :: 0 <= k < |r| ==> r[k] < n
    ensures (forall k :: 0 <= k < |indices| ==> indices[k] < n) ==> r == indices
  {
    if indices == [] then []
    else
      assert indices == [indices[0]] + indices[1..];
      (if indices[0] < n then [indices[0]] else []) + InRange(n, indices[1..])
  }

  // Indices past the end are dropped; the others come back, in order and as often
  // as asked for, as the nar's chunks.
  lemma {:induction false} SlicesAreChunks(data: Bytes, size: nat, indices: seq<nat>)
    requires size > 0
    ensures Slices(data, size, indices) == GenuineBlocks(data, size, InRange(|Chunks(data, size)|, indices))
  {
    var n := |Chunks(data, size)|;
    if indices != [] {
      SlicesAreChunks(data, size, indices[1..]);
      var rest := Slices(data, size, indices[1..]);
      if indices[0] < n {
        HeadInRange(data, size, indices, indices[0], rest);
        GenuineCons(data, size, indices[0], InRange(n, indices[1..]));
      } else {
        HeadPastEnd(data, size, indices, indices[0], rest);
        assert [] + InRange(n, indices[1..]) == InRange(n, indices[1..]);
      }
    }
  }

  lemma HeadInRange(data: Bytes, size: nat, indices: seq<nat>, i: nat, rest: Reply)
    requires size > 0 && indices != [] && i == indices[0] && i < |Chunks(data, size)| && rest == Slices(data, size, indices[1..])
    ensures Slices(data, size, indices) == [Genuine1(data, size, i)] + rest
  {
    SliceIsChunk(data, size, i);
    SlicesKeeps(data, size, indices, i * size, Chunks(data, size)[i], rest);
  }

  lemma HeadPastEnd(data: Bytes, size: nat, indices: seq<nat>, i: nat, rest: Reply)
    requires size > 0 && indices != [] && i == indices[0] && i >= |Chunks(data, size)| && rest == Slices(data, size, indices[1..])
    ensures Slices(data, size, indices) == rest
  {
    BeyondEnd(data, size, i);
    SlicesSkips(data, size, indices, i * size);
  }

  lemma SlicesKeeps(data: Bytes, size: nat, indices: seq<nat>, off: nat, block: Bytes, rest: Reply)
    requires indices != [] && off == indices[0] * size && off < |data| && block == data[off..Min(off + size, |data|)]
    requires rest == Slices(data, size, indices[1..])
    ensures Slices(data, size, indices) == [(indices[0], block)] + rest
  {
  }

  lemma SlicesSkips(data: Bytes, size: nat, indices: seq<nat>, off: nat)
    requires indices != [] && off == indices[0] * size && off >= |data|
    ensures Slices(data, size, indices) == Slices(data, size, indices[1..])
  {
  }

  lemma GenuineCons(data: Bytes, size: nat, i: nat, rest: seq<nat>)
    requires size > 0 && i < |Chunks(data, size)| && forall k :: 0 <= k < |rest| ==> rest[k] < |Chunks(data, size)|
    ensures GenuineBlocks(data, size, [i] + rest) == [Genuine1(data, size, i)] + GenuineBlocks(data, size, rest)
  {
    assert forall k :: 0 <= k < |rest| ==> ([i] + rest)[k + 1] == rest[k];
  }

  lemma SliceIsChunk(data: Bytes, size: nat, i: nat)
    requires size > 0 && i < |Chunks(data, size)|
    ensures var off := i * size; off < |data| && data[off..Min(off + size, |data|)] == Chunks(data, size)[i]
  {
    BeyondEnd(data, size, i);
    ChunkAt(data, size, i);
    assert (i + 1) * size == i * size + size;
  }

  ghost predicate ServedAsAdvertised(e: Env, s: Store, key: string, hashes: seq<Bytes>, i: nat)
    requires e.blockSize > 0 && key in s.nars
  {
    && i < |hashes| && i < |Chunks(s.nars[key], e.blockSize)|
    && ServeBlocks(e, s, key, [i]) == Some(BlocksReply([Genuine1(s.nars[key], e.blockSize, i)]))
    && e.h(Genuine1(s.nars[key], e.blockSize, i).1) == hashes[i]
  }

  // Everything a store advertises can be served, and hashes as advertised,
  // exactly when the nar is non-empty: an empty nar advertises a block 0 it has
  // no bytes and no hash for.
  lemma AdvertisedIsServableIff(e: Env, s: Store, key: string)
    requires e.blockSize > 0 && Synced(e, s) && key in s.index
    ensures key in s.nars && AnswerHandshake(e, s, key).Some? && AnswerHandshake(e, s, key).value.HandshakeReply?
    ensures var reply := AnswerHandshake(e, s, key).value;
            (forall i :: i in reply.blocksAvailable ==> ServedAsAdvertised(e, s, key, reply.blockHashes, i))
            <==> s.nars[key] != []
  {
    assert key in Rescan(e, s);
    var data := s.nars[key];
    var reply := AnswerHandshake(e, s, key).value;
    assert |reply.blocksAvailable| == FromFileSize(|data|, e.blockSize).blockCount;
    if data == [] {
      assert reply.blocksAvailable[0] == 0;
      assert !ServedAsAdvertised(e, s, key, reply.blockHashes, 0);
    } else {
      CountNeverExceeds(data, e.blockSize);
      forall i | i in reply.blocksAvailable
        ensures ServedAsAdvertised(e, s, key, reply.blockHashes, i)
      {
        ServesOne(data, e.blockSize, i);
      }
    }
  }

  lemma ServesOne(data: Bytes, size: nat, i: nat)
    requires size > 0 && i < |Chunks(data, size)|
    ensures Slices(data, size, [i]) == [Genuine1(data, size, i)]
  {
    SlicesAreChunks(data, size, [i]);
    assert GenuineBlocks(data, size, [i]) == [Genuine1(data, size, i)];
  }

  lemma CountNeverExceeds(data: Bytes, size: nat)
    requires size > 0 && data != []
    ensures FromFileSize(|data|, size).blockCount <= |Chunks(data, size)|
  {
    var bs := Min(size, |data|);
    ChunksClamp(data, size);
    ChunksCount(data, bs);
    GeometryOfSize(|data|, bs);
  }

  // ---- The downloader's view of an honest handshake ----

  // Wire hashes are padded with zeros or cut to 32 bytes.
  function HashArray(hash: Bytes): Digest {
    if |hash| >= 32 then hash[..32] else hash + seq(32 - |hash|, _ => 0 as byte)
  }

  function NormalizeHashes(hashes: seq<Bytes>): (r: seq<Digest>)
    ensures |r| == |hashes|
  {
    seq(|hashes|, i requires 0 <= i < |hashes| => HashArray(hashes[i]))
  }

  // The block geometry a download starts from: the advertised count when the
  // narinfo gives no size, the narinfo's size otherwise.
  function DownloadBlockInfo(narSize: nat, blockSize: nat, firstCount: nat, firstHashes: seq<Digest>): BlockInfo
    requires blockSize > 0
  {
    if narSize == 0 then BlockInfo(firstCount, blockSize, blockSize, firstHashes)
    else FromFileSize(narSize, blockSize).(blockHashes := firstHashes)
  }

  lemma HonestHashesAre(e: Env, s: Store, key: string)
    requires e.blockSize > 0 && Synced(e, s) && key in s.index
    ensures key in s.nars && AnswerHandshake(e, s, key).Some? && AnswerHandshake(e, s, key).value.HandshakeReply?
    ensures var reply := AnswerHandshake(e, s, key).value;
            && NormalizeHashes(reply.blockHashes) == ComputeBlockHashes(e.h, s.nars[key], e.blockSize)
            && reply.blockCount == FromFileSize(|s.nars[key]|, e.blockSize).blockCount
  {
    assert key in Rescan(e, s);
    var hashes := ComputeBlockHashes(e.h, s.nars[key], e.blockSize);
    forall i | 0 <= i < |hashes|
      ensures HashArray(hashes[i]) == hashes[i]
    {
      assert hashes[i][..32] == hashes[i];
    }
  }

  // The count a file size gives, before any clamp matters.
  lemma CountIs(length: nat, size: nat)
    requires size > 0 && length > 0
    ensures FromFileSize(length, size).blockCount == CeilDiv(length, size) % U32_LIMIT
  {
    var bs := Min(size, length);
    GeometryOfSize(length, bs);
    if size > length {
      CeilDivIs(length, size, 1);
      CeilDivIs(length, length, 1);
    }
  }

  // The size the downloader's count is cut by: its own when the narinfo gives the
  // nar's size, the provider's otherwise. The block size a handshake states is
  // never looked at.
  function CountedBy(narSize: nat, provider: nat, downloader: nat): nat {
    if narSize == 0 then provider else downloader
  }

  // An honest provider leads the downloader to exactly the nar's blocks, as the
  // provider cuts them, if and only if the nar is not empty and the downloader's
  // count, cut by its own block size, is the number of those blocks.
  lemma HonestHandshakeFitsIff(e: Env, s: Store, key: string, narSize: nat, downloader: nat)
    requires e.blockSize > 0 && downloader > 0 && Synced(e, s) && key in s.index
    requires narSize == 0 || narSize == |s.nars[key]|
    ensures var reply := AnswerHandshake(e, s, key).value;
            var info := DownloadBlockInfo(narSize, downloader, reply.blockCount, NormalizeHashes(reply.blockHashes));
            HashesOf(e.h, info, s.nars[key], e.blockSize) <==>
              && s.nars[key] != []
              && CeilDiv(|s.nars[key]|, CountedBy(narSize, e.blockSize, downloader)) % U32_LIMIT == CeilDiv(|s.nars[key]|, e.blockSize)
  {
    var data := s.nars[key];
    HonestHashesAre(e, s, key);
    if data != [] {
      ChunksCount(data, e.blockSize);
      CountIs(|data|, CountedBy(narSize, e.blockSize, downloader));
    }
  }

  // So with one block size on both sides it fits whenever the count fits 32 bits.
  lemma SameBlockSizeFitsIff(e: Env, s: Store, key: string, narSize: nat)
    requires e.blockSize > 0 && Synced(e, s) && key in s.index
    requires narSize == 0 || narSize == |s.nars[key]|
    ensures var reply := AnswerHandshake(e, s, key).value;
            var info := DownloadBlockInfo(narSize, e.blockSize, reply.blockCount, NormalizeHashes(reply.blockHashes));
            HashesOf(e.h, info, s.nars[key], e.blockSize) <==> 0 < |Chunks(s.nars[key], e.blockSize)| < U32_LIMIT
  {
    var data := s.nars[key];
    HonestHandshakeFitsIff(e, s, key, narSize, e.blockSize);
    ChunksCount(data, e.blockSize);
    SmallMod(CeilDiv(|data|, e.blockSize), U32_LIMIT);
    if data == [] {
      assert Chunks(data, e.blockSize) == [];
    } else {
      GeometryOfSize(|data|, Min(e.blockSize, |data|));
      ChunksClamp(data, e.blockSize);
      ChunksCount(data, Min(e.blockSize, |data|));
    }
  }

  // And with a known size and a count within 32 bits, exactly when both sides cut
  // the nar into equally many blocks.
  lemma KnownSizeFitsIff(e: Env, s: Store, key: string, downloader: nat)
    requires e.blockSize > 0 && downloader > 0 && Synced(e, s) && key in s.index
    requires s.nars[key] != [] && CeilDiv(|s.nars[key]|, downloader) < U32_LIMIT
    ensures var reply := AnswerHandshake(e, s, key).value;
            var info := DownloadBlockInfo(|s.nars[key]|, downloader, reply.blockCount, NormalizeHashes(reply.blockHashes));
            HashesOf(e.h, info, s.nars[key], e.blockSize) <==>
              CeilDiv(|s.nars[key]|, downloader) == CeilDiv(|s.nars[key]|, e.blockSize)
  {
    HonestHandshakeFitsIff(e, s, key, |s.nars[key]|, downloader);
    SmallMod(CeilDiv(|s.nars[key]|, downloader), U32_LIMIT);
  }

  // Eight bytes, served in fours and counted in twos: four blocks, two hashes.
  lemma BlockSizesCanDisagree(e: Env, s: Store, key: string)
    requires e.blockSize == 4 && Synced(e, s) && key in s.index && |s.nars[key]| == 8
    ensures var reply := AnswerHandshake(e, s, key).value;
            var info := DownloadBlockInfo(8, 2, reply.blockCount, NormalizeHashes(reply.blockHashes));
            info.blockCount == 4 && |info.blockHashes| == 2
  {
    HonestHashesAre(e, s, key);
    ChunksCount(s.nars[key], 4);
    CountIs(8, 2);
  }

  // ---- A lone honest provider ----

  function PendingSet(s: Sched): set<nat> {
    set i | 0 <= i < |s.blocks| && s.blocks[i].Pending?
  }

  // Between rounds: one peer, holding every block, with nothing outstanding.
  ghost predicate Resting(c: Setup, st: State, p: PeerId, data: Bytes, size: nat) {
    && Inv(c, st) && c.maxInFlight >= 1
    && HashesOf(c.h, c.info, data, size) && Genuine(st.receivers, data, size)
    && st.sched.peers.Keys == {p} && st.sched.peers[p].inFlight == {}
    && (forall i :: 0 <= i < c.info.blockCount ==> i in st.sched.peers[p].available)
  }

  // One round: dispatch, and the provider's answer to the request it gets.
  ghost predicate HonestRound(c: Setup, st: State, p: PeerId, data: Bytes, size: nat, now: nat, picks: Picks, batch: seq<nat>, end: State)
    requires Resting(c, st, p, data, size)
  {
    && IsDispatch(st.sched, c.maxInFlight, now, picks)
    && StrictlyIncreasing(batch) && Elements(batch) == Given(picks, p)
    && (forall k :: 0 <= k < |batch| ==> batch[k] < |Chunks(data, size)|)
    && end == Next(c, Next(c, st, Dispatch(now, picks)), Answer(p, GenuineBlocks(data, size, batch)))
  }

  // The single peer is sent the smaller of its capacity and what is left.
  lemma RoundSize(c: Setup, st: State, p: PeerId, data: Bytes, size: nat, now: nat, picks: Picks)
    requires Resting(c, st, p, data, size) && IsDispatch(st.sched, c.maxInFlight, now, picks)
    ensures Given(picks, p) <= PendingSet(st.sched)
    ensures |Given(picks, p)| == Min(c.maxInFlight, |PendingSet(st.sched)|)
  {
    var given, pending := Given(picks, p), PendingSet(st.sched);
    GivenFits(st.sched, c.maxInFlight, now, picks, p);
    SubsetCard(given, pending);
    if given != pending {
      var i :| i in pending && i !in given;
      LeftPending(c, st, p, data, size, now, picks, i);
      LeftMeansFull(st.sched, c.maxInFlight, now, picks, i, p);
    }
  }

  lemma GivenFits(s: Sched, maxInFlight: nat, now: nat, picks: Picks, p: PeerId)
    requires SchedInv(s, maxInFlight) && IsDispatch(s, maxInFlight, now, picks)
    requires p in s.peers && s.peers[p].inFlight == {}
    ensures Given(picks, p) <= PendingSet(s) && |Given(picks, p)| <= maxInFlight
  {
    PickedArePending(s, maxInFlight, now, picks);
    assert forall i :: i in Given(picks, p) ==> i in Assigned(picks);
    CountsAdd(s, maxInFlight, now, picks, p);
    PicksKeep(s, picks, now, maxInFlight);
  }

  lemma LeftMeansFull(s: Sched, maxInFlight: nat, now: nat, picks: Picks, i: nat, p: PeerId)
    requires SchedInv(s, maxInFlight) && IsDispatch(s, maxInFlight, now, picks)
    requires p in s.peers && s.peers[p].inFlight == {} && i < |s.blocks|
    requires AfterPicks(s, picks, now).blocks[i].Pending? && i in s.peers[p].available
    ensures |Given(picks, p)| >= maxInFlight
  {
    CountsAdd(s, maxInFlight, now, picks, p);
    RoundIsMaximal(s, maxInFlight, now, picks, i, p);
  }

  lemma LeftPending(c: Setup, st: State, p: PeerId, data: Bytes, size: nat, now: nat, picks: Picks, i: nat)
    requires Resting(c, st, p, data, size) && IsDispatch(st.sched, c.maxInFlight, now, picks)
    requires i in PendingSet(st.sched) && i !in Given(picks, p)
    ensures AfterPicks(st.sched, picks, now).blocks[i].Pending? && i in st.sched.peers[p].available
  {
    OnlyPeerIsPicked(c, st, p, data, size, now, picks);
    assert i !in Assigned(picks);
  }

  // All of a batch was accepted, each block with its own chunk.
  ghost predicate AllAccepted(slots: Slots, s: Slots, accepted: seq<nat>, data: Bytes, size: nat, batch: seq<nat>)
    requires size > 0 && |slots| <= |Chunks(data, size)|
  {
    && accepted == batch && |s| == |slots|
    && forall i :: 0 <= i < |slots| ==> s[i] == if i in batch then Some(Chunks(data, size)[i]) else slots[i]
  }

  // The provider's answer is accepted in full.
  lemma {:induction false} HonestReplyIsAccepted(c: Setup, slots: Slots, data: Bytes, size: nat, batch: seq<nat>)
    requires HashesOf(c.h, c.info, data, size) && |slots| == c.info.blockCount
    requires StrictlyIncreasing(batch)
    requires forall k :: 0 <= k < |batch| ==> batch[k] < |slots| && slots[batch[k]].None?
    ensures var (s, accepted) := Recorded(c.h, c.info.blockHashes, slots, GenuineBlocks(data, size, batch));
            AllAccepted(slots, s, accepted, data, size, batch)
  {
    if batch != [] {
      var n := |batch| - 1;
      HonestReplyIsAccepted(c, slots, data, size, batch[..n]);
      GenuineFront(data, size, batch);
      LastIsNew(batch);
      ChunkMatches(c, data, size, batch[n]);
      LastAccepted(c, slots, GenuineBlocks(data, size, batch), data, size, batch[..n], batch[n]);
    }
  }

  lemma LastIsNew(batch: seq<nat>)
    requires batch != [] && StrictlyIncreasing(batch)
    ensures var n := |batch| - 1; batch[n] !in batch[..n] && batch == batch[..n] + [batch[n]]
  {
  }

  lemma LastAccepted(c: Setup, slots: Slots, reply: Reply, data: Bytes, size: nat, front: seq<nat>, last: nat)
    requires size > 0 && |slots| <= |Chunks(data, size)| && |slots| <= |c.info.blockHashes|
    requires last < |slots| && slots[last].None? && last !in front && c.h(Chunks(data, size)[last]) == c.info.blockHashes[last]
    requires reply != [] && reply[|reply| - 1] == (last, Chunks(data, size)[last])
    requires var (s, accepted) := Recorded(c.h, c.info.blockHashes, slots, reply[..|reply| - 1]);
             AllAccepted(slots, s, accepted, data, size, front)
    ensures var (s, accepted) := Recorded(c.h, c.info.blockHashes, slots, reply);
            AllAccepted(slots, s, accepted, data, size, front + [last])
  {
    OneMoreAccepted(c, slots, reply, last, Chunks(data, size)[last]);
    AcceptStep(slots, Recorded(c.h, c.info.blockHashes, slots, reply[..|reply| - 1]).0, data, size, front, last);
  }

  lemma ChunkMatches(c: Setup, data: Bytes, size: nat, i: nat)
    requires HashesOf(c.h, c.info, data, size) && i < c.info.blockCount
    ensures i < |Chunks(data, size)| && c.h(Chunks(data, size)[i]) == c.info.blockHashes[i]
  {
  }

  lemma GenuineFront(data: Bytes, size: nat, batch: seq<nat>)
    requires size > 0 && batch != [] && forall k :: 0 <= k < |batch| ==> batch[k] < |Chunks(data, size)|
    ensures var n := |batch| - 1; var reply := GenuineBlocks(data, size, batch);
            reply[..n] == GenuineBlocks(data, size, batch[..n]) && reply[n] == (batch[n], Chunks(data, size)[batch[n]])
  {
  }

  lemma AcceptStep(slots: Slots, s0: Slots, data: Bytes, size: nat, front: seq<nat>, last: nat)
    requires size > 0 && |slots| <= |Chunks(data, size)| && last < |slots|
    requires AllAccepted(slots, s0, front, data, size, front)
    ensures AllAccepted(slots, s0[last := Some(Chunks(data, size)[last])], front + [last], data, size, front + [last])
  {
  }

  // A matching payload for an empty slot, after the rest of the reply.
  lemma OneMoreAccepted(c: Setup, slots: Slots, reply: Reply, i: nat, block: Bytes)
    requires reply != [] && reply[|reply| - 1] == (i, block)
    requires |slots| <= |c.info.blockHashes| && i < |slots| && c.h(block) == c.info.blockHashes[i]
    requires Recorded(c.h, c.info.blockHashes, slots, reply[..|reply| - 1]).0[i].None?
    ensures var (s0, accepted0) := Recorded(c.h, c.info.blockHashes, slots, reply[..|reply| - 1]);
            Recorded(c.h, c.info.blockHashes, slots, reply) == (s0[i := Some(block)], accepted0 + [i])
  {
  }

  lemma RoundCompletesBatch(c: Setup, st: State, p: PeerId, data: Bytes, size: nat, now: nat, picks: Picks, batch: seq<nat>, end: State)
    requires Resting(c, st, p, data, size) && HonestRound(c, st, p, data, size, now, picks, batch, end)
    ensures Resting(c, end, p, data, size)
    ensures PendingSet(end.sched) == PendingSet(st.sched) - Given(picks, p)
  {
    var mid := Next(c, st, Dispatch(now, picks));
    var reply := GenuineBlocks(data, size, batch);
    StepKeeps(c, st, Dispatch(now, picks));
    StepKeeps(c, mid, Answer(p, reply));
    RoundFillsSlots(c, st, p, data, size, now, picks, batch);
    BatchAnswersAll(data, size, batch);
    OnlyPeerIsPicked(c, st, p, data, size, now, picks);
    RoundEmptiesPeer(mid.sched, p, reply, ReceiversAfter(c.h, c.info, mid.receivers, p, reply).1);
    RoundLeavesRest(c, st, p, data, size, now, picks, batch, end);
  }

  lemma RoundEmptiesPeer(s: Sched, p: PeerId, reply: Reply, accepted: seq<nat>)
    requires p in s.peers && s.peers[p].inFlight <= ReplyIndices(reply)
    ensures AfterReply(s, p, reply, accepted).peers.Keys == s.peers.Keys
    ensures AfterReply(s, p, reply, accepted).peers[p].inFlight == {}
    ensures AfterReply(s, p, reply, accepted).peers[p].available == s.peers[p].available
  {
  }

  // Every block of the batch is stored from the reply, and the reply is all accepted.
  lemma RoundFillsSlots(c: Setup, st: State, p: PeerId, data: Bytes, size: nat, now: nat, picks: Picks, batch: seq<nat>)
    requires Resting(c, st, p, data, size) && IsDispatch(st.sched, c.maxInFlight, now, picks)
    requires StrictlyIncreasing(batch) && Elements(batch) == Given(picks, p)
    requires forall k :: 0 <= k < |batch| ==> batch[k] < |Chunks(data, size)|
    ensures p in st.receivers
    ensures var (receivers, accepted) := ReceiversAfter(c.h, c.info, st.receivers, p, GenuineBlocks(data, size, batch));
            accepted == batch && Genuine(receivers, data, size)
  {
    assert p in st.sched.peers.Keys;
    forall k | 0 <= k < |batch|
      ensures batch[k] < c.info.blockCount && st.receivers[p][batch[k]].None?
    {
      PickedArePending(st.sched, c.maxInFlight, now, picks);
      assert batch[k] in Elements(batch) && batch[k] in Assigned(picks);
      assert !Holds(st.receivers, p, batch[k]);
    }
    HonestReplyIsAccepted(c, st.receivers[p], data, size, batch);
  }

  lemma RoundLeavesRest(c: Setup, st: State, p: PeerId, data: Bytes, size: nat, now: nat, picks: Picks, batch: seq<nat>, end: State)
    requires Resting(c, st, p, data, size) && HonestRound(c, st, p, data, size, now, picks, batch, end)
    requires p in st.receivers
    requires ReceiversAfter(c.h, c.info, st.receivers, p, GenuineBlocks(data, size, batch)).1 == batch
    requires Assigned(picks) == Given(picks, p)
    ensures PendingSet(end.sched) == PendingSet(st.sched) - Given(picks, p)
  {
    var mid := AfterPicks(st.sched, picks, now);
    var reply := GenuineBlocks(data, size, batch);
    BatchAnswersAll(data, size, batch);
    assert end.sched.blocks == BlocksAfterReply(mid.blocks, p, reply, batch);
    assert |picks| == |mid.blocks| == |st.sched.blocks|;
    forall i: nat | i < |mid.blocks|
      ensures BlocksAfterReply(mid.blocks, p, reply, batch)[i].Pending? <==> st.sched.blocks[i].Pending? && i !in Given(picks, p)
    {
      OneBlockAfterRound(st.sched, p, now, picks, reply, batch, i);
    }
  }

  lemma OneBlockAfterRound(s: Sched, p: PeerId, now: nat, picks: Picks, reply: Reply, batch: seq<nat>, i: nat)
    requires i < |s.blocks| == |picks|
    requires Assigned(picks) == Given(picks, p) == Elements(batch) == ReplyIndices(reply)
    ensures BlocksAfterReply(AfterPicks(s, picks, now).blocks, p, reply, batch)[i].Pending? <==> s.blocks[i].Pending? && i !in Given(picks, p)
  {
    assert i in batch <==> i in Elements(batch);
    assert i in Assigned(picks) <==> picks[i].Some?;
  }

  lemma BatchAnswersAll(data: Bytes, size: nat, batch: seq<nat>)
    requires size > 0 && forall k :: 0 <= k < |batch| ==> batch[k] < |Chunks(data, size)|
    ensures ReplyIndices(GenuineBlocks(data, size, batch)) == Elements(batch)
  {
    var reply := GenuineBlocks(data, size, batch);
    forall i | i in batch
      ensures i in ReplyIndices(reply)
    {
      var k :| 0 <= k < |batch| && batch[k] == i;
      assert reply[k].0 == i;
    }
  }

  lemma OnlyPeerIsPicked(c: Setup, st: State, p: PeerId, data: Bytes, size: nat, now: nat, picks: Picks)
    requires Resting(c, st, p, data, size) && IsDispatch(st.sched, c.maxInFlight, now, picks)
    ensures Assigned(picks) == Given(picks, p)
    ensures forall i :: 0 <= i < |st.sched.blocks| ==> !st.sched.blocks[i].InFlight?
  {
    PickedArePending(st.sched, c.maxInFlight, now, picks);
    forall i | i in Assigned(picks)
      ensures i in Given(picks, p)
    {
      assert picks[i].value in st.sched.peers.Keys;
      assert PickedFor(picks, i, p);
    }
    assert Given(picks, p) <= Assigned(picks);
    forall i | 0 <= i < |st.sched.blocks|
      ensures !st.sched.blocks[i].InFlight?
    {
      if st.sched.blocks[i].InFlight? {
        assert Flying(st.sched, i, st.sched.blocks[i].peer);
      }
    }
  }

  datatype Round = Round(now: nat, picks: Picks, batch: seq<nat>)

  ghost predicate HonestRun(c: Setup, p: PeerId, data: Bytes, size: nat, states: seq<State>, rounds: seq<Round>) {
    && |states| == |rounds| + 1
    && forall r :: 0 <= r < |rounds| ==>
         Resting(c, states[r], p, data, size) ==>
           HonestRound(c, states[r], p, data, size, rounds[r].now, rounds[r].picks, rounds[r].batch, states[r + 1])
  }

  // After r rounds with one honest provider, n - r * max blocks are left.
  lemma {:induction false} LeftAfterRounds(c: Setup, p: PeerId, data: Bytes, size: nat, states: seq<State>, rounds: seq<Round>, r: nat)
    requires HashesOf(c.h, c.info, data, size) && c.maxInFlight >= 1
    requires HonestRun(c, p, data, size, states, rounds) && r <= |rounds|
    requires states[0] == Initial(c, map[p := Indices(c.info.blockCount)])
    ensures Resting(c, states[r], p, data, size)
    ensures |PendingSet(states[r].sched)| == Max(0, c.info.blockCount - r * c.maxInFlight)
  {
    if r == 0 {
      StartsResting(c, p, data, size);
    } else {
      var k := r - 1;
      LeftAfterRounds(c, p, data, size, states, rounds, k);
      RunRound(c, p, data, size, states, rounds, k);
      OneRoundLess(c, p, data, size, states[k], rounds[k], states[r]);
      LessByOneRound(c.info.blockCount, c.maxInFlight, r);
    }
  }

  lemma RunRound(c: Setup, p: PeerId, data: Bytes, size: nat, states: seq<State>, rounds: seq<Round>, k: nat)
    requires HonestRun(c, p, data, size, states, rounds) && k < |rounds|
    requires Resting(c, states[k], p, data, size)
    ensures HonestRound(c, states[k], p, data, size, rounds[k].now, rounds[k].picks, rounds[k].batch, states[k + 1])
  {
  }

  // So the download completes in ceil(n / max) rounds, and not before.
  lemma LoneProviderRounds(c: Setup, p: PeerId, data: Bytes, size: nat, states: seq<State>, rounds: seq<Round>, r: nat)
    requires HashesOf(c.h, c.info, data, size) && c.maxInFlight >= 1
    requires HonestRun(c, p, data, size, states, rounds) && r <= |rounds|
    requires states[0] == Initial(c, map[p := Indices(c.info.blockCount)])
    ensures LedgerComplete(states[r].receivers, c.info.blockCount) <==> r >= CeilDiv(c.info.blockCount, c.maxInFlight)
  {
    LeftAfterRounds(c, p, data, size, states, rounds, r);
    RestingComplete(c, states[r], p, data, size);
    CeilReached(c.info.blockCount, c.maxInFlight, r);
    assert PendingSet(states[r].sched) == {} <==> |PendingSet(states[r].sched)| == 0;
  }

  lemma LessByOneRound(n: nat, m: nat, r: nat)
    requires r >= 1
    ensures Max(0, n - r * m) == Max(0, Max(0, n - (r - 1) * m) - m)
  {
    assert r * m == (r - 1) * m + m;
  }

  lemma StartsResting(c: Setup, p: PeerId, data: Bytes, size: nat)
    requires HashesOf(c.h, c.info, data, size) && c.maxInFlight >= 1
    ensures var st := Initial(c, map[p := Indices(c.info.blockCount)]);
            Resting(c, st, p, data, size) && |PendingSet(st.sched)| == c.info.blockCount
  {
    var n := c.info.blockCount;
    InitialInv(c, map[p := Indices(n)]);
    assert PendingSet(Initial(c, map[p := Indices(n)]).sched) == Indices(n);
  }

  lemma OneRoundLess(c: Setup, p: PeerId, data: Bytes, size: nat, st: State, round: Round, end: State)
    requires Resting(c, st, p, data, size)
    requires HonestRound(c, st, p, data, size, round.now, round.picks, round.batch, end)
    ensures Resting(c, end, p, data, size)
    ensures |PendingSet(end.sched)| == Max(0, |PendingSet(st.sched)| - c.maxInFlight)
  {
    RoundSize(c, st, p, data, size, round.now, round.picks);
    RoundCompletesBatch(c, st, p, data, size, round.now, round.picks, round.batch, end);
    SplitCard(PendingSet(st.sched), Given(round.picks, p));
  }

  lemma RestingComplete(c: Setup, st: State, p: PeerId, data: Bytes, size: nat)
    requires Resting(c, st, p, data, size)
    ensures LedgerComplete(st.receivers, c.info.blockCount) <==> PendingSet(st.sched) == {}
  {
    CompleteTogether(c, st);
    forall i | 0 <= i < |st.sched.blocks|
      ensures st.sched.blocks[i].Pending? <==> !st.sched.blocks[i].Complete?
    {
      if st.sched.blocks[i].InFlight? {
        assert Flying(st.sched, i, st.sched.blocks[i].peer);
      }
      assert i in PendingSet(st.sched) <==> st.sched.blocks[i].Pending?;
    }
  }

  lemma CeilReached(n: nat, m: nat, r: nat)
    requires m > 0
    ensures r >= CeilDiv(n, m) <==> n <= r * m
  {
    if r >= CeilDiv(n, m) {
      CeilCovers(n, m, r);
    } else {
      var q := CeilDiv(n, m);
      assert n + m - 1 == q * m + (n + m - 1) % m;
      MulGap(r, q, m);
    }
  }

  // And the nar it ends with is the original, with no assumption on the hash.
  lemma LoneProviderDelivers(c: Setup, p: PeerId, data: Bytes, size: nat, states: seq<State>, rounds: seq<Round>, r: nat, parts: seq<Bytes>, narHash: string, narSize: nat)
    requires HashesOf(c.h, c.info, data, size) && c.maxInFlight >= 1
    requires HonestRun(c, p, data, size, states, rounds) && CeilDiv(c.info.blockCount, c.maxInFlight) <= r <= |rounds|
    requires states[0] == Initial(c, map[p := Indices(c.info.blockCount)])
    requires IsChoice(states[r].receivers, c.info.blockCount, parts)
    requires NarHashMatches(c.h, narHash, data) && (narSize == 0 || narSize == |data|)
    ensures Joined(c.h, narHash, narSize, parts) == Ok(data)
  {
    LeftAfterRounds(c, p, data, size, states, rounds, r);
    GenuineAssembles(c.h, c.info, states[r].receivers, data, size, parts, narHash, narSize);
  }
}
