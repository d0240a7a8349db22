// The verified-block ledger of one active download: every accepted block is
// kept per peer, checked against the block hashes learned in the handshake.

module Ledger {
  import opened Common
  import opened Blocks

  type Slots = seq<Option<Bytes>>
  type Receivers = map<PeerId, Slots>
  type Reply = seq<(nat, Bytes)>

  datatype DownloadError = Incomplete | HashMismatch

  // ---- What one reply does to one peer's slots ----

  // The code looks the expected hash up before anything else, so an index that is
  // below the block count but past the end of the hash list panics.
  predicate Overruns(hashes: seq<Digest>, slots: Slots, reply: Reply) {
    exists k :: 0 <= k < |reply| && |hashes| <= reply[k].0 < |slots|
  }

  // What is recorded of a reply that does not overrun.
  function Recorded(h: Hasher, hashes: seq<Digest>, slots: Slots, reply: Reply): (r: (Slots, seq<nat>))
    ensures |r.0| == |slots|
  {
    if reply == [] then (slots, [])
    else
      var (s, accepted) := Recorded(h, hashes, slots, reply[..|reply| - 1]);
      var (idx, data) := reply[|reply| - 1];
      if idx < |s| && idx < |hashes| && h(data) == hashes[idx] && s[idx].None? then
        (s[idx := Some(data)], accepted + [idx])
      else
        (s, accepted)
  }

  // Entry k of the reply is for slot i and carries the bytes its hash asks for.
  predicate Matches(h: Hasher, hashes: seq<Digest>, reply: Reply, k: int, i: int)
    requires 0 <= k < |reply| && 0 <= i < |hashes|
  {
    reply[k].0 == i && h(reply[k].1) == hashes[i]
  }

  // The meaning of Recorded: a slot is accepted when it was empty and some entry
  // matches it, it then holds the first matching payload, and nothing else moves.
  lemma {:induction false} RecordedMeaning(h: Hasher, hashes: seq<Digest>, slots: Slots, reply: Reply)
    ensures var (s, accepted) := Recorded(h, hashes, slots, reply);
            && Distinct(accepted)
            && (forall i :: i in accepted ==> i < |slots| && i < |hashes| && slots[i].None? && s[i].Some?)
            && (forall i :: 0 <= i < |slots| && i !in accepted ==> s[i] == slots[i])
            && (forall i :: i in accepted ==> exists k ::
                  && 0 <= k < |reply| && Matches(h, hashes, reply, k, i) && s[i] == Some(reply[k].1)
                  && (forall j :: 0 <= j < k ==> !Matches(h, hashes, reply, j, i)))
            && (forall i, k :: 0 <= i < |slots| && i < |hashes| && 0 <= k < |reply| && slots[i].None? && Matches(h, hashes, reply, k, i)
                  ==> i in accepted)
  {
    if reply != [] {
      var n := |reply| - 1;
      var front := reply[..n];
      RecordedMeaning(h, hashes, slots, front);
      var (s0, acc0) := Recorded(h, hashes, slots, front);
      var (s, acc) := Recorded(h, hashes, slots, reply);
      assert forall k, i :: 0 <= k < n && 0 <= i < |hashes| ==>
        Matches(h, hashes, front, k, i) == Matches(h, hashes, reply, k, i);
      forall i | i in acc
        ensures i < |slots| && i < |hashes| && exists k ::
          && 0 <= k < |reply| && Matches(h, hashes, reply, k, i) && s[i] == Some(reply[k].1)
          && (forall j :: 0 <= j < k ==> !Matches(h, hashes, reply, j, i))
      {
        if i in acc0 {
          assert i < |slots| && i < |hashes|;
          var k :| 0 <= k < n && Matches(h, hashes, front, k, i) && s0[i] == Some(front[k].1)
            && (forall j :: 0 <= j < k ==> !Matches(h, hashes, front, j, i));
          assert Matches(h, hashes, reply, k, i) && s[i] == Some(reply[k].1);
        } else {
          assert Matches(h, hashes, reply, n, i) && s[i] == Some(reply[n].1);
        }
      }
    }
  }

  // ---- The ledger as a value ----

  predicate Holds(receivers: Receivers, p: PeerId, i: nat) {
    p in receivers && i < |receivers[p]| && receivers[p][i].Some?
  }

  predicate CopyOf(receivers: Receivers, p: PeerId, i: nat, block: Bytes) {
    p in receivers && i < |receivers[p]| && receivers[p][i] == Some(block)
  }

  ghost predicate HasCopy(receivers: Receivers, i: nat, block: Bytes) {
    exists p :: CopyOf(receivers, p, i, block)
  }

  ghost predicate Held(receivers: Receivers, i: nat) {
    exists p :: Holds(receivers, p, i)
  }

  ghost predicate LedgerComplete(receivers: Receivers, count: nat) {
    forall i :: 0 <= i < count ==> Held(receivers, i)
  }

  predicate SlotsMatch(h: Hasher, hashes: seq<Digest>, slots: Slots) {
    forall i :: 0 <= i < |slots| && slots[i].Some? ==> i < |hashes| && h(slots[i].value) == hashes[i]
  }

  // Shape and integrity: one slot a block, and every stored block hashes right.
  ghost predicate LedgerValid(h: Hasher, info: BlockInfo, receivers: Receivers) {
    forall p :: p in receivers ==> |receivers[p]| == info.blockCount && SlotsMatch(h, info.blockHashes, receivers[p])
  }

  // Recording this reply panics.
  predicate Aborts(info: BlockInfo, receivers: Receivers, p: PeerId, reply: Reply) {
    p in receivers && Overruns(info.blockHashes, receivers[p], reply)
  }

  // Some reply of a known peer makes recording panic exactly when the hash list
  // is shorter than the block count: a test the caller could make beforehand.
  lemma SomeReplyAbortsIff(h: Hasher, info: BlockInfo, receivers: Receivers, p: PeerId)
    requires LedgerValid(h, info, receivers) && p in receivers
    ensures (exists reply :: Aborts(info, receivers, p, reply)) <==> |info.blockHashes| < info.blockCount
  {
    if |info.blockHashes| < info.blockCount {
      var reply: Reply := [(|info.blockHashes|, [])];
      assert |info.blockHashes| <= reply[0].0 < |receivers[p]|;
      assert Aborts(info, receivers, p, reply);
    }
  }

  function ReceiversAfter(h: Hasher, info: BlockInfo, receivers: Receivers, p: PeerId, reply: Reply): (Receivers, seq<nat>)
  {
    if p in receivers then
      var (s, accepted) := Recorded(h, info.blockHashes, receivers[p], reply);
      (receivers[p := s], accepted)
    else
      (receivers, [])
  }

  lemma RecordKeepsValid(h: Hasher, info: BlockInfo, receivers: Receivers, p: PeerId, reply: Reply)
    requires LedgerValid(h, info, receivers)
    ensures LedgerValid(h, info, ReceiversAfter(h, info, receivers, p, reply).0)
  {
    if p in receivers {
      RecordedMeaning(h, info.blockHashes, receivers[p], reply);
    }
  }

  // parts[i] is some peer's copy of block i: the choice a HashMap's iteration
  // order makes is left open.
  ghost predicate IsChoice(receivers: Receivers, count: nat, parts: seq<Bytes>) {
    && |parts| == count
    && forall i :: 0 <= i < count ==> HasCopy(receivers, i, parts[i])
  }

  // The two spellings assemble accepts for the narinfo's hash.
  predicate NarHashMatches(h: Hasher, narHash: string, data: Bytes) {
    narHash == Hex(h(data)) || narHash == "sha256:" + Hex(h(data))
  }

  function Joined(h: Hasher, narHash: string, narSize: nat, parts: seq<Bytes>): Result<Bytes, DownloadError> {
    var nar := Flatten(parts);
    if narSize > 0 && |nar| != narSize then Err(Incomplete)
    else if NarHashMatches(h, narHash, nar) then Ok(nar)
    else Err(HashMismatch)
  }

  // ---- The object ----

  class ActiveDownload {
    const h: Hasher
    const narHash: string
    const narSize: nat
    const info: BlockInfo
    var receivers: Receivers

    ghost predicate Valid()
      reads this
    {
      LedgerValid(h, info, receivers)
    }

    constructor (h: Hasher, narHash: string, narSize: nat, info: BlockInfo)
      ensures this.h == h && this.narHash == narHash && this.narSize == narSize && this.info == info
      ensures receivers == map[] && Valid()
    {
      this.h, this.narHash, this.narSize, this.info := h, narHash, narSize, info;
      receivers := map[];
    }

    method AddPeer(peer: PeerId)
      requires Valid()
      modifies this
      ensures Valid()
      ensures receivers == old(receivers)[peer := seq(info.blockCount, _ => None)]
    {
      receivers := receivers[peer := seq(info.blockCount, _ => None)];
    }

    // A panic leaves behind what the entries before it recorded.
    method RecordBlocks(peer: PeerId, reply: Reply) returns (accepted: seq<nat>, panicked: bool)
      requires Valid()
      modifies this
      ensures Valid()
      ensures panicked <==> Aborts(info, old(receivers), peer, reply)
      ensures !panicked ==> (receivers, accepted) == ReceiversAfter(h, info, old(receivers), peer, reply)
      ensures panicked ==> exists k ::
                && 0 <= k < |reply| && |info.blockHashes| <= reply[k].0 < info.blockCount
                && !Aborts(info, old(receivers), peer, reply[..k])
                && (receivers, accepted) == ReceiversAfter(h, info, old(receivers), peer, reply[..k])
    {
      accepted, panicked := [], false;
      if peer in receivers {
        var slots := receivers[peer];
        for k := 0 to |reply|
          invariant |slots| == info.blockCount && receivers == old(receivers) && !panicked
          invariant !Overruns(info.blockHashes, receivers[peer], reply[..k])
          invariant (slots, accepted) == Recorded(h, info.blockHashes, receivers[peer], reply[..k])
        {
          var (idx, data) := reply[k];
          assert reply[..k + 1][..k] == reply[..k];
          NextEntry(info.blockHashes, receivers[peer], reply, k);
          if idx < |slots| {
            if idx >= |info.blockHashes| {
              RecordKeepsValid(h, info, receivers, peer, reply[..k]);
              receivers := receivers[peer := slots];
              panicked := true;
              return;
            }
            var expected := info.blockHashes[idx];
            if h(data) == expected && slots[idx].None? {
              slots := slots[idx := Some(data)];
              accepted := accepted + [idx];
            }
          }
        }
        assert reply[..|reply|] == reply;
        RecordKeepsValid(h, info, receivers, peer, reply);
        receivers := receivers[peer := slots];
      }
    }

    method IsComplete() returns (complete: bool)
      requires Valid()
      ensures complete <==> LedgerComplete(receivers, info.blockCount)
    {
      var peers := receivers.Keys;
      while peers != {}
        invariant peers <= receivers.Keys
        decreases peers
      {
        var p :| p in peers;
        var all := true;
        for i := 0 to |receivers[p]|
          invariant all <==> forall j :: 0 <= j < i ==> receivers[p][j].Some?
        {
          if receivers[p][i].None? { all := false; }
        }
        if all {
          forall i | 0 <= i < info.blockCount
            ensures Held(receivers, i)
          {
            assert Holds(receivers, p, i);
          }
          return true;
        }
        peers := peers - {p};
      }
      for i := 0 to info.blockCount
        invariant forall j :: 0 <= j < i ==> Held(receivers, j)
      {
        var copy := FindCopy(i);
        if copy.None? {
          return false;
        }
      }
      return true;
    }

    // values().find_map: some peer's copy of block i, in no particular order.
    method FindCopy(i: nat) returns (copy: Option<Bytes>)
      requires Valid() && i < info.blockCount
      ensures copy.Some? <==> Held(receivers, i)
      ensures copy.Some? ==> HasCopy(receivers, i, copy.value)
    {
      copy := None;
      var peers := receivers.Keys;
      while peers != {}
        invariant peers <= receivers.Keys
        invariant forall p :: p in receivers.Keys - peers ==> receivers[p][i].None?
        decreases peers
      {
        var p :| p in peers;
        if receivers[p][i].Some? {
          assert Holds(receivers, p, i) && CopyOf(receivers, p, i, receivers[p][i].value);
          return receivers[p][i];
        }
        peers := peers - {p};
      }
    }

    method Assemble() returns (r: Result<Bytes, DownloadError>)
      requires Valid()
      ensures !LedgerComplete(receivers, info.blockCount) ==> r == Err(Incomplete)
      ensures LedgerComplete(receivers, info.blockCount) ==>
                exists parts :: IsChoice(receivers, info.blockCount, parts) && r == Joined(h, narHash, narSize, parts)
    {
      var nar: Bytes := [];
      ghost var parts: seq<Bytes> := [];
      for i := 0 to info.blockCount
        invariant |parts| == i && nar == Flatten(parts)
        invariant IsChoice(receivers, i, parts)
      {
        var copy := FindCopy(i);
        match copy {
          case None =>
            return Err(Incomplete);
          case Some(b) =>
            FlattenAppend(parts, [b]);
            assert Flatten([b]) == b + Flatten<byte>([]);
            ExtendChoice(receivers, parts, b);
            nar := nar + b;
            parts := parts + [b];
        }
      }
      ChoiceMeansComplete(receivers, info.blockCount, parts);
      if narSize > 0 && |nar| != narSize {
        return Err(Incomplete);
      }
      if narHash != Hex(h(nar)) && narHash != "sha256:" + Hex(h(nar)) {
        return Err(HashMismatch);
      }
      return Ok(nar);
    }
  }

  lemma NextEntry(hashes: seq<Digest>, slots: Slots, reply: Reply, k: nat)
    requires k < |reply| && !Overruns(hashes, slots, reply[..k])
    ensures Overruns(hashes, slots, reply[..k + 1]) <==> |hashes| <= reply[k].0 < |slots|
    ensures |hashes| <= reply[k].0 < |slots| ==> Overruns(hashes, slots, reply)
  {
    if |hashes| <= reply[k].0 < |slots| {
      assert reply[..k + 1][k] == reply[k];
    }
    assert forall j :: 0 <= j < k ==> reply[..k][j] == reply[j] == reply[..k + 1][j];
  }

  lemma ExtendChoice(receivers: Receivers, parts: seq<Bytes>, b: Bytes)
    requires IsChoice(receivers, |parts|, parts)
    requires HasCopy(receivers, |parts|, b)
    ensures IsChoice(receivers, |parts| + 1, parts + [b])
  {
    var all := parts + [b];
    assert forall i :: 0 <= i < |parts| ==> all[i] == parts[i];
  }

  lemma ChoiceMeansComplete(receivers: Receivers, count: nat, parts: seq<Bytes>)
    requires IsChoice(receivers, count, parts)
    ensures LedgerComplete(receivers, count)
  {
    forall i | 0 <= i < count
      ensures Held(receivers, i)
    {
      var p :| CopyOf(receivers, p, i, parts[i]);
      assert Holds(receivers, p, i);
    }
  }

  // ---- Integrity ----

  // Nothing assemble returns escapes the narinfo's hash and size.
  lemma AssembledIsVerified(h: Hasher, narHash: string, narSize: nat, parts: seq<Bytes>, nar: Bytes)
    requires Joined(h, narHash, narSize, parts) == Ok(nar)
    ensures NarHashMatches(h, narHash, nar) && (narSize > 0 ==> |nar| == narSize)
  {
  }

  // The hash list is that of the nar's own blocks, cut at this size.
  ghost predicate HashedFrom(h: Hasher, info: BlockInfo, data: Bytes, size: nat) {
    size > 0 && info.blockHashes == ComputeBlockHashes(h, data, size)
  }

  // And there is one slot for each of them.
  ghost predicate HashesOf(h: Hasher, info: BlockInfo, data: Bytes, size: nat) {
    && size > 0 && data != []
    && info.blockHashes == ComputeBlockHashes(h, data, size)
    && info.blockCount == |info.blockHashes|
  }

  // The payload collides with no block of the nar.
  ghost predicate NoCollision(h: Hasher, data: Bytes, size: nat, payload: Bytes)
    requires size > 0
  {
    forall i :: 0 <= i < |Chunks(data, size)| && h(Chunks(data, size)[i]) == h(payload) ==> Chunks(data, size)[i] == payload
  }

  // Every payload the ledger stores is the nar's own block.
  ghost predicate Genuine(receivers: Receivers, data: Bytes, size: nat)
    requires size > 0
  {
    forall p, i :: p in receivers && 0 <= i < |receivers[p]| && i < |Chunks(data, size)| && receivers[p][i].Some? ==>
      receivers[p][i].value == Chunks(data, size)[i]
  }

  lemma RecordKeepsGenuine(h: Hasher, info: BlockInfo, receivers: Receivers, p: PeerId, reply: Reply, data: Bytes, size: nat)
    requires LedgerValid(h, info, receivers) && HashedFrom(h, info, data, size) && Genuine(receivers, data, size)
    requires forall k :: 0 <= k < |reply| ==> NoCollision(h, data, size, reply[k].1)
    ensures Genuine(ReceiversAfter(h, info, receivers, p, reply).0, data, size)
  {
    if p in receivers {
      RecordedMeaning(h, info.blockHashes, receivers[p], reply);
      var (s, accepted) := Recorded(h, info.blockHashes, receivers[p], reply);
      forall i | 0 <= i < |s| && i < |Chunks(data, size)| && s[i].Some?
        ensures s[i].value == Chunks(data, size)[i]
      {
        if i in accepted {
          var k :| 0 <= k < |reply| && Matches(h, info.blockHashes, reply, k, i) && s[i] == Some(reply[k].1);
          assert NoCollision(h, data, size, reply[k].1);
        }
      }
    }
  }

  // Whichever copies are picked, a genuine complete ledger assembles to the nar.
  lemma GenuineAssembles(h: Hasher, info: BlockInfo, receivers: Receivers, data: Bytes, size: nat, parts: seq<Bytes>, narHash: string, narSize: nat)
    requires LedgerValid(h, info, receivers) && HashesOf(h, info, data, size) && Genuine(receivers, data, size)
    requires IsChoice(receivers, info.blockCount, parts)
    requires NarHashMatches(h, narHash, data) && (narSize == 0 || narSize == |data|)
    ensures Joined(h, narHash, narSize, parts) == Ok(data)
  {
    forall i | 0 <= i < |parts|
      ensures parts[i] == Chunks(data, size)[i]
    {
      var p :| CopyOf(receivers, p, i, parts[i]);
    }
    assert parts == Chunks(data, size);
    ChunksFlatten(data, size);
  }
}
