// The block scheduler of one nar download: which peer fetches which block, and
// what a reply, a failed request, an expiry and a dispatch round each do to it.
// Instants are natural numbers; the clock is always passed in.

module Scheduler {
  import opened Common
  import opened Ledger

  datatype BlockState = Pending | InFlight(peer: PeerId, at: nat) | Complete

  datatype PeerFetch = PeerFetch(available: set<nat>, inFlight: set<nat>, failures: nat, bytes: nat)

  datatype Sched = Sched(blocks: seq<BlockState>, peers: map<PeerId, PeerFetch>)

  predicate Flying(s: Sched, i: nat, p: PeerId) {
    i < |s.blocks| && s.blocks[i].InFlight? && s.blocks[i].peer == p
  }

  // ---- Requeueing ----

  // Instant::duration_since saturates at zero.
  function Elapsed(now: nat, since: nat): nat {
    if now >= since then now - since else 0
  }

  predicate IsExpired(b: BlockState, now: nat, timeout: nat) {
    b.InFlight? && Elapsed(now, b.at) >= timeout
  }

  function ExpiredBlocks(s: Sched, now: nat, timeout: nat): set<nat> {
    set i | 0 <= i < |s.blocks| && IsExpired(s.blocks[i], now, timeout)
  }

  function FlyingAt(s: Sched, p: PeerId): set<nat> {
    set i | 0 <= i < |s.blocks| && Flying(s, i, p)
  }

  function Reset(blocks: seq<BlockState>, gone: set<nat>): (r: seq<BlockState>)
    ensures |r| == |blocks|
  {
    seq(|blocks|, i requires 0 <= i < |blocks| => if i in gone then Pending else blocks[i])
  }

  // Expired blocks become Pending, leave their peer's set and each costs it a failure.
  function AfterExpiry(s: Sched, gone: set<nat>): Sched {
    Sched(Reset(s.blocks, gone), map p | p in s.peers :: Losing(s.peers[p], gone * FlyingAt(s, p)))
  }

  function Losing(f: PeerFetch, lost: set<nat>): PeerFetch {
    f.(inFlight := f.inFlight - lost, failures := f.failures + |lost|)
  }

  // A failed request returns all the peer's flying blocks at the cost of one failure.
  function AfterFailure(s: Sched, p: PeerId): Sched {
    var gone := FlyingAt(s, p);
    Sched(
      Reset(s.blocks, gone),
      if p in s.peers && gone != {} then
        s.peers[p := s.peers[p].(inFlight := s.peers[p].inFlight - gone, failures := s.peers[p].failures + 1)]
      else s.peers)
  }

  function Without(f: PeerFetch, gone: set<nat>): PeerFetch {
    f.(inFlight := f.inFlight - gone)
  }

  // ---- Replies ----

  function TotalBytes(reply: Reply): nat {
    if reply == [] then 0 else TotalBytes(reply[..|reply| - 1]) + |reply[|reply| - 1].1|
  }

  function ReplyIndices(reply: Reply): set<nat> {
    set k | 0 <= k < |reply| :: reply[k].0
  }

  function BlocksAfterReply(blocks: seq<BlockState>, p: PeerId, reply: Reply, accepted: seq<nat>): (r: seq<BlockState>)
    ensures |r| == |blocks|
  {
    seq(|blocks|, i requires 0 <= i < |blocks| =>
      if i in accepted then Complete
      else if i in ReplyIndices(reply) && blocks[i].InFlight? && blocks[i].peer == p then Pending
      else blocks[i])
  }

  // Accepted blocks complete; blocks of the reply that were flying at the sender
  // and were not accepted are rejected, so they are fetched again.
  function AfterReply(s: Sched, p: PeerId, reply: Reply, accepted: seq<nat>): Sched {
    Sched(
      BlocksAfterReply(s.blocks, p, reply, accepted),
      if p in s.peers then
        s.peers[p := s.peers[p].(
          bytes := s.peers[p].bytes + TotalBytes(reply),
          inFlight := s.peers[p].inFlight - ReplyIndices(reply))]
      else s.peers)
  }

  // ---- Dispatch ----

  type Picks = seq<Option<PeerId>>

  predicate Eligible(s: Sched, i: nat, maxInFlight: nat, p: PeerId) {
    p in s.peers && |s.peers[p].inFlight| < maxInFlight && i in s.peers[p].available
  }

  // Fewest blocks in flight first, then fewest failures.
  predicate NoWorse(a: PeerFetch, b: PeerFetch) {
    |a.inFlight| < |b.inFlight| || (|a.inFlight| == |b.inFlight| && a.failures <= b.failures)
  }

  // min_by_key over a HashMap: any minimiser may be chosen.
  ghost predicate ValidPick(s: Sched, i: nat, maxInFlight: nat, pick: Option<PeerId>)
    requires i < |s.blocks|
  {
    if !s.blocks[i].Pending? then pick == None
    else match pick
      case None => forall p :: p in s.peers ==> !Eligible(s, i, maxInFlight, p)
      case Some(p) =>
        && Eligible(s, i, maxInFlight, p)
        && forall q :: q in s.peers && Eligible(s, i, maxInFlight, q) ==> NoWorse(s.peers[p], s.peers[q])
  }

  predicate PickedFor(picks: Picks, i: nat, p: PeerId) {
    i < |picks| && picks[i] == Some(p)
  }

  function Given(picks: Picks, p: PeerId): set<nat> {
    set i | 0 <= i < |picks| && PickedFor(picks, i, p)
  }

  function Assigned(picks: Picks): set<nat> {
    set i | 0 <= i < |picks| && picks[i].Some?
  }

  // The state once the first |picks| blocks have been considered.
  function AfterPicks(s: Sched, picks: Picks, now: nat): Sched {
    Sched(
      seq(|s.blocks|, i requires 0 <= i < |s.blocks| =>
        if i < |picks| && picks[i].Some? then InFlight(picks[i].value, now) else s.blocks[i]),
      map p | p in s.peers :: Gaining(s.peers[p], Given(picks, p)))
  }

  function Gaining(f: PeerFetch, more: set<nat>): PeerFetch {
    f.(inFlight := f.inFlight + more)
  }

  // Each pick is a best eligible peer in the state left by the picks before it.
  ghost predicate Greedy(s: Sched, maxInFlight: nat, now: nat, picks: Picks) {
    && |picks| <= |s.blocks|
    && forall k :: 0 <= k < |picks| ==> ValidPick(AfterPicks(s, picks[..k], now), k, maxInFlight, picks[k])
  }

  ghost predicate IsDispatch(s: Sched, maxInFlight: nat, now: nat, picks: Picks) {
    |picks| == |s.blocks| && Greedy(s, maxInFlight, now, picks)
  }

  predicate StrictlyIncreasing(a: seq<nat>) {
    forall i, j :: 0 <= i < j < |a| ==> a[i] < a[j]
  }

  function Elements(a: seq<nat>): set<nat> {
    set i | i in a
  }

  // One request a peer that was given anything, listing exactly those blocks in order.
  ghost predicate AreBatches(picks: Picks, batches: map<PeerId, seq<nat>>) {
    && (forall p :: p in batches <==> Given(picks, p) != {})
    && (forall p :: p in batches ==> StrictlyIncreasing(batches[p]) && Elements(batches[p]) == Given(picks, p))
  }

  // ---- The object ----

  class BlockScheduler {
    const blocks: array<BlockState>
    var peers: map<PeerId, PeerFetch>

    ghost function View(): Sched
      reads this, blocks
    {
      Sched(blocks[..], peers)
    }

    method SetBlock(i: nat, b: BlockState)
      requires i < blocks.Length
      modifies blocks
      ensures blocks[..] == old(blocks[..])[i := b]
    {
      blocks[i] := b;
    }

    constructor (total: nat, handshakes: map<PeerId, set<nat>>)
      ensures fresh(blocks)
      ensures View() == Sched(
                seq(total, _ => Pending),
                map p | p in handshakes :: PeerFetch(set i | i in handshakes[p] && i < total, {}, 0, 0))
    {
      blocks := new BlockState[total](_ => Pending);
      peers := map p | p in handshakes :: PeerFetch(set i | i in handshakes[p] && i < total, {}, 0, 0);
    }

    method ExpireBlock(i: nat)
      requires i < blocks.Length && blocks[i].InFlight?
      modifies this, blocks
      ensures OneExpiry(old(View()), View(), i, old(blocks[i].peer))
    {
      var p := blocks[i].peer;
      if p in peers {
        peers := peers[p := Losing(peers[p], {i})];
      }
      SetBlock(i, Pending);
    }

    method RequeueExpiredBlocks(now: nat, timeout: nat) returns (requeued: nat)
      modifies this, blocks
      ensures var gone := ExpiredBlocks(old(View()), now, timeout);
              View() == AfterExpiry(old(View()), gone) && requeued == |gone|
    {
      ghost var s := View();
      ghost var gone: set<nat> := {};
      requeued := 0;
      AfterExpiryOfNone(s);
      for i := 0 to blocks.Length
        invariant gone == ExpiredBefore(s, now, timeout, i)
        invariant View() == AfterExpiry(s, gone) && requeued == |gone|
      {
        ExpiredStep(s, now, timeout, i);
        NotYetExpired(s, gone, i);
        assert blocks[i] == View().blocks[i];
        if blocks[i].InFlight? && Elapsed(now, blocks[i].at) >= timeout {
          ExpireOneMore(s, gone, i);
          ExpireBlock(i);
          SameExpiry(AfterExpiry(s, gone), View(), AfterExpiry(s, gone + {i}), i, s.blocks[i].peer);
          requeued := requeued + 1;
          gone := gone + {i};
        }
      }
      assert gone == ExpiredBlocks(s, now, timeout);
    }

    method RequeueInFlightBlocksForPeer(peer: PeerId) returns (requeued: nat)
      modifies this, blocks
      ensures View() == AfterFailure(old(View()), peer) && requeued == |FlyingAt(old(View()), peer)|
    {
      ghost var s := View();
      ghost var gone: set<nat> := {};
      requeued := 0;
      assert blocks[..] == Reset(s.blocks, gone);
      if peer in peers {
        assert Without(peers[peer], {}) == peers[peer];
      }
      for i := 0 to blocks.Length
        invariant gone == set j | j in FlyingAt(s, peer) && j < i
        invariant requeued == |gone|
        invariant blocks[..] == Reset(s.blocks, gone)
        invariant peers == if peer in s.peers then s.peers[peer := Without(s.peers[peer], gone)] else s.peers
      {
        assert blocks[i] == s.blocks[i];
        if blocks[i].InFlight? && blocks[i].peer == peer {
          blocks[i] := Pending;
          requeued := requeued + 1;
          if peer in peers {
            WithoutMore(s.peers[peer], gone, i);
            peers := peers[peer := Without(peers[peer], {i})];
          }
          gone := gone + {i};
        }
      }
      assert gone == FlyingAt(s, peer);
      if requeued > 0 && peer in peers {
        peers := peers[peer := peers[peer].(failures := peers[peer].failures + 1)];
      }
    }

    // A panic while recording leaves the scheduler as it was.
    method RecordBlockResponse(download: ActiveDownload, peer: PeerId, reply: Reply) returns (newlyAccepted: nat, panicked: bool)
      requires download.Valid()
      modifies this, blocks, download
      ensures download.Valid()
      ensures panicked <==> Aborts(download.info, old(download.receivers), peer, reply)
      ensures panicked ==> View() == old(View())
      ensures !panicked ==>
                var (receivers, accepted) := ReceiversAfter(download.h, download.info, old(download.receivers), peer, reply);
                && download.receivers == receivers
                && View() == AfterReply(old(View()), peer, reply, accepted)
                && newlyAccepted == |accepted|
    {
      ghost var s := View();
      newlyAccepted := 0;
      var accepted;
      accepted, panicked := download.RecordBlocks(peer, reply);
      if panicked {
        return;
      }
      UpdatePeerAfterBlockResponse(peer, reply);
      MarkAcceptedBlocks(accepted);
      RequeueRejectedBlocks(peer, reply, accepted);
      assert blocks[..] == BlocksAfterReply(s.blocks, peer, reply, accepted);
      newlyAccepted := |accepted|;
    }

    method UpdatePeerAfterBlockResponse(peer: PeerId, reply: Reply)
      modifies this
      ensures peers == if peer in old(peers) then
                         old(peers)[peer := old(peers)[peer].(
                           bytes := old(peers)[peer].bytes + TotalBytes(reply),
                           inFlight := old(peers)[peer].inFlight - ReplyIndices(reply))]
                       else old(peers)
    {
      if peer in peers {
        var total := 0;
        for k := 0 to |reply|
          invariant total == TotalBytes(reply[..k])
        {
          assert reply[..k + 1][..k] == reply[..k];
          total := total + |reply[k].1|;
        }
        assert reply[..|reply|] == reply;
        var inFlight := peers[peer].inFlight;
        for k := 0 to |reply|
          invariant inFlight == peers[peer].inFlight - ReplyIndices(reply[..k])
        {
          assert ReplyIndices(reply[..k + 1]) == ReplyIndices(reply[..k]) + {reply[k].0} by {
            assert forall j :: 0 <= j < k ==> reply[..k + 1][j] == reply[..k][j];
            assert reply[..k + 1][k] == reply[k];
          }
          inFlight := inFlight - {reply[k].0};
        }
        peers := peers[peer := peers[peer].(bytes := peers[peer].bytes + total, inFlight := inFlight)];
      }
    }

    method MarkAcceptedBlocks(accepted: seq<nat>)
      modifies blocks
      ensures blocks[..] == seq(blocks.Length, i requires 0 <= i < blocks.Length =>
                if i in accepted then Complete else old(blocks[i]))
    {
      for k := 0 to |accepted|
        invariant forall i :: 0 <= i < blocks.Length ==>
          blocks[i] == if i in accepted[..k] then Complete else old(blocks[i])
      {
        var idx := accepted[k];
        assert accepted[..k + 1] == accepted[..k] + [idx];
        if idx < blocks.Length && !blocks[idx].Complete? {
          blocks[idx] := Complete;
        }
      }
      assert accepted[..|accepted|] == accepted;
    }

    method RequeueRejectedBlocks(peer: PeerId, reply: Reply, accepted: seq<nat>)
      modifies blocks
      ensures blocks[..] == seq(blocks.Length, i requires 0 <= i < blocks.Length =>
                if i !in accepted && i in ReplyIndices(reply) && old(blocks[i]).InFlight? && old(blocks[i]).peer == peer
                then Pending else old(blocks[i]))
    {
      for k := 0 to |reply|
        invariant forall i :: 0 <= i < blocks.Length ==>
          blocks[i] ==
            if i !in accepted && i in ReplyIndices(reply[..k]) && old(blocks[i]).InFlight? && old(blocks[i]).peer == peer
            then Pending else old(blocks[i])
      {
        var idx := reply[k].0;
        assert ReplyIndices(reply[..k + 1]) == ReplyIndices(reply[..k]) + {idx} by {
          assert forall j :: 0 <= j < k ==> reply[..k + 1][j] == reply[..k][j];
          assert reply[..k + 1][k] == reply[k];
        }
        if idx !in accepted && idx < blocks.Length && blocks[idx].InFlight? && blocks[idx].peer == peer {
          blocks[idx] := Pending;
        }
      }
      assert reply[..|reply|] == reply;
    }

    // The filter and min_by_key of one dispatch step.
    method BestPeer(i: nat, maxInFlight: nat) returns (best: Option<PeerId>)
      requires i < blocks.Length && blocks[i].Pending?
      ensures ValidPick(View(), i, maxInFlight, best)
    {
      best := None;
      var rest := peers.Keys;
      while rest != {}
        invariant rest <= peers.Keys
        invariant best.Some? ==> Eligible(View(), i, maxInFlight, best.value)
        invariant forall q :: q in peers.Keys - rest && Eligible(View(), i, maxInFlight, q) ==>
          best.Some? && NoWorse(peers[best.value], peers[q])
        decreases rest
      {
        var p :| p in rest;
        if |peers[p].inFlight| < maxInFlight && i in peers[p].available {
          if best.None? || !NoWorse(peers[best.value], peers[p]) {
            best := Some(p);
          }
        }
        rest := rest - {p};
      }
    }

    method GiveBlock(i: nat, p: PeerId, now: nat)
      requires i < blocks.Length && p in peers
      modifies this, blocks
      ensures OnePick(old(View()), View(), i, Some(p), now)
    {
      peers := peers[p := Gaining(peers[p], {i})];
      SetBlock(i, InFlight(p, now));
    }

    method DispatchBlockRequests(now: nat, maxInFlight: nat)
      returns (dispatched: nat, batches: map<PeerId, seq<nat>>, ghost picks: Picks)
      modifies this, blocks
      ensures IsDispatch(old(View()), maxInFlight, now, picks)
      ensures View() == AfterPicks(old(View()), picks, now)
      ensures AreBatches(picks, batches)
      ensures dispatched == |Assigned(picks)|
    {
      ghost var s := View();
      batches := map[];
      picks := [];
      AfterNoPicks(s, now);
      for i := 0 to blocks.Length
        invariant |picks| == i && Greedy(s, maxInFlight, now, picks)
        invariant View() == AfterPicks(s, picks, now)
        invariant AreBatches(picks, batches)
      {
        var pick := None;
        assert blocks[i] == View().blocks[i];
        if blocks[i].Pending? {
          pick := BestPeer(i, maxInFlight);
        }
        DispatchStep(s, maxInFlight, now, picks, pick, batches);
        if pick.Some? {
          GiveBlock(i, pick.value, now);
        }
        batches := WithPick(batches, pick, i);
        picks := picks + [pick];
      }
      dispatched := CountBatches(picks, batches);
    }
  }

  // ---- Proof steps for the methods ----

  lemma AfterExpiryOfNone(s: Sched)
    ensures AfterExpiry(s, {}) == s
  {
    var t := AfterExpiry(s, {});
    assert t.blocks == s.blocks;
    forall p | p in s.peers
      ensures t.peers[p] == s.peers[p]
    {
      assert {} * FlyingAt(s, p) == {};
      assert s.peers[p].inFlight - {} == s.peers[p].inFlight;
    }
    assert t.peers == s.peers;
  }

  function ExpiredBefore(s: Sched, now: nat, timeout: nat, n: nat): set<nat> {
    set i | i in ExpiredBlocks(s, now, timeout) && i < n
  }

  lemma ExpiredStep(s: Sched, now: nat, timeout: nat, i: nat)
    requires i < |s.blocks|
    ensures i !in ExpiredBefore(s, now, timeout, i)
    ensures ExpiredBefore(s, now, timeout, i + 1)
         == ExpiredBefore(s, now, timeout, i) + (if IsExpired(s.blocks[i], now, timeout) then {i} else {})
  {
  }

  lemma LosingOneMore(f: PeerFetch, lost: set<nat>, i: nat)
    requires i !in lost
    ensures Losing(f, lost + {i}) == Losing(Losing(f, lost), {i})
  {
    assert f.inFlight - (lost + {i}) == f.inFlight - lost - {i};
  }

  lemma LostOf(s: Sched, gone: set<nat>, i: nat, q: PeerId)
    requires i < |s.blocks| && s.blocks[i].InFlight?
    ensures (gone + {i}) * FlyingAt(s, q) == gone * FlyingAt(s, q) + (if q == s.blocks[i].peer then {i} else {})
  {
    assert i in FlyingAt(s, q) <==> q == s.blocks[i].peer;
  }

  // Expiring block i as well takes it from its peer and touches nothing else.
  ghost predicate OneExpiry(a: Sched, b: Sched, i: nat, p: PeerId)
    requires i < |a.blocks|
  {
    && b.blocks == a.blocks[i := Pending]
    && b.peers == if p in a.peers then a.peers[p := Losing(a.peers[p], {i})] else a.peers
  }

  lemma SameExpiry(a: Sched, b: Sched, c: Sched, i: nat, p: PeerId)
    requires i < |a.blocks| && OneExpiry(a, b, i, p) && OneExpiry(a, c, i, p)
    ensures b == c
  {
  }

  lemma NotYetExpired(s: Sched, gone: set<nat>, i: nat)
    requires i < |s.blocks| && i !in gone
    ensures AfterExpiry(s, gone).blocks[i] == s.blocks[i]
  {
  }

  lemma ExpireOneMoreAt(s: Sched, gone: set<nat>, i: nat, q: PeerId)
    requires i < |s.blocks| && i !in gone && s.blocks[i].InFlight? && q in s.peers
    ensures var a, b := AfterExpiry(s, gone), AfterExpiry(s, gone + {i});
            b.peers[q] == if q == s.blocks[i].peer then Losing(a.peers[q], {i}) else a.peers[q]
  {
    LostOf(s, gone, i, q);
    if q == s.blocks[i].peer {
      LosingOneMore(s.peers[q], gone * FlyingAt(s, q), i);
    } else {
      assert gone * FlyingAt(s, q) + {} == gone * FlyingAt(s, q);
    }
  }

  lemma ExpireOneMore(s: Sched, gone: set<nat>, i: nat)
    requires i < |s.blocks| && i !in gone && s.blocks[i].InFlight?
    ensures OneExpiry(AfterExpiry(s, gone), AfterExpiry(s, gone + {i}), i, s.blocks[i].peer)
  {
    var p := s.blocks[i].peer;
    var a, b := AfterExpiry(s, gone), AfterExpiry(s, gone + {i});
    assert b.blocks == a.blocks[i := Pending];
    ExpiredPeers(s, gone, i);
  }

  lemma ExpiredPeers(s: Sched, gone: set<nat>, i: nat)
    requires i < |s.blocks| && i !in gone && s.blocks[i].InFlight?
    ensures var p, a, b := s.blocks[i].peer, AfterExpiry(s, gone).peers, AfterExpiry(s, gone + {i}).peers;
            b == if p in a then a[p := Losing(a[p], {i})] else a
  {
    var p, a, b := s.blocks[i].peer, AfterExpiry(s, gone).peers, AfterExpiry(s, gone + {i}).peers;
    assert a.Keys == b.Keys == s.peers.Keys;
    forall q | q in s.peers
      ensures b[q] == if q == p then Losing(a[q], {i}) else a[q]
    {
      ExpireOneMoreAt(s, gone, i, q);
    }
    if p in a {
      MapIsUpdate(a, b, p, Losing(a[p], {i}));
    } else {
      MapsEqual(a, b);
    }
  }

  lemma WithoutMore(f: PeerFetch, gone: set<nat>, i: nat)
    ensures Without(Without(f, gone), {i}) == Without(f, gone + {i})
  {
    assert f.inFlight - gone - {i} == f.inFlight - (gone + {i});
  }

  lemma AfterNoPicks(s: Sched, now: nat)
    ensures AfterPicks(s, [], now) == s
  {
    var t := AfterPicks(s, [], now);
    forall p | p in s.peers
      ensures t.peers[p] == s.peers[p]
    {
      assert Given([], p) == {};
      assert s.peers[p].inFlight + {} == s.peers[p].inFlight;
    }
    assert t.peers == s.peers;
    assert t.blocks == s.blocks;
  }

  lemma GivenExtends(picks: Picks, pick: Option<PeerId>, p: PeerId)
    ensures Given(picks + [pick], p) == Given(picks, p) + (if pick == Some(p) then {|picks|} else {})
  {
    assert forall i: nat :: i < |picks| ==> PickedFor(picks + [pick], i, p) == PickedFor(picks, i, p);
    assert PickedFor(picks + [pick], |picks|, p) <==> pick == Some(p);
  }

  ghost predicate OnePick(a: Sched, b: Sched, i: nat, pick: Option<PeerId>, now: nat)
    requires i < |a.blocks|
  {
    match pick
    case None => b == a
    case Some(p) =>
      && p in a.peers
      && b.blocks == a.blocks[i := InFlight(p, now)]
      && b.peers == a.peers[p := Gaining(a.peers[p], {i})]
  }

  lemma PicksExtend(s: Sched, picks: Picks, pick: Option<PeerId>, now: nat)
    requires |picks| < |s.blocks|
    requires pick.Some? ==> pick.value in s.peers
    ensures OnePick(AfterPicks(s, picks, now), AfterPicks(s, picks + [pick], now), |picks|, pick, now)
  {
    var a, b := AfterPicks(s, picks, now), AfterPicks(s, picks + [pick], now);
    forall p | p in s.peers
      ensures b.peers[p] == if pick == Some(p) then Gaining(a.peers[p], {|picks|}) else a.peers[p]
    {
      GivenExtends(picks, pick, p);
      assert s.peers[p].inFlight + Given(picks + [pick], p)
        == s.peers[p].inFlight + Given(picks, p) + (if pick == Some(p) then {|picks|} else {});
    }
    if pick.None? {
      assert a.blocks == b.blocks;
      assert a.peers == b.peers;
    } else {
      assert b.blocks == a.blocks[|picks| := InFlight(pick.value, now)];
      assert b.peers == a.peers[pick.value := Gaining(a.peers[pick.value], {|picks|})];
    }
  }

  lemma ExtendGreedy(s: Sched, maxInFlight: nat, now: nat, picks: Picks, pick: Option<PeerId>)
    requires |picks| < |s.blocks| && Greedy(s, maxInFlight, now, picks)
    requires ValidPick(AfterPicks(s, picks, now), |picks|, maxInFlight, pick)
    ensures Greedy(s, maxInFlight, now, picks + [pick])
  {
    var more := picks + [pick];
    forall k | 0 <= k < |more|
      ensures ValidPick(AfterPicks(s, more[..k], now), k, maxInFlight, more[k])
    {
      if k < |picks| {
        assert more[..k] == picks[..k];
      } else {
        assert more[..k] == picks;
      }
    }
  }

  // batches.entry(peer).or_default().push(i)
  function WithPick(batches: map<PeerId, seq<nat>>, pick: Option<PeerId>, i: nat): map<PeerId, seq<nat>> {
    match pick
    case None => batches
    case Some(p) => batches[p := (if p in batches then batches[p] else []) + [i]]
  }

  lemma DispatchStep(s: Sched, maxInFlight: nat, now: nat, picks: Picks, pick: Option<PeerId>, batches: map<PeerId, seq<nat>>)
    requires |picks| < |s.blocks| && Greedy(s, maxInFlight, now, picks)
    requires ValidPick(AfterPicks(s, picks, now), |picks|, maxInFlight, pick)
    requires AreBatches(picks, batches)
    ensures Greedy(s, maxInFlight, now, picks + [pick])
    ensures OnePick(AfterPicks(s, picks, now), AfterPicks(s, picks + [pick], now), |picks|, pick, now)
    ensures AreBatches(picks + [pick], WithPick(batches, pick, |picks|))
  {
    ExtendGreedy(s, maxInFlight, now, picks, pick);
    PicksExtend(s, picks, pick, now);
    if pick.None? {
      SkipBatches(picks, batches);
    } else {
      ExtendBatches(picks, batches, pick.value);
    }
  }

  lemma ExtendBatches(picks: Picks, batches: map<PeerId, seq<nat>>, p: PeerId)
    requires AreBatches(picks, batches)
    ensures AreBatches(picks + [Some(p)], batches[p := (if p in batches then batches[p] else []) + [|picks|]])
  {
    var before := if p in batches then batches[p] else [];
    var now := before + [|picks|];
    GivenExtends(picks, Some(p), p);
    assert Elements(before) == Given(picks, p);
    assert Elements(now) == Elements(before) + {|picks|};
    forall i | 0 <= i < |before|
      ensures before[i] < |picks|
    {
      assert before[i] in before;
      assert before[i] in Given(picks, p);
    }
    forall q | q != p
      ensures Given(picks + [Some(p)], q) == Given(picks, q)
    {
      GivenExtends(picks, Some(p), q);
    }
  }

  lemma SkipBatches(picks: Picks, batches: map<PeerId, seq<nat>>)
    requires AreBatches(picks, batches)
    ensures AreBatches(picks + [None], batches)
  {
    forall q
      ensures Given(picks + [None], q) == Given(picks, q)
    {
      GivenExtends(picks, None, q);
    }
  }

  lemma {:induction false} IncreasingCard(a: seq<nat>)
    requires StrictlyIncreasing(a)
    ensures |Elements(a)| == |a|
  {
    if a != [] {
      var front, last := a[..|a| - 1], a[|a| - 1];
      IncreasingCard(front);
      assert a == front + [last];
      assert Elements(a) == Elements(front) + {last};
      assert last !in Elements(front);
    }
  }

  // batches.values().map(Vec::len).sum()
  method CountBatches(ghost picks: Picks, batches: map<PeerId, seq<nat>>) returns (total: nat)
    requires AreBatches(picks, batches)
    ensures total == |Assigned(picks)|
  {
    total := 0;
    var rest := batches.Keys;
    ghost var counted: set<nat> := {};
    while rest != {}
      invariant rest <= batches.Keys
      invariant counted == set i | i in Assigned(picks) && picks[i].value !in rest
      invariant total == |counted|
      decreases rest
    {
      var p :| p in rest;
      IncreasingCard(batches[p]);
      assert Elements(batches[p]) == Given(picks, p);
      assert forall i :: i in Given(picks, p) <==> i in Assigned(picks) && picks[i].value == p;
      total := total + |batches[p]|;
      rest := rest - {p};
      counted := counted + Given(picks, p);
    }
    assert counted == Assigned(picks);
  }
}
