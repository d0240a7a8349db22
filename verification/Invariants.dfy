// What every step of a download keeps, over every interleaving of dispatches,
// replies (right, wrong, repeated, late, unsolicited), failures and expiries.

module Invariants {
  import opened Common
  import opened Blocks
  import opened Ledger
  import opened Scheduler

  datatype State = State(sched: Sched, receivers: Receivers)

  datatype Setup = Setup(h: Hasher, info: BlockInfo, maxInFlight: nat, timeout: nat)

  datatype Step =
    | Expire(now: nat)
    | Dispatch(now: nat, picks: Picks)
    | Answer(peer: PeerId, reply: Reply)
    | Fail(failed: PeerId)

  ghost predicate Enabled(c: Setup, st: State, step: Step) {
    match step
    case Dispatch(now, picks) => IsDispatch(st.sched, c.maxInFlight, now, picks)
    case Answer(p, reply) => !Aborts(c.info, st.receivers, p, reply)
    case _ => true
  }

  ghost function Next(c: Setup, st: State, step: Step): State
  {
    match step
    case Expire(now) => State(AfterExpiry(st.sched, ExpiredBlocks(st.sched, now, c.timeout)), st.receivers)
    case Dispatch(now, picks) => State(AfterPicks(st.sched, picks, now), st.receivers)
    case Answer(p, reply) =>
      var (receivers, accepted) := ReceiversAfter(c.h, c.info, st.receivers, p, reply);
      State(AfterReply(st.sched, p, reply, accepted), receivers)
    case Fail(p) => State(AfterFailure(st.sched, p), st.receivers)
  }

  // ---- The invariant ----

  // A block in flight is in the set of the peer it is in flight at.
  ghost predicate FlyingIsCounted(s: Sched) {
    forall i, p :: Flying(s, i, p) ==> p in s.peers && i in s.peers[p].inFlight
  }

  // Everything counted at a peer is in flight there, or already complete: a late
  // reply from another peer completes a block without clearing the counter.
  ghost predicate CountedIsFlying(s: Sched) {
    forall p, i :: p in s.peers && i in s.peers[p].inFlight ==> Flying(s, i, p) || (i < |s.blocks| && s.blocks[i].Complete?)
  }

  ghost predicate WithinLimits(s: Sched, maxInFlight: nat) {
    forall p :: p in s.peers ==>
      && s.peers[p].inFlight <= s.peers[p].available
      && |s.peers[p].inFlight| <= maxInFlight
      && (forall i :: i in s.peers[p].available ==> i < |s.blocks|)
  }

  ghost predicate SchedInv(s: Sched, maxInFlight: nat) {
    FlyingIsCounted(s) && CountedIsFlying(s) && WithinLimits(s, maxInFlight)
  }

  // A block is complete exactly when some receiver holds it.
  ghost predicate InStep(c: Setup, st: State) {
    && st.receivers.Keys == st.sched.peers.Keys
    && |st.sched.blocks| == c.info.blockCount
    && forall i :: 0 <= i < c.info.blockCount ==> (st.sched.blocks[i].Complete? <==> Held(st.receivers, i))
  }

  ghost predicate Inv(c: Setup, st: State) {
    && SchedInv(st.sched, c.maxInFlight)
    && LedgerValid(c.h, c.info, st.receivers)
    && InStep(c, st)
  }

  // ---- Each step keeps it ----

  lemma ExpiryKeeps(s: Sched, gone: set<nat>, maxInFlight: nat)
    requires SchedInv(s, maxInFlight)
    requires forall i :: i in gone ==> i < |s.blocks| && s.blocks[i].InFlight?
    ensures SchedInv(AfterExpiry(s, gone), maxInFlight)
  {
    var t := AfterExpiry(s, gone);
    forall i, p
      ensures Flying(t, i, p) <==> Flying(s, i, p) && i !in gone
    {
    }
    forall p, i | p in s.peers
      ensures i in t.peers[p].inFlight <==> i in s.peers[p].inFlight && !(i in gone && Flying(s, i, p))
    {
    }
    ShrinkingKeeps(s, t, gone, maxInFlight);
  }

  // Blocks that fly leave flight and their peer's set together.
  lemma ShrinkingKeeps(s: Sched, t: Sched, gone: set<nat>, maxInFlight: nat)
    requires SchedInv(s, maxInFlight)
    requires |t.blocks| == |s.blocks| && t.peers.Keys == s.peers.Keys
    requires forall p :: p in s.peers ==> t.peers[p].available == s.peers[p].available
    requires forall i, p :: Flying(t, i, p) <==> Flying(s, i, p) && i !in gone
    requires forall p, i :: p in s.peers ==> (i in t.peers[p].inFlight <==> i in s.peers[p].inFlight && !(i in gone && Flying(s, i, p)))
    requires forall i :: 0 <= i < |s.blocks| && s.blocks[i].Complete? ==> t.blocks[i].Complete?
    ensures SchedInv(t, maxInFlight)
  {
    forall p | p in t.peers
      ensures t.peers[p].inFlight <= s.peers[p].inFlight
      ensures |t.peers[p].inFlight| <= maxInFlight
    {
      SubsetCard(t.peers[p].inFlight, s.peers[p].inFlight);
    }
  }

  lemma FailureKeeps(s: Sched, p: PeerId, maxInFlight: nat)
    requires SchedInv(s, maxInFlight)
    ensures SchedInv(AfterFailure(s, p), maxInFlight)
  {
    var t := AfterFailure(s, p);
    assert forall i, q :: Flying(t, i, q) <==> Flying(s, i, q) && q != p;
    forall q | q in t.peers
      ensures t.peers[q].inFlight <= s.peers[q].inFlight
      ensures |t.peers[q].inFlight| <= maxInFlight
    {
      SubsetCard(t.peers[q].inFlight, s.peers[q].inFlight);
    }
  }

  lemma PicksKeep(s: Sched, picks: Picks, now: nat, maxInFlight: nat)
    requires SchedInv(s, maxInFlight) && Greedy(s, maxInFlight, now, picks)
    ensures SchedInv(AfterPicks(s, picks, now), maxInFlight)
    decreases |picks|
  {
    if picks == [] {
      AfterNoPicks(s, now);
    } else {
      var k := |picks| - 1;
      var front, pick := picks[..k], picks[k];
      assert picks == front + [pick];
      GreedyPrefix(s, maxInFlight, now, picks, k);
      PicksKeep(s, front, now, maxInFlight);
      var a, b := AfterPicks(s, front, now), AfterPicks(s, picks, now);
      PicksExtend(s, front, pick, now);
      if pick.Some? {
        PickKeeps(a, b, k, pick.value, now, maxInFlight);
      }
    }
  }

  lemma GreedyPrefix(s: Sched, maxInFlight: nat, now: nat, picks: Picks, k: nat)
    requires Greedy(s, maxInFlight, now, picks) && k <= |picks|
    ensures Greedy(s, maxInFlight, now, picks[..k])
  {
    forall j | 0 <= j < k
      ensures ValidPick(AfterPicks(s, picks[..k][..j], now), j, maxInFlight, picks[..k][j])
    {
      assert picks[..k][..j] == picks[..j];
    }
  }

  lemma PickKeeps(a: Sched, b: Sched, i: nat, p: PeerId, now: nat, maxInFlight: nat)
    requires SchedInv(a, maxInFlight) && i < |a.blocks| && a.blocks[i].Pending?
    requires Eligible(a, i, maxInFlight, p) && OnePick(a, b, i, Some(p), now)
    ensures SchedInv(b, maxInFlight)
  {
    assert forall j, q :: j != i ==> (Flying(b, j, q) <==> Flying(a, j, q));
    assert forall q :: Flying(b, i, q) <==> q == p;
    assert i !in a.peers[p].inFlight;
    assert |b.peers[p].inFlight| == |a.peers[p].inFlight| + 1;
  }

  lemma ReplyKeeps(c: Setup, st: State, p: PeerId, reply: Reply)
    requires Inv(c, st)
    ensures Inv(c, Next(c, st, Answer(p, reply)))
  {
    var (receivers, accepted) := ReceiversAfter(c.h, c.info, st.receivers, p, reply);
    var s, t := st.sched, AfterReply(st.sched, p, reply, accepted);
    RecordKeepsValid(c.h, c.info, st.receivers, p, reply);
    AcceptedAreHeld(c, st, p, reply);
    ReplyKeepsSched(s, p, reply, accepted, c.maxInFlight);
  }

  lemma ReplyKeepsSched(s: Sched, p: PeerId, reply: Reply, accepted: seq<nat>, maxInFlight: nat)
    requires SchedInv(s, maxInFlight)
    requires forall i :: i in accepted ==> i in ReplyIndices(reply)
    ensures SchedInv(AfterReply(s, p, reply, accepted), maxInFlight)
  {
    var t := AfterReply(s, p, reply, accepted);
    forall i, q
      ensures Flying(t, i, q) <==> Flying(s, i, q) && i !in accepted && !(q == p && i in ReplyIndices(reply))
    {
    }
    forall q | q in t.peers
      ensures t.peers[q].inFlight <= s.peers[q].inFlight
      ensures |t.peers[q].inFlight| <= maxInFlight
    {
      SubsetCard(t.peers[q].inFlight, s.peers[q].inFlight);
    }
  }

  // Recording a reply makes exactly the accepted blocks newly held.
  lemma AcceptedAreHeld(c: Setup, st: State, p: PeerId, reply: Reply)
    requires LedgerValid(c.h, c.info, st.receivers)
    ensures var (receivers, accepted) := ReceiversAfter(c.h, c.info, st.receivers, p, reply);
            && (forall i :: i in accepted ==> i < c.info.blockCount && i in ReplyIndices(reply) && Holds(receivers, p, i) && !Holds(st.receivers, p, i))
            && (forall i :: 0 <= i < c.info.blockCount ==> (Held(receivers, i) <==> Held(st.receivers, i) || i in accepted))
  {
    var (receivers, accepted) := ReceiversAfter(c.h, c.info, st.receivers, p, reply);
    if p in st.receivers {
      var hashes := c.info.blockHashes;
      RecordedMeaning(c.h, hashes, st.receivers[p], reply);
      forall i | i in accepted
        ensures i in ReplyIndices(reply)
      {
        var k :| 0 <= k < |reply| && Matches(c.h, hashes, reply, k, i);
      }
      forall i | 0 <= i < c.info.blockCount
        ensures Held(receivers, i) <==> Held(st.receivers, i) || i in accepted
      {
        assert forall q :: q != p ==> Holds(receivers, q, i) == Holds(st.receivers, q, i);
        assert Holds(receivers, p, i) <==> Holds(st.receivers, p, i) || i in accepted;
      }
    }
  }

  lemma StepKeeps(c: Setup, st: State, step: Step)
    requires Inv(c, st) && Enabled(c, st, step)
    ensures Inv(c, Next(c, st, step))
  {
    match step {
      case Expire(now) => ExpiryKeeps(st.sched, ExpiredBlocks(st.sched, now, c.timeout), c.maxInFlight);
      case Dispatch(now, picks) => PicksKeep(st.sched, picks, now, c.maxInFlight); PickedArePending(st.sched, c.maxInFlight, now, picks);
      case Answer(p, reply) => ReplyKeeps(c, st, p, reply);
      case Fail(p) => FailureKeeps(st.sched, p, c.maxInFlight);
    }
  }

  // Only Pending blocks are handed out.
  lemma PickedArePending(s: Sched, maxInFlight: nat, now: nat, picks: Picks)
    requires Greedy(s, maxInFlight, now, picks)
    ensures forall i :: i in Assigned(picks) ==> s.blocks[i].Pending? && picks[i].value in s.peers && i in s.peers[picks[i].value].available
  {
    forall i | i in Assigned(picks)
      ensures s.blocks[i].Pending? && picks[i].value in s.peers && i in s.peers[picks[i].value].available
    {
      assert ValidPick(AfterPicks(s, picks[..i], now), i, maxInFlight, picks[i]);
    }
  }

  // ---- Runs ----

  ghost function After(c: Setup, st: State, steps: seq<Step>): State
  {
    if steps == [] then st
    else Next(c, After(c, st, steps[..|steps| - 1]), steps[|steps| - 1])
  }

  ghost predicate Legal(c: Setup, st: State, steps: seq<Step>)
  {
    steps == [] ||
    (Legal(c, st, steps[..|steps| - 1]) && Enabled(c, After(c, st, steps[..|steps| - 1]), steps[|steps| - 1]))
  }

  lemma ExtendRun(c: Setup, st: State, steps: seq<Step>, step: Step)
    requires Legal(c, st, steps) && Enabled(c, After(c, st, steps), step)
    ensures Legal(c, st, steps + [step]) && After(c, st, steps + [step]) == Next(c, After(c, st, steps), step)
  {
    assert (steps + [step])[..|steps|] == steps;
  }

  // Nothing requested, nothing received, availability cut to the known blocks.
  function Initial(c: Setup, handshakes: map<PeerId, set<nat>>): State {
    State(
      Sched(
        seq(c.info.blockCount, _ => Pending),
        map p | p in handshakes :: PeerFetch(set i | i in handshakes[p] && i < c.info.blockCount, {}, 0, 0)),
      map p | p in handshakes :: seq(c.info.blockCount, _ => None))
  }

  lemma InitialInv(c: Setup, handshakes: map<PeerId, set<nat>>)
    ensures Inv(c, Initial(c, handshakes))
  {
  }

  lemma {:induction false} RunKeeps(c: Setup, st: State, steps: seq<Step>)
    requires Inv(c, st) && Legal(c, st, steps)
    ensures Inv(c, After(c, st, steps))
  {
    if steps != [] {
      var front := steps[..|steps| - 1];
      RunKeeps(c, st, front);
      StepKeeps(c, After(c, st, front), steps[|steps| - 1]);
    }
  }

  // ---- Consequences ----

  // The ledger's completeness test and the scheduler's block states agree.
  lemma CompleteTogether(c: Setup, st: State)
    requires InStep(c, st)
    ensures LedgerComplete(st.receivers, c.info.blockCount) <==> forall i :: 0 <= i < |st.sched.blocks| ==> st.sched.blocks[i].Complete?
  {
  }

  // A completed block never becomes anything else.
  lemma CompleteIsFinal(c: Setup, st: State, step: Step, i: nat)
    requires Inv(c, st) && Enabled(c, st, step)
    requires i < |st.sched.blocks| && st.sched.blocks[i].Complete?
    ensures Next(c, st, step).sched.blocks[i].Complete?
  {
    if step.Dispatch? {
      PickedArePending(st.sched, c.maxInFlight, step.now, step.picks);
    }
  }

  // A pending block is counted at no peer, so handing it out raises the count.
  lemma PendingIsUncounted(s: Sched, maxInFlight: nat, i: nat, p: PeerId)
    requires SchedInv(s, maxInFlight)
    requires i < |s.blocks| && s.blocks[i].Pending? && p in s.peers
    ensures i !in s.peers[p].inFlight
  {
  }

  // A reply from a peer that was never handshaken changes nothing at all.
  lemma UnsolicitedIsIgnored(c: Setup, st: State, p: PeerId, reply: Reply)
    requires Inv(c, st) && p !in st.receivers
    ensures Next(c, st, Answer(p, reply)) == st
  {
    assert forall i :: !Flying(st.sched, i, p);
    var t := Next(c, st, Answer(p, reply));
    forall i | 0 <= i < |st.sched.blocks|
      ensures t.sched.blocks[i] == st.sched.blocks[i]
    {
      assert !Flying(st.sched, i, p);
    }
    assert t.sched.blocks == st.sched.blocks;
  }
}
