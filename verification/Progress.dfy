// Whole-run results: what comes out, how much work can happen, and when a
// download may stop.

module Progress {
  import opened Common
  import opened Ledger
  import opened Scheduler
  import opened Invariants
  import opened DispatchQuality

  // ---- What comes out ----

  // No payload of the run collides with a block of the nar.
  ghost predicate HonestHashes(c: Setup, steps: seq<Step>, data: Bytes, size: nat)
    requires size > 0
  {
    forall n, k :: 0 <= n < |steps| && steps[n].Answer? && 0 <= k < |steps[n].reply| ==>
      NoCollision(c.h, data, size, steps[n].reply[k].1)
  }

  lemma {:induction false} RunStaysGenuine(c: Setup, st: State, steps: seq<Step>, data: Bytes, size: nat)
    requires Inv(c, st) && Legal(c, st, steps) && HashedFrom(c.h, c.info, data, size)
    requires HonestHashes(c, steps, data, size) && Genuine(st.receivers, data, size)
    ensures Genuine(After(c, st, steps).receivers, data, size)
  {
    if steps != [] {
      var n := |steps| - 1;
      var front := steps[..n];
      RunStaysGenuine(c, st, front, data, size);
      RunKeeps(c, st, front);
      if steps[n].Answer? {
        RecordKeepsGenuine(c.h, c.info, After(c, st, front).receivers, steps[n].peer, steps[n].reply, data, size);
      }
    }
  }

  // Whatever the peers sent, in whatever order, and whichever copy of each block
  // is picked: once the ledger is complete, assembly returns the original nar.
  lemma EveryRunReassembles(c: Setup, handshakes: map<PeerId, set<nat>>, steps: seq<Step>, data: Bytes, size: nat, narHash: string, narSize: nat, parts: seq<Bytes>)
    requires HashesOf(c.h, c.info, data, size) && NarHashMatches(c.h, narHash, data)
    requires narSize == 0 || narSize == |data|
    requires Legal(c, Initial(c, handshakes), steps) && HonestHashes(c, steps, data, size)
    requires IsChoice(After(c, Initial(c, handshakes), steps).receivers, c.info.blockCount, parts)
    ensures Joined(c.h, narHash, narSize, parts) == Ok(data)
  {
    var st := Initial(c, handshakes);
    InitialInv(c, handshakes);
    RunKeeps(c, st, steps);
    RunStaysGenuine(c, st, steps, data, size);
    var end := After(c, st, steps);
    GenuineAssembles(c.h, c.info, end.receivers, data, size, parts, narHash, narSize);
  }

  // ---- How much can be accepted ----

  function Filled(receivers: Receivers, count: nat): set<(PeerId, nat)> {
    set p, i | p in receivers.Keys && 0 <= i < count && Holds(receivers, p, i) :: (p, i)
  }

  function Slot(p: PeerId, i: nat): (PeerId, nat) {
    (p, i)
  }

  function AllSlots(peers: set<PeerId>, count: nat): set<(PeerId, nat)> {
    set p, i | p in peers && 0 <= i < count :: Slot(p, i)
  }

  lemma {:induction false} RowSlotsCard(p: PeerId, count: nat)
    ensures |AllSlots({p}, count)| == count
  {
    if count == 0 {
      assert AllSlots({p}, 0) == {};
    } else {
      RowSlotsCard(p, count - 1);
      assert AllSlots({p}, count) == AllSlots({p}, count - 1) + {Slot(p, count - 1)};
    }
  }

  lemma {:induction false} AllSlotsCard(peers: set<PeerId>, count: nat)
    ensures |AllSlots(peers, count)| == |peers| * count
    decreases peers
  {
    if peers == {} {
      assert AllSlots(peers, count) == {};
    } else {
      var p :| p in peers;
      AllSlotsCard(peers - {p}, count);
      RowSlotsCard(p, count);
      assert AllSlots(peers, count) == AllSlots(peers - {p}, count) + AllSlots({p}, count);
      DisjointCard(AllSlots(peers - {p}, count), AllSlots({p}, count));
      assert |peers| == |peers - {p}| + 1;
      assert (|peers - {p}| + 1) * count == |peers - {p}| * count + count;
    }
  }

  function NewSlots(p: PeerId, accepted: seq<nat>): set<(PeerId, nat)> {
    set k | 0 <= k < |accepted| :: Slot(p, accepted[k])
  }

  lemma {:induction false} NewSlotsCard(p: PeerId, accepted: seq<nat>)
    requires Distinct(accepted)
    ensures |NewSlots(p, accepted)| == |accepted|
  {
    if accepted == [] {
      assert NewSlots(p, accepted) == {};
    } else {
      var n := |accepted| - 1;
      NewSlotsCard(p, accepted[..n]);
      assert NewSlots(p, accepted) == NewSlots(p, accepted[..n]) + {Slot(p, accepted[n])} by {
        assert forall k :: 0 <= k < n ==> accepted[..n][k] == accepted[k];
      }
      assert Slot(p, accepted[n]) !in NewSlots(p, accepted[..n]);
    }
  }

  ghost function AcceptedBy(c: Setup, st: State, step: Step): nat
  {
    if step.Answer? then |ReceiversAfter(c.h, c.info, st.receivers, step.peer, step.reply).1| else 0
  }

  // An accepted count is the number of (peer, block) slots the step fills.
  lemma StepFillsAccepted(c: Setup, st: State, step: Step)
    requires Inv(c, st)
    ensures |Filled(Next(c, st, step).receivers, c.info.blockCount)|
         == |Filled(st.receivers, c.info.blockCount)| + AcceptedBy(c, st, step)
  {
    if step.Answer? && step.peer in st.receivers {
      var p := step.peer;
      var (receivers, accepted) := ReceiversAfter(c.h, c.info, st.receivers, p, step.reply);
      var n := c.info.blockCount;
      RecordedMeaning(c.h, c.info.blockHashes, st.receivers[p], step.reply);
      NewSlotsCard(p, accepted);
      forall q: PeerId, i: nat | i < n
        ensures (q, i) in Filled(receivers, n) <==> (q, i) in Filled(st.receivers, n) || (q == p && i in accepted)
      {
        assert q != p ==> Holds(receivers, q, i) == Holds(st.receivers, q, i);
      }
      forall q: PeerId, i: nat
        ensures (q, i) in NewSlots(p, accepted) <==> q == p && i in accepted
      {
        if q == p && i in accepted {
          var k :| 0 <= k < |accepted| && accepted[k] == i;
          assert Slot(p, accepted[k]) in NewSlots(p, accepted);
        }
      }
      assert Filled(receivers, n) == Filled(st.receivers, n) + NewSlots(p, accepted);
      assert Filled(st.receivers, n) !! NewSlots(p, accepted);
      DisjointCard(Filled(st.receivers, n), NewSlots(p, accepted));
    }
  }

  ghost function TotalAccepted(c: Setup, st: State, steps: seq<Step>): nat
  {
    if steps == [] then 0
    else
      var front := steps[..|steps| - 1];
      TotalAccepted(c, st, front) + AcceptedBy(c, After(c, st, front), steps[|steps| - 1])
  }

  // The answers that push the stall deadline back.
  ghost function Extensions(c: Setup, st: State, steps: seq<Step>): nat
  {
    if steps == [] then 0
    else
      var front := steps[..|steps| - 1];
      Extensions(c, st, front) + (if AcceptedBy(c, After(c, st, front), steps[|steps| - 1]) > 0 then 1 else 0)
  }

  lemma {:induction false} RunFillsAccepted(c: Setup, st: State, steps: seq<Step>)
    requires Inv(c, st) && Legal(c, st, steps)
    ensures |Filled(After(c, st, steps).receivers, c.info.blockCount)|
         == |Filled(st.receivers, c.info.blockCount)| + TotalAccepted(c, st, steps)
    ensures Extensions(c, st, steps) <= TotalAccepted(c, st, steps)
    ensures After(c, st, steps).receivers.Keys == st.receivers.Keys
  {
    if steps != [] {
      var front := steps[..|steps| - 1];
      RunFillsAccepted(c, st, front);
      RunKeeps(c, st, front);
      StepFillsAccepted(c, After(c, st, front), steps[|steps| - 1]);
    }
  }

  // Over any run the accepted counts add up to at most one a (peer, block) slot,
  // and so the stall deadline is extended at most that often.
  lemma ProgressIsBounded(c: Setup, handshakes: map<PeerId, set<nat>>, steps: seq<Step>)
    requires Legal(c, Initial(c, handshakes), steps)
    ensures TotalAccepted(c, Initial(c, handshakes), steps) <= |handshakes| * c.info.blockCount
    ensures Extensions(c, Initial(c, handshakes), steps) <= |handshakes| * c.info.blockCount
  {
    var st := Initial(c, handshakes);
    InitialInv(c, handshakes);
    RunFillsAccepted(c, st, steps);
    var filled := Filled(After(c, st, steps).receivers, c.info.blockCount);
    assert Filled(st.receivers, c.info.blockCount) == {};
    assert st.receivers.Keys == handshakes.Keys && |handshakes| == |handshakes.Keys|;
    AllSlotsCard(handshakes.Keys, c.info.blockCount);
    assert filled <= AllSlots(handshakes.Keys, c.info.blockCount) by {
      forall p, i | (p, i) in filled
        ensures (p, i) in AllSlots(handshakes.Keys, c.info.blockCount)
      {
        assert Slot(p, i) in AllSlots(handshakes.Keys, c.info.blockCount);
      }
    }
    SubsetCard(filled, AllSlots(handshakes.Keys, c.info.blockCount));
  }

  // ---- Every request is accounted for ----

  function FlightSet(s: Sched): set<nat> {
    set i | 0 <= i < |s.blocks| && s.blocks[i].InFlight?
  }

  function SentBy(step: Step): nat {
    if step.Dispatch? then |Assigned(step.picks)| else 0
  }

  // Blocks the step puts back in the queue: expired, failed or rejected.
  ghost function RequeuedBy(c: Setup, st: State, step: Step): set<nat>
  {
    match step
    case Expire(now) => ExpiredBlocks(st.sched, now, c.timeout)
    case Fail(p) => FlyingAt(st.sched, p)
    case Answer(p, reply) =>
      set i | i in FlyingAt(st.sched, p) && i in ReplyIndices(reply) && i !in ReceiversAfter(c.h, c.info, st.receivers, p, reply).1
    case Dispatch(_, _) => {}
  }

  // Blocks in flight, at any peer, that the step completes.
  ghost function LandedBy(c: Setup, st: State, step: Step): set<nat>
  {
    if step.Answer? then
      set i | i in FlightSet(st.sched) && i in ReceiversAfter(c.h, c.info, st.receivers, step.peer, step.reply).1
    else {}
  }

  lemma StepBalances(c: Setup, st: State, step: Step)
    requires Inv(c, st) && Enabled(c, st, step)
    ensures |FlightSet(st.sched)| + SentBy(step)
         == |FlightSet(Next(c, st, step).sched)| + |RequeuedBy(c, st, step)| + |LandedBy(c, st, step)|
  {
    if step.Dispatch? {
      DispatchBalances(c, st, step);
    } else {
      LandingBalances(c, st, step);
    }
  }

  lemma DispatchBalances(c: Setup, st: State, step: Step)
    requires Inv(c, st) && Enabled(c, st, step) && step.Dispatch?
    ensures |FlightSet(Next(c, st, step).sched)| == |FlightSet(st.sched)| + |Assigned(step.picks)|
  {
    PickedArePending(st.sched, c.maxInFlight, step.now, step.picks);
    assert FlightSet(Next(c, st, step).sched) == FlightSet(st.sched) + Assigned(step.picks);
    DisjointCard(FlightSet(st.sched), Assigned(step.picks));
  }

  lemma LandingBalances(c: Setup, st: State, step: Step)
    requires Inv(c, st) && !step.Dispatch?
    ensures |FlightSet(st.sched)|
         == |FlightSet(Next(c, st, step).sched)| + |RequeuedBy(c, st, step)| + |LandedBy(c, st, step)|
  {
    var before, back, landed := FlightSet(st.sched), RequeuedBy(c, st, step), LandedBy(c, st, step);
    assert back !! landed && back + landed <= before;
    DisjointCard(back, landed);
    FlightsAfter(c, st, step);
    SplitCard(before, back + landed);
  }

  lemma FlightsAfter(c: Setup, st: State, step: Step)
    requires Inv(c, st) && !step.Dispatch?
    ensures FlightSet(Next(c, st, step).sched)
         == FlightSet(st.sched) - (RequeuedBy(c, st, step) + LandedBy(c, st, step))
  {
  }

  ghost function TotalSent(steps: seq<Step>): nat {
    if steps == [] then 0 else TotalSent(steps[..|steps| - 1]) + SentBy(steps[|steps| - 1])
  }

  ghost function TotalRequeued(c: Setup, st: State, steps: seq<Step>): nat
  {
    if steps == [] then 0
    else
      var front := steps[..|steps| - 1];
      TotalRequeued(c, st, front) + |RequeuedBy(c, After(c, st, front), steps[|steps| - 1])|
  }

  ghost function TotalLanded(c: Setup, st: State, steps: seq<Step>): nat
  {
    if steps == [] then 0
    else
      var front := steps[..|steps| - 1];
      TotalLanded(c, st, front) + |LandedBy(c, After(c, st, front), steps[|steps| - 1])|
  }

  // Over any run, every block request either is still out, came back to the
  // queue (expired, failed, rejected), or was completed while in flight.
  lemma {:induction false} RequestsAreConserved(c: Setup, st: State, steps: seq<Step>)
    requires Inv(c, st) && Legal(c, st, steps)
    ensures |FlightSet(st.sched)| + TotalSent(steps)
         == |FlightSet(After(c, st, steps).sched)| + TotalRequeued(c, st, steps) + TotalLanded(c, st, steps)
  {
    if steps != [] {
      var front := steps[..|steps| - 1];
      RequestsAreConserved(c, st, front);
      RunKeeps(c, st, front);
      StepBalances(c, After(c, st, front), steps[|steps| - 1]);
    }
  }

  // ---- When to stop ----

  ghost predicate NothingCounted(s: Sched) {
    forall p :: p in s.peers ==> s.peers[p].inFlight == {}
  }

  // If nothing is counted in flight after a round, every incomplete block is
  // available nowhere: giving up then loses nothing that could be fetched.
  lemma GivingUpIsSound(c: Setup, st: State, now: nat, picks: Picks, i: nat, p: PeerId)
    requires Inv(c, st) && IsDispatch(st.sched, c.maxInFlight, now, picks) && c.maxInFlight >= 1
    requires NothingCounted(AfterPicks(st.sched, picks, now))
    requires i < |st.sched.blocks| && !AfterPicks(st.sched, picks, now).blocks[i].Complete? && p in st.sched.peers
    ensures AfterPicks(st.sched, picks, now).blocks[i].Pending?
    ensures i !in st.sched.peers[p].available
  {
    var t := AfterPicks(st.sched, picks, now);
    PicksKeep(st.sched, picks, now, c.maxInFlight);
    if t.blocks[i].InFlight? {
      assert Flying(t, i, t.blocks[i].peer);
      assert false;
    }
    if i in st.sched.peers[p].available {
      RoundIsMaximal(st.sched, c.maxInFlight, now, picks, i, p);
      assert false;
    }
  }

  // A round sends nothing exactly when every peer that has a pending block is full.
  lemma RoundSendsNothing(s: Sched, maxInFlight: nat, now: nat, picks: Picks)
    requires IsDispatch(s, maxInFlight, now, picks)
    ensures Assigned(picks) == {} <==>
            forall i, p :: 0 <= i < |s.blocks| && s.blocks[i].Pending? && p in s.peers && i in s.peers[p].available ==>
              |s.peers[p].inFlight| >= maxInFlight
  {
    if Assigned(picks) == {} {
      forall i, p | 0 <= i < |s.blocks| && s.blocks[i].Pending? && p in s.peers && i in s.peers[p].available
        ensures |s.peers[p].inFlight| >= maxInFlight
      {
        assert i !in Assigned(picks);
        RoundIsMaximal(s, maxInFlight, now, picks, i, p);
        assert Given(picks, p) == {} by {
          assert Given(picks, p) <= Assigned(picks);
        }
        assert s.peers[p].inFlight + {} == s.peers[p].inFlight;
      }
    } else {
      var i :| i in Assigned(picks);
      var a, p := AfterPicks(s, picks[..i], now), picks[i].value;
      assert ValidPick(a, i, maxInFlight, picks[i]);
      assert s.blocks[i].Pending?;
      SubsetCard(s.peers[p].inFlight, a.peers[p].inFlight);
    }
  }
}
