// How good one greedy dispatch round is: it is maximal, sends at least half of
// what any other assignment could send, and keeps equal loads equal.

module DispatchQuality {
  import opened Common
  import opened Scheduler
  import opened Invariants

  // ---- Maximality ----

  lemma GivenGrows(picks: Picks, k: nat, p: PeerId)
    requires k <= |picks|
    ensures Given(picks[..k], p) <= Given(picks, p)
  {
    assert forall i :: PickedFor(picks[..k], i, p) ==> PickedFor(picks, i, p);
  }

  // After a round no block is left pending at a peer that still has room for it.
  lemma RoundIsMaximal(s: Sched, maxInFlight: nat, now: nat, picks: Picks, i: nat, p: PeerId)
    requires IsDispatch(s, maxInFlight, now, picks)
    requires i < |s.blocks| && p in s.peers
    requires AfterPicks(s, picks, now).blocks[i].Pending? && i in s.peers[p].available
    ensures |AfterPicks(s, picks, now).peers[p].inFlight| >= maxInFlight
  {
    var a, b := AfterPicks(s, picks[..i], now), AfterPicks(s, picks, now);
    assert a.blocks[i] == s.blocks[i];
    assert ValidPick(a, i, maxInFlight, picks[i]);
    assert !Eligible(a, i, maxInFlight, p);
    GivenGrows(picks, i, p);
    SubsetCard(a.peers[p].inFlight, b.peers[p].inFlight);
  }

  // ---- A round can always be made ----

  predicate Unbeaten(s: Sched, i: nat, maxInFlight: nat, peers: set<PeerId>, pick: Option<PeerId>) {
    if pick.None? then forall p :: p in peers && p in s.peers ==> !Eligible(s, i, maxInFlight, p)
    else
      && Eligible(s, i, maxInFlight, pick.value)
      && forall q :: q in peers && q in s.peers && Eligible(s, i, maxInFlight, q) ==> NoWorse(s.peers[pick.value], s.peers[q])
  }

  lemma {:induction false} BestExists(s: Sched, i: nat, maxInFlight: nat, peers: set<PeerId>) returns (pick: Option<PeerId>)
    ensures Unbeaten(s, i, maxInFlight, peers, pick)
    decreases peers
  {
    pick := None;
    if peers != {} {
      var p :| p in peers;
      pick := BestExists(s, i, maxInFlight, peers - {p});
      if p in s.peers && Eligible(s, i, maxInFlight, p) && (pick.None? || !NoWorse(s.peers[pick.value], s.peers[p])) {
        pick := Some(p);
      }
    }
  }

  lemma PickExists(s: Sched, i: nat, maxInFlight: nat) returns (pick: Option<PeerId>)
    requires i < |s.blocks|
    ensures ValidPick(s, i, maxInFlight, pick)
  {
    pick := None;
    if s.blocks[i].Pending? {
      pick := BestExists(s, i, maxInFlight, s.peers.Keys);
    }
  }

  // Any greedy beginning of a round can be carried on to its end.
  lemma {:induction false} RestOfRound(s: Sched, maxInFlight: nat, now: nat, start: Picks) returns (picks: Picks)
    requires Greedy(s, maxInFlight, now, start)
    ensures IsDispatch(s, maxInFlight, now, picks) && start <= picks
    decreases |s.blocks| - |start|
  {
    picks := start;
    if |start| < |s.blocks| {
      var pick := PickExists(AfterPicks(s, start, now), |start|, maxInFlight);
      ExtendGreedy(s, maxInFlight, now, start, pick);
      picks := RestOfRound(s, maxInFlight, now, start + [pick]);
    }
  }

  lemma RoundExists(s: Sched, maxInFlight: nat, now: nat) returns (picks: Picks)
    ensures IsDispatch(s, maxInFlight, now, picks)
  {
    picks := RestOfRound(s, maxInFlight, now, []);
  }

  // An idle peer without failures can be given the first pending block it has.
  lemma RoundThrough(s: Sched, maxInFlight: nat, now: nat, i: nat, q: PeerId) returns (picks: Picks)
    requires maxInFlight >= 1 && i < |s.blocks| && s.blocks[i].Pending?
    requires q in s.peers && s.peers[q].inFlight == {} && s.peers[q].failures == 0 && i in s.peers[q].available
    requires forall j :: 0 <= j < i && s.blocks[j].Pending? ==> j !in s.peers[q].available
    ensures IsDispatch(s, maxInFlight, now, picks) && picks[i] == Some(q)
  {
    var all := RoundExists(s, maxInFlight, now);
    var start := all[..i];
    GreedyPrefix(s, maxInFlight, now, all, i);
    NothingYet(s, maxInFlight, now, start, q);
    var a := AfterPicks(s, start, now);
    assert a.blocks[i] == s.blocks[i];
    ExtendGreedy(s, maxInFlight, now, start, Some(q));
    picks := RestOfRound(s, maxInFlight, now, start + [Some(q)]);
    assert picks[i] == (start + [Some(q)])[i];
  }

  lemma NothingYet(s: Sched, maxInFlight: nat, now: nat, start: Picks, q: PeerId)
    requires Greedy(s, maxInFlight, now, start) && q in s.peers
    requires forall j :: 0 <= j < |start| && s.blocks[j].Pending? ==> j !in s.peers[q].available
    ensures AfterPicks(s, start, now).peers[q] == s.peers[q]
  {
    forall j: nat
      ensures j !in Given(start, q)
    {
      if j in Given(start, q) {
        GivenIsAvailable(s, maxInFlight, now, start, q, j);
      }
    }
    assert Given(start, q) == {};
    assert s.peers[q].inFlight + {} == s.peers[q].inFlight;
  }

  lemma GivenIsAvailable(s: Sched, maxInFlight: nat, now: nat, start: Picks, q: PeerId, j: nat)
    requires Greedy(s, maxInFlight, now, start) && q in s.peers && j in Given(start, q)
    ensures j < |s.blocks| && j < |start| && s.blocks[j].Pending? && j in s.peers[q].available
  {
    PickedArePending(s, maxInFlight, now, start);
    assert j in Assigned(start);
  }

  // ---- Half of the optimum ----

  // Another way to use the same round: pending blocks to peers that have them,
  // within the room each peer has left.
  ghost predicate IsAlternative(s: Sched, maxInFlight: nat, other: map<nat, PeerId>) {
    && (forall i :: i in other ==> i < |s.blocks| && s.blocks[i].Pending? && other[i] in s.peers && i in s.peers[other[i]].available)
    && (forall p :: p in s.peers ==> |Fibre(other.Keys, other, p)| + |s.peers[p].inFlight| <= Max(maxInFlight, |s.peers[p].inFlight|))
  }

  function PickMap(picks: Picks): map<nat, PeerId> {
    map i | i in Assigned(picks) :: picks[i].value
  }

  // The peer's count grows by exactly what it was given.
  lemma CountsAdd(s: Sched, maxInFlight: nat, now: nat, picks: Picks, p: PeerId)
    requires SchedInv(s, maxInFlight) && Greedy(s, maxInFlight, now, picks) && p in s.peers
    ensures |AfterPicks(s, picks, now).peers[p].inFlight| == |s.peers[p].inFlight| + |Given(picks, p)|
  {
    assert s.peers[p].inFlight !! Given(picks, p) by {
      PickedArePending(s, maxInFlight, now, picks);
      forall i | i in Given(picks, p)
        ensures i !in s.peers[p].inFlight
      {
        assert i in Assigned(picks);
        PendingIsUncounted(s, maxInFlight, i, p);
      }
    }
    DisjointCard(s.peers[p].inFlight, Given(picks, p));
  }

  // Charging: a block the alternative sends to p but the round left pending is
  // paid for by a block the round did send to p, because p must be full.
  lemma LeftoverIsCharged(s: Sched, maxInFlight: nat, now: nat, picks: Picks, other: map<nat, PeerId>, left: set<nat>, p: PeerId)
    requires SchedInv(s, maxInFlight) && IsDispatch(s, maxInFlight, now, picks) && IsAlternative(s, maxInFlight, other)
    requires left == set i | i in other && i !in Assigned(picks)
    requires p in s.peers
    ensures |Fibre(left, other, p)| <= |Given(picks, p)|
  {
    if i :| i in Fibre(left, other, p) {
      assert AfterPicks(s, picks, now).blocks[i].Pending?;
      RoundIsMaximal(s, maxInFlight, now, picks, i, p);
      CountsAdd(s, maxInFlight, now, picks, p);
      SubsetCard(Fibre(left, other, p), Fibre(other.Keys, other, p));
    }
  }

  lemma LeftoversArePaidFor(s: Sched, maxInFlight: nat, now: nat, picks: Picks, other: map<nat, PeerId>, left: set<nat>)
    requires SchedInv(s, maxInFlight) && IsDispatch(s, maxInFlight, now, picks) && IsAlternative(s, maxInFlight, other)
    requires left == set i | i in other && i !in Assigned(picks)
    ensures |left| <= |Assigned(picks)|
  {
    var sent := Assigned(picks);
    forall p | p in s.peers.Keys
      ensures |Fibre(left, other, p)| <= |Fibre(sent, PickMap(picks), p)|
    {
      LeftoverIsCharged(s, maxInFlight, now, picks, other, left, p);
      FibreIsGiven(picks, p);
    }
    FibreBound(left, other, sent, PickMap(picks), s.peers.Keys);
  }

  lemma FibreIsGiven(picks: Picks, p: PeerId)
    ensures Fibre(Assigned(picks), PickMap(picks), p) == Given(picks, p)
  {
    assert forall i :: i in Given(picks, p) <==> i in Assigned(picks) && picks[i].value == p;
  }

  // Whatever another scheduler could have requested in this round, with the same
  // availability and the same room at each peer, is at most twice what was requested.
  lemma GreedyIsHalfOptimal(s: Sched, maxInFlight: nat, now: nat, picks: Picks, other: map<nat, PeerId>)
    requires SchedInv(s, maxInFlight) && IsDispatch(s, maxInFlight, now, picks) && IsAlternative(s, maxInFlight, other)
    ensures |other| <= 2 * |Assigned(picks)|
  {
    var sent := Assigned(picks);
    var left := set i | i in other && i !in sent;
    LeftoversArePaidFor(s, maxInFlight, now, picks, other, left);
    SplitByAssigned(other, sent, left);
  }

  lemma SplitByAssigned(other: map<nat, PeerId>, sent: set<nat>, left: set<nat>)
    requires left == set i | i in other && i !in sent
    ensures |other| <= |left| + |sent|
  {
    var both := other.Keys * sent;
    assert left == other.Keys - both;
    SplitCard(other.Keys, both);
    SubsetCard(both, sent);
    assert |other| == |other.Keys|;
  }

  // The factor is reached: block 1 is only at peer 0, block 0 at both, and a tie
  // lets the round spend peer 0's single slot on block 0.
  function TightState(): Sched {
    Sched([Pending, Pending], map[0 := PeerFetch({0, 1}, {}, 0, 0), 1 := PeerFetch({0}, {}, 0, 0)])
  }

  lemma FactorTwoIsTight()
    ensures var s := TightState();
            var picks: Picks := [Some(0), None];
            var other: map<nat, PeerId> := map[0 := 1, 1 := 0];
            && SchedInv(s, 1) && IsDispatch(s, 1, 0, picks) && IsAlternative(s, 1, other)
            && |other| == 2 * |Assigned(picks)|
  {
    TightDispatch();
    TightAlternative();
    assert Assigned([Some(0), None]) == {0};
  }

  lemma TightAlternative()
    ensures var other: map<nat, PeerId> := map[0 := 1, 1 := 0];
            SchedInv(TightState(), 1) && IsAlternative(TightState(), 1, other) && |other| == 2
  {
    var other: map<nat, PeerId> := map[0 := 1, 1 := 0];
    assert other.Keys == {0, 1};
    assert Fibre(other.Keys, other, 0) == {1} && Fibre(other.Keys, other, 1) == {0};
  }

  lemma TightDispatch()
    ensures IsDispatch(TightState(), 1, 0, [Some(0), None])
  {
    var s := TightState();
    var picks: Picks := [Some(0), None];
    assert ValidPick(AfterPicks(s, picks[..0], 0), 0, 1, picks[0]) by {
      AfterNoPicks(s, 0);
      assert picks[..0] == [];
    }
    assert ValidPick(AfterPicks(s, picks[..1], 0), 1, 1, picks[1]) by {
      assert picks[..1] == [Some(0)];
      TightSecondPick();
    }
  }

  lemma TightSecondPick()
    ensures ValidPick(AfterPicks(TightState(), [Some(0)], 0), 1, 1, None)
  {
    var s := TightState();
    var a := AfterPicks(s, [Some(0)], 0);
    assert PickedFor([Some(0)], 0, 0);
    assert 0 in Given([Some(0)], 0);
    assert a.peers[0].inFlight == {} + Given([Some(0)], 0);
    assert a.peers[0].inFlight != {};
    assert a.peers[1].available == {0};
    assert a.blocks[1] == s.blocks[1];
  }

  // ---- Balance ----

  ghost predicate Balanced(s: Sched) {
    forall p, q :: p in s.peers && q in s.peers ==> |s.peers[p].inFlight| <= |s.peers[q].inFlight| + 1
  }

  ghost predicate AllHavePending(s: Sched) {
    forall i, p :: 0 <= i < |s.blocks| && s.blocks[i].Pending? && p in s.peers ==> i in s.peers[p].available
  }

  // When every peer has every pending block, loads that differ by at most one
  // still differ by at most one after the round, at every prefix of it.
  lemma {:induction false} RoundKeepsBalance(s: Sched, maxInFlight: nat, now: nat, picks: Picks)
    requires SchedInv(s, maxInFlight) && Greedy(s, maxInFlight, now, picks)
    requires AllHavePending(s) && Balanced(s)
    ensures Balanced(AfterPicks(s, picks, now))
    decreases |picks|
  {
    if picks == [] {
      AfterNoPicks(s, now);
    } else {
      var k := |picks| - 1;
      var front, pick := picks[..k], picks[k];
      assert picks == front + [pick];
      GreedyPrefix(s, maxInFlight, now, picks, k);
      RoundKeepsBalance(s, maxInFlight, now, front);
      PicksKeep(s, front, now, maxInFlight);
      OnePickKeepsBalance(s, maxInFlight, now, front, pick);
    }
  }

  lemma OnePickKeepsBalance(s: Sched, maxInFlight: nat, now: nat, picks: Picks, pick: Option<PeerId>)
    requires |picks| < |s.blocks| && ValidPick(AfterPicks(s, picks, now), |picks|, maxInFlight, pick)
    requires SchedInv(AfterPicks(s, picks, now), maxInFlight) && Balanced(AfterPicks(s, picks, now)) && AllHavePending(s)
    ensures Balanced(AfterPicks(s, picks + [pick], now))
  {
    var a, b := AfterPicks(s, picks, now), AfterPicks(s, picks + [pick], now);
    PicksExtend(s, picks, pick, now);
    if pick.Some? {
      LightestPickKeepsBalance(s, a, b, |picks|, pick.value, now, maxInFlight);
    }
  }

  lemma LightestPickKeepsBalance(s: Sched, a: Sched, b: Sched, i: nat, p: PeerId, now: nat, maxInFlight: nat)
    requires SchedInv(a, maxInFlight) && Balanced(a) && AllHavePending(s)
    requires i < |a.blocks| == |s.blocks| && a.blocks[i] == s.blocks[i] && s.blocks[i].Pending?
    requires s.peers.Keys == a.peers.Keys && forall q :: q in a.peers ==> a.peers[q].available == s.peers[q].available
    requires ValidPick(a, i, maxInFlight, Some(p)) && OnePick(a, b, i, Some(p), now)
    ensures Balanced(b)
  {
    assert i !in a.peers[p].inFlight;
    assert |b.peers[p].inFlight| == |a.peers[p].inFlight| + 1;
    forall q | q in a.peers
      ensures |a.peers[p].inFlight| <= |a.peers[q].inFlight|
    {
      assert i in a.peers[q].available;
      if |a.peers[q].inFlight| < maxInFlight {
        assert Eligible(a, i, maxInFlight, q);
      }
    }
  }
}
