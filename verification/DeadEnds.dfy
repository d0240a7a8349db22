// When a download can run into a state that only another answer could move while
// a connected peer has the missing block: exactly when the cap on requests a peer
// is below the block count and at least two peers take part. Both are known before
// the download starts.

module DeadEnds {
  import opened Common
  import opened Ledger
  import opened Scheduler
  import opened Invariants
  import opened DispatchQuality
  import opened Progress
  import opened DownloadLoop
  import opened LoopResults
  import opened StaleSlots
  import opened Serving

  // ---- What frozen means ----

  ghost predicate SomethingMissing(s: Sched) {
    exists i :: 0 <= i < |s.blocks| && !s.blocks[i].Complete?
  }

  ghost predicate ExpiryIdles(c: Setup, st: State) {
    forall now :: Next(c, st, Expire(now)) == st
  }

  ghost predicate RoundsIdle(c: Setup, st: State) {
    forall now, picks :: IsDispatch(st.sched, c.maxInFlight, now, picks) ==> Next(c, st, Dispatch(now, picks)) == st
  }

  // The frozen states are exactly those with a block missing that the loop does not
  // give up on and yet can change by no expiry and by no round.
  lemma FrozenIff(c: Setup, st: State)
    requires Inv(c, st)
    ensures Frozen(c, st) <==> SomethingMissing(st.sched) && !Idle(st.sched) && ExpiryIdles(c, st) && RoundsIdle(c, st)
  {
    if Frozen(c, st) {
      FrozenIdles(c, st);
    }
    if SomethingMissing(st.sched) && !Idle(st.sched) && ExpiryIdles(c, st) && RoundsIdle(c, st) {
      UnmovedHasNoFlights(c, st);
      UnmovedIsFull(c, st);
    }
  }

  lemma FrozenIdles(c: Setup, st: State)
    requires Frozen(c, st)
    ensures SomethingMissing(st.sched) && !Idle(st.sched) && ExpiryIdles(c, st) && RoundsIdle(c, st)
  {
    FrozenIsNotIdle(c, st);
    forall now {
      FrozenExpire(c, st, now);
    }
    forall now, picks | IsDispatch(st.sched, c.maxInFlight, now, picks)
      ensures Next(c, st, Dispatch(now, picks)) == st
    {
      FrozenDispatch(c, st, now, picks);
    }
  }

  lemma ExpiryMoves(c: Setup, st: State, i: nat)
    requires i < |st.sched.blocks| && st.sched.blocks[i].InFlight?
    ensures !ExpiryIdles(c, st)
  {
    var now := st.sched.blocks[i].at + c.timeout;
    assert Next(c, st, Expire(now)).sched.blocks[i].Pending?;
  }

  lemma UnmovedHasNoFlights(c: Setup, st: State)
    requires ExpiryIdles(c, st)
    ensures NoFlights(st.sched)
  {
    forall i | 0 <= i < |st.sched.blocks|
      ensures !st.sched.blocks[i].InFlight?
    {
      if st.sched.blocks[i].InFlight? {
        ExpiryMoves(c, st, i);
      }
    }
  }

  lemma PickMoves(c: Setup, st: State, now: nat, picks: Picks, i: nat)
    requires i in Assigned(picks) && i < |st.sched.blocks| && st.sched.blocks[i].Pending?
    ensures Next(c, st, Dispatch(now, picks)) != st
  {
    assert Next(c, st, Dispatch(now, picks)).sched.blocks[i].InFlight?;
  }

  lemma UnmovedIsFull(c: Setup, st: State)
    requires RoundsIdle(c, st)
    ensures forall i, p :: 0 <= i < |st.sched.blocks| && st.sched.blocks[i].Pending? && p in st.sched.peers && i in st.sched.peers[p].available ==>
              |st.sched.peers[p].inFlight| >= c.maxInFlight
  {
    var picks := RoundExists(st.sched, c.maxInFlight, 0);
    PickedArePending(st.sched, c.maxInFlight, 0, picks);
    forall i: nat
      ensures i !in Assigned(picks)
    {
      if i in Assigned(picks) {
        PickMoves(c, st, 0, picks, i);
      }
    }
    assert Assigned(picks) == {};
    RoundSendsNothing(st.sched, c.maxInFlight, 0, picks);
  }

  // ---- When it cannot happen ----

  // With room for every block it offers, whoever has a missing block can be asked
  // for it.
  lemma RoomPreventsDeadEnds(c: Setup, st: State, i: nat, p: PeerId)
    requires Frozen(c, st) && MissingAt(st.sched, i, p)
    ensures c.maxInFlight < |st.sched.peers[p].available| <= c.info.blockCount
  {
    var counted, offered := st.sched.peers[p].inFlight, st.sched.peers[p].available;
    PendingIsUncounted(st.sched, c.maxInFlight, i, p);
    assert counted <= offered - {i};
    SubsetCard(counted, offered - {i});
    SplitCard(offered, {i});
    SubsetCard(offered, Indices(c.info.blockCount));
  }

  ghost predicate NoStaleSlots(s: Sched) {
    forall p, i :: p in s.peers && i in s.peers[p].inFlight && i < |s.blocks| ==> !s.blocks[i].Complete?
  }

  lemma OnePeerStep(c: Setup, st: State, p: PeerId, step: Step)
    requires Inv(c, st) && Enabled(c, st, step) && st.sched.peers.Keys == {p} && NoStaleSlots(st.sched)
    ensures NoStaleSlots(Next(c, st, step).sched) && Next(c, st, step).sched.peers.Keys == {p}
  {
    match step {
      case Dispatch(now, picks) =>
        PickedArePending(st.sched, c.maxInFlight, now, picks);
        OnePeerRound(st.sched, picks, now);
      case Answer(q, reply) =>
        if q == p {
          AcceptedAreHeld(c, st, q, reply);
        } else {
          UnsolicitedIsIgnored(c, st, q, reply);
        }
      case _ =>
    }
  }

  lemma OnePeerRound(s: Sched, picks: Picks, now: nat)
    requires NoStaleSlots(s) && |picks| <= |s.blocks|
    ensures NoStaleSlots(AfterPicks(s, picks, now))
  {
    var t := AfterPicks(s, picks, now);
    forall p, i | p in t.peers && i in t.peers[p].inFlight && i < |t.blocks|
      ensures !t.blocks[i].Complete?
    {
      if i !in s.peers[p].inFlight {
        assert PickedFor(picks, i, p);
      }
    }
  }

  // A peer on its own never has a slot held by a complete block.
  lemma {:induction false} OnePeerRun(c: Setup, offers: map<PeerId, set<nat>>, p: PeerId, steps: seq<Step>)
    requires offers.Keys == {p} && Legal(c, Initial(c, offers), steps)
    ensures NoStaleSlots(After(c, Initial(c, offers), steps).sched)
    ensures After(c, Initial(c, offers), steps).sched.peers.Keys == {p}
  {
    if steps != [] {
      var front := steps[..|steps| - 1];
      OnePeerRun(c, offers, p, front);
      InitialInv(c, offers);
      RunKeeps(c, Initial(c, offers), front);
      OnePeerStep(c, After(c, Initial(c, offers), front), p, steps[|steps| - 1]);
    }
  }

  lemma StaleSlotNeeded(c: Setup, st: State)
    requires Frozen(c, st)
    ensures !NoStaleSlots(st.sched)
  {
    var p :| p in st.sched.peers && st.sched.peers[p].inFlight != {};
    var i :| i in st.sched.peers[p].inFlight;
    assert !Flying(st.sched, i, p);
  }

  // ---- Dead ends of the loop ----

  // The loop is still running, nothing but an answer can move it, and a connected
  // peer has a missing block.
  ghost predicate DeadEnded(w: Course) {
    && IsCourse(w) && At(w, |w.ticks|).exit.None? && Frozen(w.c, End(w))
    && exists i, p :: MissingAt(End(w).sched, i, p)
  }

  ghost predicate CanDeadEnd(c: Setup, started: nat, overall: nat, peers: set<PeerId>) {
    exists w: Course :: DeadEnded(w) && w.c == c && w.started == started && w.overall == overall && w.offers.Keys == peers
  }

  lemma OnePeerNeverFreezes(c: Setup, offers: map<PeerId, set<nat>>, p: PeerId, steps: seq<Step>, end: State)
    requires Reaches(c, Initial(c, offers), steps, end) && offers.Keys == {p}
    ensures !Frozen(c, end)
  {
    OnePeerRun(c, offers, p, steps);
    if Frozen(c, end) {
      StaleSlotNeeded(c, end);
    }
  }

  lemma LoneMember(peers: set<PeerId>, p: PeerId)
    requires p in peers && |peers| < 2
    ensures peers == {p}
  {
    SubsetCard({p}, peers);
  }

  lemma DeadEndNeeds(w: Course)
    requires DeadEnded(w)
    ensures |w.offers.Keys| >= 2 && w.c.maxInFlight < w.c.info.blockCount
  {
    CourseKeeps(w, |w.ticks|);
    var i, p :| MissingAt(End(w).sched, i, p);
    RoomPreventsDeadEnds(w.c, End(w), i, p);
    OnePeerCourse(w, p);
  }

  lemma OnePeerCourse(w: Course, p: PeerId)
    requires DeadEnded(w) && p in w.offers.Keys
    ensures |w.offers.Keys| >= 2
  {
    if |w.offers.Keys| < 2 {
      LoneMember(w.offers.Keys, p);
      CourseIsRun(w, |w.ticks|);
      OnePeerNeverFreezes(w.c, w.offers, p, RunOf(w, |w.ticks|), End(w));
    }
  }

  // ---- A dead end for every cap below the block count ----

  // p offers every block, the others nothing.
  function SoleOffer(peers: set<PeerId>, p: PeerId, n: nat): map<PeerId, set<nat>> {
    map q | q in peers :: if q == p then Indices(n) else {}
  }

  // Where such a download starts.
  ghost predicate AllAtOne(c: Setup, st: State, p: PeerId) {
    && Inv(c, st) && NoFlights(st.sched) && NothingCounted(st.sched) && p in st.sched.peers
    && (forall i :: 0 <= i < |st.sched.blocks| ==> st.sched.blocks[i].Pending?)
    && (forall i :: 0 <= i < |st.sched.blocks| ==> i in st.sched.peers[p].available)
    && (forall q :: q in st.sched.peers && q != p ==> st.sched.peers[q].available == {})
    && (forall q, i :: q in st.receivers && 0 <= i < |st.receivers[q]| ==> st.receivers[q][i].None?)
  }

  lemma SoleOfferStarts(c: Setup, peers: set<PeerId>, p: PeerId)
    requires p in peers
    ensures AllAtOne(c, Initial(c, SoleOffer(peers, p, c.info.blockCount)), p)
    ensures Initial(c, SoleOffer(peers, p, c.info.blockCount)).sched.peers.Keys == peers
  {
    InitialInv(c, SoleOffer(peers, p, c.info.blockCount));
  }

  // The first round fills p and nobody else.
  lemma RoundFillsOne(c: Setup, st: State, p: PeerId, now: nat, picks: Picks)
    requires AllAtOne(c, st, p) && IsDispatch(st.sched, c.maxInFlight, now, picks) && c.maxInFlight < c.info.blockCount
    ensures Assigned(picks) == Given(picks, p) && |Given(picks, p)| == c.maxInFlight
    ensures forall i :: i in Given(picks, p) ==> i < c.info.blockCount
  {
    OnlyOneIsGiven(c, st, p, now, picks);
    GivenFits(st.sched, c.maxInFlight, now, picks, p);
    var i := OneLeft(Given(picks, p), c.info.blockCount);
    LeftIsPending(st.sched, p, now, picks, i);
    LeftMeansFull(st.sched, c.maxInFlight, now, picks, i, p);
  }

  lemma OnlyOneIsGiven(c: Setup, st: State, p: PeerId, now: nat, picks: Picks)
    requires AllAtOne(c, st, p) && IsDispatch(st.sched, c.maxInFlight, now, picks)
    ensures Assigned(picks) == Given(picks, p)
    ensures forall i :: i in Given(picks, p) ==> i < c.info.blockCount
  {
    PickedArePending(st.sched, c.maxInFlight, now, picks);
    forall i | i in Assigned(picks)
      ensures i in Given(picks, p)
    {
      assert PickedFor(picks, i, picks[i].value);
    }
    assert Given(picks, p) <= Assigned(picks);
  }

  lemma OneLeft(some: set<nat>, n: nat) returns (i: nat)
    requires |some| < n
    ensures i < n && i !in some
  {
    if Indices(n) <= some {
      SubsetCard(Indices(n), some);
      assert false;
    }
    i :| i in Indices(n) && i !in some;
  }

  lemma LeftIsPending(s: Sched, p: PeerId, now: nat, picks: Picks, i: nat)
    requires i < |s.blocks| == |picks| && s.blocks[i].Pending? && Assigned(picks) == Given(picks, p) && i !in Given(picks, p)
    ensures AfterPicks(s, picks, now).blocks[i].Pending?
  {
    assert i !in Assigned(picks);
  }

  // The members of a set of indices, in order.
  function Ascending(s: set<nat>, n: nat): (r: seq<nat>)
    ensures StrictlyIncreasing(r) && forall k :: 0 <= k < |r| ==> r[k] < n && r[k] in s
    ensures forall i :: i in s && i < n ==> i in r
  {
    if n == 0 then [] else Ascending(s, n - 1) + (if n - 1 in s then [n - 1] else [])
  }

  lemma AscendingIsAll(s: set<nat>, n: nat)
    requires forall i :: i in s ==> i < n
    ensures Elements(Ascending(s, n)) == s && (s != {} ==> |Ascending(s, n)| > 0)
  {
    var r := Ascending(s, n);
    assert forall i :: i in r ==> i in s;
  }

  // Blocks of a batch that nobody asked q for, sent by q all the same.
  lemma GiftIsAccepted(c: Setup, st: State, q: PeerId, data: Bytes, size: nat, batch: seq<nat>)
    requires Inv(c, st) && HashesOf(c.h, c.info, data, size) && q in st.receivers
    requires StrictlyIncreasing(batch) && forall k :: 0 <= k < |batch| ==> batch[k] < c.info.blockCount && st.receivers[q][batch[k]].None?
    ensures ReceiversAfter(c.h, c.info, st.receivers, q, GenuineBlocks(data, size, batch)).1 == batch
  {
    HonestReplyIsAccepted(c, st.receivers[q], data, size, batch);
  }

  // p's requests are all answered by q, and p's slots stay taken.
  lemma GiftFreezes(c: Setup, st: State, p: PeerId, q: PeerId, data: Bytes, size: nat, now: nat, picks: Picks, batch: seq<nat>, round: State, end: State)
    requires AllAtOne(c, st, p) && HashesOf(c.h, c.info, data, size) && IsDispatch(st.sched, c.maxInFlight, now, picks)
    requires 1 <= c.maxInFlight < c.info.blockCount && q in st.sched.peers && q != p
    requires batch == Ascending(Given(picks, p), c.info.blockCount)
    requires round == Next(c, st, Dispatch(now, picks))
    requires end == Next(c, round, Answer(q, GenuineBlocks(data, size, batch)))
    ensures Frozen(c, end) && exists i :: MissingAt(end.sched, i, p)
    ensures !Aborts(c.info, round.receivers, q, GenuineBlocks(data, size, batch))
    ensures AcceptedBy(c, round, Answer(q, GenuineBlocks(data, size, batch))) > 0
    ensures p in round.sched.peers && round.sched.peers[p].inFlight != {}
  {
    var reply := GenuineBlocks(data, size, batch);
    RoundFillsOne(c, st, p, now, picks);
    AscendingIsAll(Given(picks, p), c.info.blockCount);
    StepKeeps(c, st, Dispatch(now, picks));
    EnoughHashes(c, round, q, reply);
    StepKeeps(c, round, Answer(q, reply));
    GiftIsAccepted(c, round, q, data, size, batch);
    BlocksAfterGift(st.sched, p, q, now, picks, reply, batch);
    assert round.sched.peers[p].inFlight == {} + Given(picks, p);
    FrozenByGift(c, st, p, q, now, picks, reply, batch, end);
  }

  lemma BlocksAfterGift(s: Sched, p: PeerId, q: PeerId, now: nat, picks: Picks, reply: Reply, batch: seq<nat>)
    requires |picks| == |s.blocks| && forall i :: 0 <= i < |s.blocks| ==> s.blocks[i].Pending?
    requires Assigned(picks) == Given(picks, p) == Elements(batch) && q != p
    ensures forall i :: 0 <= i < |s.blocks| ==>
              AfterReply(AfterPicks(s, picks, now), q, reply, batch).blocks[i] == if i in Given(picks, p) then Complete else Pending
  {
    forall i | 0 <= i < |s.blocks|
      ensures AfterReply(AfterPicks(s, picks, now), q, reply, batch).blocks[i] == if i in Given(picks, p) then Complete else Pending
    {
      assert i in Assigned(picks) <==> picks[i].Some?;
      assert i in Elements(batch) <==> i in batch;
      assert picks[i].Some? ==> PickedFor(picks, i, p);
    }
  }

  lemma FrozenByGift(c: Setup, st: State, p: PeerId, q: PeerId, now: nat, picks: Picks, reply: Reply, batch: seq<nat>, end: State)
    requires AllAtOne(c, st, p) && q in st.sched.peers && q != p && 1 <= c.maxInFlight < c.info.blockCount && Inv(c, end)
    requires Assigned(picks) == Given(picks, p) && |Given(picks, p)| == c.maxInFlight
    requires end.sched == AfterReply(AfterPicks(st.sched, picks, now), q, reply, batch)
    requires forall i :: 0 <= i < |st.sched.blocks| ==> end.sched.blocks[i] == if i in Given(picks, p) then Complete else Pending
    ensures Frozen(c, end) && exists i :: MissingAt(end.sched, i, p)
  {
    GiftPeers(st.sched, p, q, now, picks, reply, batch, end.sched);
    OffersAsBefore(c, st, p, end.sched);
    FrozenWhenFull(c, end, p, Given(picks, p));
  }

  // p's slots are taken by complete blocks, and nobody else has any block.
  lemma FrozenWhenFull(c: Setup, end: State, p: PeerId, taken: set<nat>)
    requires Inv(c, end) && p in end.sched.peers && end.sched.peers[p].inFlight == taken
    requires |taken| == c.maxInFlight && 1 <= c.maxInFlight < c.info.blockCount
    requires forall q :: q in end.sched.peers && q != p ==> end.sched.peers[q].available == {}
    requires forall i :: 0 <= i < c.info.blockCount ==> i in end.sched.peers[p].available
    requires forall i :: 0 <= i < c.info.blockCount ==> end.sched.blocks[i] == if i in taken then Complete else Pending
    ensures Frozen(c, end) && exists i :: MissingAt(end.sched, i, p)
  {
    var i := OneLeft(taken, c.info.blockCount);
    FullIfOnlyOne(end.sched, p, c.maxInFlight);
    assert MissingAt(end.sched, i, p);
    assert taken != {};
  }

  lemma FullIfOnlyOne(s: Sched, p: PeerId, maxInFlight: nat)
    requires p in s.peers && |s.peers[p].inFlight| == maxInFlight
    requires forall q :: q in s.peers && q != p ==> s.peers[q].available == {}
    ensures forall i, q :: 0 <= i < |s.blocks| && s.blocks[i].Pending? && q in s.peers && i in s.peers[q].available ==>
              |s.peers[q].inFlight| >= maxInFlight
  {
  }

  lemma OffersAsBefore(c: Setup, st: State, p: PeerId, t: Sched)
    requires AllAtOne(c, st, p) && t.peers.Keys == st.sched.peers.Keys
    requires forall q :: q in st.sched.peers ==> t.peers[q].available == st.sched.peers[q].available
    ensures p in t.peers && |st.sched.blocks| == c.info.blockCount
    ensures forall q :: q in t.peers && q != p ==> t.peers[q].available == {}
    ensures forall i :: 0 <= i < c.info.blockCount ==> i in t.peers[p].available
  {
  }

  lemma GiftPeers(s: Sched, p: PeerId, q: PeerId, now: nat, picks: Picks, reply: Reply, batch: seq<nat>, t: Sched)
    requires p in s.peers && q in s.peers && p != q && s.peers[p].inFlight == {}
    requires t == AfterReply(AfterPicks(s, picks, now), q, reply, batch)
    ensures t.peers.Keys == s.peers.Keys && t.peers[p].inFlight == Given(picks, p)
    ensures forall r :: r in s.peers ==> t.peers[r].available == s.peers[r].available
  {
    assert {} + Given(picks, p) == Given(picks, p);
  }

  ghost function SentOut(c: Setup, st: State, started: nat, first: Picks): Loop {
    Loop(Next(c, st, Dispatch(started, first)), started + c.timeout, None)
  }

  // What q sends of its own accord.
  lemma GiftOf(c: Setup, st: State, p: PeerId, q: PeerId, data: Bytes, size: nat, now: nat, picks: Picks, round: State) returns (reply: Reply)
    requires HashesOf(c.h, c.info, data, size) && 1 <= c.maxInFlight < c.info.blockCount
    requires AllAtOne(c, st, p) && q in st.sched.peers && q != p
    requires IsDispatch(st.sched, c.maxInFlight, now, picks) && round == Next(c, st, Dispatch(now, picks))
    ensures !Idle(round.sched) && !Aborts(c.info, round.receivers, q, reply) && AcceptedBy(c, round, Answer(q, reply)) > 0
    ensures var end := Next(c, round, Answer(q, reply));
            !LedgerComplete(end.receivers, c.info.blockCount) && Frozen(c, end) && exists i :: MissingAt(end.sched, i, p)
  {
    var batch := Ascending(Given(picks, p), c.info.blockCount);
    reply := GenuineBlocks(data, size, batch);
    GiftFreezes(c, st, p, q, data, size, now, picks, batch, round, Next(c, round, Answer(q, reply)));
    FrozenIsNotIdle(c, Next(c, round, Answer(q, reply)));
    BusyIsNotIdle(round.sched, p);
  }

  lemma GiftTurn(c: Setup, overall: nat, l: Loop, tick: Tick, picks: Picks, round: State, q: PeerId, reply: Reply, end: State)
    requires l.exit.None? && tick.atTop < overall && tick.atStall <= l.stallAt && tick.notice == BlocksFrom(q, reply)
    requires Dispatched(c, l.st, tick, picks) == round && !Idle(round.sched)
    requires !Aborts(c.info, round.receivers, q, reply) && AcceptedBy(c, round, Answer(q, reply)) > 0
    requires end == Next(c, round, Answer(q, reply)) && !LedgerComplete(end.receivers, c.info.blockCount)
    ensures Turn(c, overall, l, tick, picks) == Loop(end, tick.atNotice + c.timeout, None)
  {
    TurnHears(c, overall, l, tick, picks, round);
    HeardAnswerIs(c, round, q, reply, l.stallAt, tick.atNotice, end);
  }

  function GiftAt(t: nat, q: PeerId, reply: Reply): Tick {
    Tick(t, t, t, t, BlocksFrom(q, reply), t)
  }

  // All readings at one instant, and one answer nobody asked for.
  lemma GiftRun(c: Setup, started: nat, overall: nat, st: State, first: Picks, q: PeerId, reply: Reply, end: State) returns (tick: Tick, picks: Picks)
    requires NoFlights(st.sched) && IsDispatch(st.sched, c.maxInFlight, started, first) && c.timeout > 0 && overall > started
    requires var round := Next(c, st, Dispatch(started, first));
             && !Idle(round.sched) && !Aborts(c.info, round.receivers, q, reply) && AcceptedBy(c, round, Answer(q, reply)) > 0
             && end == Next(c, round, Answer(q, reply)) && !LedgerComplete(end.receivers, c.info.blockCount)
    ensures PickedWell(c, overall, SentOut(c, st, started, first), tick, picks)
    ensures Turn(c, overall, SentOut(c, st, started, first), tick, picks) == Loop(end, started + c.timeout, None)
  {
    var l := SentOut(c, st, started, first);
    tick := GiftAt(started, q, reply);
    picks := RoundExists(Requeued(c, l.st, tick).sched, c.maxInFlight, started);
    FreshRoundWaits(c, st, started, first, tick, picks);
    GiftTurn(c, overall, l, tick, picks, l.st, q, reply, end);
  }

  lemma PatientGift(c: Setup, started: nat, overall: nat, st: State, p: PeerId, first: Picks, l: Loop, q: PeerId, data: Bytes, size: nat) returns (tick: Tick, picks: Picks, end: State)
    requires HashesOf(c.h, c.info, data, size) && 1 <= c.maxInFlight < c.info.blockCount && c.timeout > 0 && overall > started
    requires AllAtOne(c, st, p) && q in st.sched.peers && q != p && IsDispatch(st.sched, c.maxInFlight, started, first)
    requires l == SentOut(c, st, started, first)
    ensures PickedWell(c, overall, l, tick, picks) && Turn(c, overall, l, tick, picks) == Loop(end, started + c.timeout, None)
    ensures Frozen(c, end) && exists i :: MissingAt(end.sched, i, p)
  {
    var reply := GiftOf(c, st, p, q, data, size, started, first, l.st);
    end := Next(c, l.st, Answer(q, reply));
    tick, picks := GiftRun(c, started, overall, st, first, q, reply, end);
  }

  // Without any patience the requests expire at once and are made again.
  lemma AllReturns(c: Setup, st: State, p: PeerId, now: nat, first: Picks, mid: State)
    requires AllAtOne(c, st, p) && IsDispatch(st.sched, c.maxInFlight, now, first) && c.timeout == 0
    requires mid == Next(c, Next(c, st, Dispatch(now, first)), Expire(now))
    ensures AllAtOne(c, mid, p) && mid.sched.peers.Keys == st.sched.peers.Keys
  {
    StepKeeps(c, st, Dispatch(now, first));
    StepKeeps(c, Next(c, st, Dispatch(now, first)), Expire(now));
    AllExpire(st.sched, now, first);
    NothingLeftCounted(c, mid);
  }

  lemma AllExpire(s: Sched, now: nat, first: Picks)
    requires forall i :: 0 <= i < |s.blocks| ==> s.blocks[i].Pending?
    ensures var t := AfterPicks(s, first, now);
            var mid := AfterExpiry(t, ExpiredBlocks(t, now, 0));
            && |mid.blocks| == |s.blocks| && (forall i :: 0 <= i < |mid.blocks| ==> mid.blocks[i].Pending?)
            && mid.peers.Keys == s.peers.Keys && forall q :: q in s.peers ==> mid.peers[q].available == s.peers[q].available
  {
  }

  lemma NothingLeftCounted(c: Setup, st: State)
    requires Inv(c, st) && forall i :: 0 <= i < |st.sched.blocks| ==> st.sched.blocks[i].Pending?
    ensures NothingCounted(st.sched)
  {
    forall q, i | q in st.sched.peers && 0 <= i < |st.sched.blocks|
      ensures i !in st.sched.peers[q].inFlight
    {
      PendingIsUncounted(st.sched, c.maxInFlight, i, q);
    }
  }

  lemma HastyRun(c: Setup, started: nat, overall: nat, l: Loop, mid: State, picks: Picks, round: State, q: PeerId, reply: Reply, end: State)
    requires l.exit.None? && started < overall && l.stallAt == started && c.timeout == 0 && mid == Next(c, l.st, Expire(started))
    requires IsDispatch(mid.sched, c.maxInFlight, started, picks) && round == Next(c, mid, Dispatch(started, picks))
    requires !Idle(round.sched) && !Aborts(c.info, round.receivers, q, reply) && AcceptedBy(c, round, Answer(q, reply)) > 0
    requires end == Next(c, round, Answer(q, reply)) && !LedgerComplete(end.receivers, c.info.blockCount)
    ensures PickedWell(c, overall, l, GiftAt(started, q, reply), picks)
    ensures Turn(c, overall, l, GiftAt(started, q, reply), picks) == Loop(end, started, None)
  {
    GiftTurn(c, overall, l, GiftAt(started, q, reply), picks, round, q, reply, end);
  }

  lemma GiftRound(c: Setup, st: State, p: PeerId, q: PeerId, data: Bytes, size: nat, now: nat) returns (picks: Picks, round: State, reply: Reply, end: State)
    requires HashesOf(c.h, c.info, data, size) && 1 <= c.maxInFlight < c.info.blockCount
    requires AllAtOne(c, st, p) && q in st.sched.peers && q != p
    ensures IsDispatch(st.sched, c.maxInFlight, now, picks) && round == Next(c, st, Dispatch(now, picks))
    ensures !Idle(round.sched) && !Aborts(c.info, round.receivers, q, reply) && AcceptedBy(c, round, Answer(q, reply)) > 0
    ensures end == Next(c, round, Answer(q, reply)) && !LedgerComplete(end.receivers, c.info.blockCount)
    ensures Frozen(c, end) && exists i :: MissingAt(end.sched, i, p)
  {
    picks := RoundExists(st.sched, c.maxInFlight, now);
    round := Next(c, st, Dispatch(now, picks));
    reply := GiftOf(c, st, p, q, data, size, now, picks, round);
    end := Next(c, round, Answer(q, reply));
  }

  lemma HastyGift(c: Setup, started: nat, overall: nat, l: Loop, mid: State, p: PeerId, q: PeerId, data: Bytes, size: nat) returns (tick: Tick, picks: Picks, end: State)
    requires HashesOf(c.h, c.info, data, size) && 1 <= c.maxInFlight < c.info.blockCount && c.timeout == 0 && overall > started
    requires l.exit.None? && l.stallAt == started && mid == Next(c, l.st, Expire(started))
    requires AllAtOne(c, mid, p) && q in mid.sched.peers && q != p
    ensures PickedWell(c, overall, l, tick, picks) && Turn(c, overall, l, tick, picks) == Loop(end, started, None)
    ensures Frozen(c, end) && exists i :: MissingAt(end.sched, i, p)
  {
    var round, reply;
    picks, round, reply, end := GiftRound(c, mid, p, q, data, size, started);
    tick := GiftAt(started, q, reply);
    HastyRun(c, started, overall, l, mid, picks, round, q, reply, end);
  }

  lemma AllReturned(c: Setup, started: nat, st: State, p: PeerId, first: Picks, l: Loop) returns (mid: State)
    requires AllAtOne(c, st, p) && IsDispatch(st.sched, c.maxInFlight, started, first) && c.timeout == 0
    requires l == SentOut(c, st, started, first)
    ensures mid == Next(c, l.st, Expire(started)) && l.exit.None? && l.stallAt == started
    ensures AllAtOne(c, mid, p) && mid.sched.peers.Keys == st.sched.peers.Keys
  {
    mid := Next(c, l.st, Expire(started));
    AllReturns(c, st, p, started, first, mid);
  }

  lemma ImpatientGift(c: Setup, started: nat, overall: nat, st: State, p: PeerId, first: Picks, l: Loop, q: PeerId, data: Bytes, size: nat) returns (tick: Tick, picks: Picks, end: State)
    requires HashesOf(c.h, c.info, data, size) && 1 <= c.maxInFlight < c.info.blockCount && c.timeout == 0 && overall > started
    requires AllAtOne(c, st, p) && q in st.sched.peers && q != p && IsDispatch(st.sched, c.maxInFlight, started, first)
    requires l == SentOut(c, st, started, first)
    ensures PickedWell(c, overall, l, tick, picks) && Turn(c, overall, l, tick, picks) == Loop(end, started, None)
    ensures Frozen(c, end) && exists i :: MissingAt(end.sched, i, p)
  {
    var mid := AllReturned(c, started, st, p, first, l);
    tick, picks, end := HastyGift(c, started, overall, l, mid, p, q, data, size);
  }

  lemma GiftTurnExists(c: Setup, started: nat, overall: nat, st: State, p: PeerId, first: Picks, l: Loop, q: PeerId, data: Bytes, size: nat) returns (tick: Tick, picks: Picks, end: State)
    requires HashesOf(c.h, c.info, data, size) && 1 <= c.maxInFlight < c.info.blockCount && overall > started
    requires AllAtOne(c, st, p) && q in st.sched.peers && q != p && IsDispatch(st.sched, c.maxInFlight, started, first)
    requires l == SentOut(c, st, started, first)
    ensures PickedWell(c, overall, l, tick, picks) && Turn(c, overall, l, tick, picks) == Loop(end, started + c.timeout, None)
    ensures Frozen(c, end) && exists i :: MissingAt(end.sched, i, p)
  {
    if c.timeout > 0 {
      tick, picks, end := PatientGift(c, started, overall, st, p, first, l, q, data, size);
    } else {
      tick, picks, end := ImpatientGift(c, started, overall, st, p, first, l, q, data, size);
    }
  }

  lemma GiftCourse(c: Setup, started: nat, overall: nat, st: State, offers: map<PeerId, set<nat>>, p: PeerId, q: PeerId, data: Bytes, size: nat) returns (w: Course)
    requires HashesOf(c.h, c.info, data, size) && overall > started
    requires st == Initial(c, offers) && AllAtOne(c, st, p) && q in st.sched.peers && q != p && 1 <= c.maxInFlight < c.info.blockCount
    ensures DeadEnded(w) && w.c == c && w.started == started && w.overall == overall && w.offers == offers
  {
    var first := RoundExists(st.sched, c.maxInFlight, started);
    var tick, picks, end := GiftTurnExists(c, started, overall, st, p, first, SentOut(c, st, started, first), q, data, size);
    w := OneTurnCourse(c, st, offers, started, overall, first, tick, picks, Loop(end, started + c.timeout, None));
    EndsDead(w, end, p);
  }

  lemma OneTurnCourse(c: Setup, st: State, offers: map<PeerId, set<nat>>, started: nat, overall: nat, first: Picks, tick: Tick, picks: Picks, end: Loop) returns (w: Course)
    requires st == Initial(c, offers) && IsDispatch(st.sched, c.maxInFlight, started, first)
    requires PickedWell(c, overall, SentOut(c, st, started, first), tick, picks)
    requires Turn(c, overall, SentOut(c, st, started, first), tick, picks) == end
    ensures w == Course(c, offers, started, overall, first, [tick], [picks])
    ensures IsCourse(w) && At(w, 1) == end
  {
    w := Course(c, offers, started, overall, first, [tick], [picks]);
    assert At(w, 0) == Begun(w) == SentOut(c, st, started, first);
    assert PicksFit(w, 0);
  }

  lemma EndsDead(w: Course, end: State, p: PeerId)
    requires IsCourse(w) && |w.ticks| == 1 && At(w, 1).exit.None? && At(w, 1).st == end
    requires Frozen(w.c, end) && exists i :: MissingAt(end.sched, i, p)
    ensures DeadEnded(w)
  {
    var i :| MissingAt(end.sched, i, p);
    assert MissingAt(End(w).sched, i, p);
  }

  // The test a caller can make: whatever the peers do, no dead end is possible with
  // room for every block at each peer or with fewer than two peers; otherwise one is.
  lemma DeadEndIff(c: Setup, started: nat, overall: nat, peers: set<PeerId>, data: Bytes, size: nat)
    requires HashesOf(c.h, c.info, data, size) && c.maxInFlight >= 1 && overall > started
    ensures CanDeadEnd(c, started, overall, peers) <==> |peers| >= 2 && c.maxInFlight < c.info.blockCount
  {
    if CanDeadEnd(c, started, overall, peers) {
      var w: Course :| DeadEnded(w) && w.c == c && w.started == started && w.overall == overall && w.offers.Keys == peers;
      DeadEndNeeds(w);
    }
    if |peers| >= 2 && c.maxInFlight < c.info.blockCount {
      var p, q := TwoMembers(peers);
      var offers := SoleOffer(peers, p, c.info.blockCount);
      SoleOfferStarts(c, peers, p);
      var w := GiftCourse(c, started, overall, Initial(c, offers), offers, p, q, data, size);
    }
  }

  lemma TwoMembers(peers: set<PeerId>) returns (p: PeerId, q: PeerId)
    requires |peers| >= 2
    ensures p in peers && q in peers && p != q
  {
    p :| p in peers;
    if peers - {p} == {} {
      LoneCard(peers, p);
    }
    q :| q in peers - {p};
  }

  lemma LoneCard(peers: set<PeerId>, p: PeerId)
    requires p in peers && peers - {p} == {}
    ensures |peers| == 1
  {
    assert peers == {p};
  }
}
