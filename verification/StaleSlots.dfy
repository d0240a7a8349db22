// A peer's in-flight counter can keep a block that another peer completed. This
// file says exactly when a failure or an expiry leaves such a slot behind, and shows
// that a download whose open peers are all full of them can make no further move
// of its own.

module StaleSlots {
  import opened Common
  import opened Ledger
  import opened Scheduler
  import opened Invariants
  import opened DispatchQuality
  import opened Progress
  import opened DownloadLoop

  // ---- Which slots come back ----

  // A failure is meant to empty the failing peer's in-flight set. It does so
  // exactly when none of the blocks counted there is already complete.
  lemma FailureFreesSlotsIff(c: Setup, st: State, p: PeerId)
    requires Inv(c, st) && p in st.sched.peers
    ensures AfterFailure(st.sched, p).peers[p].inFlight == {} <==>
            forall i :: i in st.sched.peers[p].inFlight ==> !st.sched.blocks[i].Complete?
  {
    var s, t := st.sched, AfterFailure(st.sched, p);
    assert t.peers[p].inFlight == s.peers[p].inFlight - FlyingAt(s, p);
    if forall i :: i in s.peers[p].inFlight ==> !s.blocks[i].Complete? {
      forall i | i in s.peers[p].inFlight
        ensures i in FlyingAt(s, p)
      {
        assert Flying(s, i, p);
      }
    } else {
      var i :| i in s.peers[p].inFlight && s.blocks[i].Complete?;
      assert i in t.peers[p].inFlight;
    }
  }

  // Between a reply or failure and the next round, the peer's room for new work
  // is cut by exactly the completed blocks still counted there.
  lemma RoomAfterFailure(c: Setup, st: State, p: PeerId)
    requires Inv(c, st) && p in st.sched.peers
    ensures AfterFailure(st.sched, p).peers[p].inFlight
         == set i | i in st.sched.peers[p].inFlight && st.sched.blocks[i].Complete?
  {
    var s := st.sched;
    assert AfterFailure(s, p).peers[p].inFlight == s.peers[p].inFlight - FlyingAt(s, p);
    forall i | i in s.peers[p].inFlight
      ensures i in FlyingAt(s, p) <==> !s.blocks[i].Complete?
    {
      assert Flying(s, i, p) || s.blocks[i].Complete?;
    }
  }

  // Expiry takes back from every peer the expired blocks flying there, so it frees
  // all of a peer's slots exactly when none holds a complete block and each of its
  // blocks has expired.
  lemma ExpiryFreesSlotsIff(c: Setup, st: State, now: nat, p: PeerId)
    requires Inv(c, st) && p in st.sched.peers
    ensures AfterExpiry(st.sched, ExpiredBlocks(st.sched, now, c.timeout)).peers[p].inFlight
         == set i | i in st.sched.peers[p].inFlight && !IsExpired(st.sched.blocks[i], now, c.timeout)
    ensures AfterExpiry(st.sched, ExpiredBlocks(st.sched, now, c.timeout)).peers[p].inFlight == {} <==>
            forall i :: i in st.sched.peers[p].inFlight ==> !st.sched.blocks[i].Complete? && IsExpired(st.sched.blocks[i], now, c.timeout)
  {
    var s := st.sched;
    var gone := ExpiredBlocks(s, now, c.timeout);
    var left := s.peers[p].inFlight - gone * FlyingAt(s, p);
    assert AfterExpiry(s, gone).peers[p].inFlight == left;
    forall i | i in s.peers[p].inFlight
      ensures i in gone * FlyingAt(s, p) <==> IsExpired(s.blocks[i], now, c.timeout)
    {
      assert Flying(s, i, p) || s.blocks[i].Complete?;
    }
    assert left == set i | i in s.peers[p].inFlight && !IsExpired(s.blocks[i], now, c.timeout);
    if left == {} {
      forall i | i in s.peers[p].inFlight
        ensures IsExpired(s.blocks[i], now, c.timeout)
      {
        assert i !in left;
      }
    }
  }

  // A completed block that is counted at a peer stays counted there through every
  // step that is not that peer's own answer naming it.
  lemma StaleSlotStays(c: Setup, st: State, step: Step, p: PeerId, i: nat)
    requires Inv(c, st) && Enabled(c, st, step) && p in st.sched.peers
    requires i in st.sched.peers[p].inFlight && st.sched.blocks[i].Complete?
    requires step.Answer? && step.peer == p ==> i !in ReplyIndices(step.reply)
    ensures i in Next(c, st, step).sched.peers[p].inFlight && Next(c, st, step).sched.blocks[i].Complete?
  {
    CompleteIsFinal(c, st, step, i);
  }

  // ---- A state with no way on ----

  // Nothing flies, something is missing, and whoever has a missing block is full.
  ghost predicate Frozen(c: Setup, st: State) {
    && Inv(c, st) && !NothingCounted(st.sched)
    && NoFlights(st.sched)
    && (forall i, p :: 0 <= i < |st.sched.blocks| && st.sched.blocks[i].Pending? && p in st.sched.peers && i in st.sched.peers[p].available ==>
          |st.sched.peers[p].inFlight| >= c.maxInFlight)
    && exists i :: 0 <= i < |st.sched.blocks| && st.sched.blocks[i].Pending?
  }

  lemma NothingExpires(s: Sched, now: nat, timeout: nat)
    requires forall i :: 0 <= i < |s.blocks| ==> !IsExpired(s.blocks[i], now, timeout)
    ensures AfterExpiry(s, ExpiredBlocks(s, now, timeout)) == s
  {
    assert ExpiredBlocks(s, now, timeout) == {};
    AfterExpiryOfNone(s);
  }

  lemma FrozenExpire(c: Setup, st: State, now: nat)
    requires Frozen(c, st)
    ensures Next(c, st, Expire(now)) == st
  {
    NothingExpires(st.sched, now, c.timeout);
  }

  lemma FrozenFail(c: Setup, st: State, p: PeerId)
    requires Frozen(c, st)
    ensures Next(c, st, Fail(p)) == st
  {
    assert FlyingAt(st.sched, p) == {};
    assert Reset(st.sched.blocks, {}) == st.sched.blocks;
  }

  lemma FrozenDispatch(c: Setup, st: State, now: nat, picks: Picks)
    requires Frozen(c, st) && IsDispatch(st.sched, c.maxInFlight, now, picks)
    ensures Next(c, st, Dispatch(now, picks)) == st
  {
    RoundSendsNothing(st.sched, c.maxInFlight, now, picks);
    NothingAssigned(st.sched, picks, now);
  }

  lemma NothingAssigned(s: Sched, picks: Picks, now: nat)
    requires Assigned(picks) == {}
    ensures AfterPicks(s, picks, now) == s
  {
    var t := AfterPicks(s, picks, now);
    forall i | 0 <= i < |s.blocks|
      ensures t.blocks[i] == s.blocks[i]
    {
      assert i !in Assigned(picks);
    }
    forall p | p in s.peers
      ensures t.peers[p] == s.peers[p]
    {
      assert Given(picks, p) <= Assigned(picks);
      assert s.peers[p].inFlight + {} == s.peers[p].inFlight;
    }
    assert t.blocks == s.blocks;
    MapsEqual(t.peers, s.peers);
  }

  // The round after one that found nothing in flight, made in time, finds those
  // requests out and adds nothing to them.
  lemma FreshRoundWaits(c: Setup, st: State, started: nat, first: Picks, tick: Tick, picks: Picks)
    requires NoFlights(st.sched) && IsDispatch(st.sched, c.maxInFlight, started, first)
    requires started <= tick.atRequeue < started + c.timeout
    requires IsDispatch(Requeued(c, Next(c, st, Dispatch(started, first)), tick).sched, c.maxInFlight, tick.atDispatch, picks)
    ensures Dispatched(c, Next(c, st, Dispatch(started, first)), tick, picks) == Next(c, st, Dispatch(started, first))
  {
    var s := AfterPicks(st.sched, first, started);
    JustSent(st.sched, first, started, tick.atRequeue, c.timeout);
    NothingExpires(s, tick.atRequeue, c.timeout);
    assert Requeued(c, State(s, st.receivers), tick) == State(s, st.receivers);
    FirstIsMaximal(st.sched, c.maxInFlight, started, first);
    RoundSendsNothing(s, c.maxInFlight, tick.atDispatch, picks);
    NothingAssigned(s, picks, tick.atDispatch);
  }

  predicate NoFlights(s: Sched) {
    forall i :: 0 <= i < |s.blocks| ==> !s.blocks[i].InFlight?
  }

  lemma JustSent(s: Sched, picks: Picks, at: nat, now: nat, timeout: nat)
    requires NoFlights(s) && at <= now < at + timeout
    ensures var t := AfterPicks(s, picks, at);
            forall i :: 0 <= i < |t.blocks| ==> !IsExpired(t.blocks[i], now, timeout)
  {
  }

  lemma FirstIsMaximal(s: Sched, maxInFlight: nat, now: nat, picks: Picks)
    requires IsDispatch(s, maxInFlight, now, picks)
    ensures var t := AfterPicks(s, picks, now);
            forall i, q :: 0 <= i < |t.blocks| && t.blocks[i].Pending? && q in t.peers && i in t.peers[q].available ==>
              |t.peers[q].inFlight| >= maxInFlight
  {
    var t := AfterPicks(s, picks, now);
    forall i, q | 0 <= i < |t.blocks| && t.blocks[i].Pending? && q in t.peers && i in t.peers[q].available
      ensures |t.peers[q].inFlight| >= maxInFlight
    {
      RoundIsMaximal(s, maxInFlight, now, picks, i, q);
    }
  }

  // Block i is wanted and peer p, connected, has it.
  predicate MissingAt(s: Sched, i: nat, p: PeerId) {
    i < |s.blocks| && s.blocks[i].Pending? && p in s.peers && i in s.peers[p].available
  }

  function Nobody(n: nat): Picks {
    seq(n, _ => None)
  }

  // A round over blocks of which none is pending.
  lemma RoundOfNobody(s: Sched, maxInFlight: nat, now: nat)
    requires forall i :: 0 <= i < |s.blocks| ==> !s.blocks[i].Pending?
    ensures IsDispatch(s, maxInFlight, now, Nobody(|s.blocks|)) && AfterPicks(s, Nobody(|s.blocks|), now) == s
  {
    var picks := Nobody(|s.blocks|);
    NothingAssigned(s, picks, now);
    forall k | 0 <= k < |picks|
      ensures ValidPick(AfterPicks(s, picks[..k], now), k, maxInFlight, picks[k])
    {
      NothingAssigned(s, picks[..k], now);
    }
  }

  lemma FrozenIsNotIdle(c: Setup, st: State)
    requires Frozen(c, st)
    ensures !Idle(st.sched) && !LedgerComplete(st.receivers, c.info.blockCount)
  {
    CompleteTogether(c, st);
  }

  lemma FrozenRound(c: Setup, st: State, tick: Tick, picks: Picks)
    requires Frozen(c, st) && IsDispatch(Requeued(c, st, tick).sched, c.maxInFlight, tick.atDispatch, picks)
    ensures Dispatched(c, st, tick, picks) == st
  {
    FrozenExpire(c, st, tick.atRequeue);
    FrozenDispatch(c, st, tick.atDispatch, picks);
  }

  lemma FrozenHeard(c: Setup, st: State, stallAt: nat, notice: Notice, now: nat)
    requires Frozen(c, st) && !notice.BlocksFrom?
    ensures FrozenLoop(c, st, Heard(c, st, stallAt, notice, now))
  {
    if notice.RequestFailed? {
      FrozenFail(c, st, notice.failed);
    }
  }

  // Without another answer the loop cannot leave such a state, nor notice it: it
  // can only run into a deadline or a receive error.
  lemma FrozenPass(c: Setup, overall: nat, l: Loop, tick: Tick, picks: Picks)
    requires Frozen(c, l.st) && l.exit.None? && PickedWell(c, overall, l, tick, picks) && !tick.notice.BlocksFrom?
    ensures FrozenLoop(c, l.st, Turn(c, overall, l, tick, picks))
  {
    if tick.atTop < overall {
      FrozenTurn(c, overall, l, tick, picks);
      FrozenAfterRound(c, l.st, l.stallAt, tick);
    }
  }

  lemma FrozenTurn(c: Setup, overall: nat, l: Loop, tick: Tick, picks: Picks)
    requires Frozen(c, l.st) && l.exit.None? && tick.atTop < overall && PickedWell(c, overall, l, tick, picks)
    ensures Turn(c, overall, l, tick, picks) == AfterRound(c, l.st, l.stallAt, tick)
  {
    FrozenRound(c, l.st, tick, picks);
  }

  lemma FrozenAfterRound(c: Setup, st: State, stallAt: nat, tick: Tick)
    requires Frozen(c, st) && !tick.notice.BlocksFrom?
    ensures FrozenLoop(c, st, AfterRound(c, st, stallAt, tick))
  {
    FrozenIsNotIdle(c, st);
    FrozenHeard(c, st, stallAt, tick.notice, tick.atNotice);
  }

  ghost predicate FrozenLoop(c: Setup, st: State, l: Loop) {
    l.st == st && (l.exit.Some? ==> l.exit.value in {TimedOut, Stalled, ReceiveFailed})
  }

  // Turn k keeps the loop frozen.
  ghost predicate KeepsFrozen(w: Course, st: State, k: nat)
    requires k < |w.ticks|
  {
    FrozenLoop(w.c, st, At(w, k)) ==> FrozenLoop(w.c, st, At(w, k + 1))
  }

  lemma FrozenStep(w: Course, st: State, n: nat, k: nat)
    requires k < n <= |w.ticks| && PicksFit(w, n) && Frozen(w.c, st) && !w.ticks[k].notice.BlocksFrom?
    ensures KeepsFrozen(w, st, k)
  {
    FitsAt(w, n, k);
    if FrozenLoop(w.c, st, At(w, k)) && At(w, k).exit.None? {
      FrozenPass(w.c, w.overall, At(w, k), w.ticks[k], PicksAt(w, k));
    }
  }

  lemma {:induction false} StaysFrozen(w: Course, st: State, k: nat, n: nat)
    requires k <= n <= |w.ticks| && FrozenLoop(w.c, st, At(w, k))
    requires forall j :: k <= j < n ==> KeepsFrozen(w, st, j)
    ensures FrozenLoop(w.c, st, At(w, n))
  {
    if k < n {
      StaysFrozen(w, st, k, n - 1);
      assert KeepsFrozen(w, st, n - 1);
    }
  }

  lemma FrozenForever(w: Course, st: State, k: nat, n: nat)
    requires k <= n <= |w.ticks| && PicksFit(w, n) && Frozen(w.c, st) && FrozenLoop(w.c, st, At(w, k))
    requires forall j :: k <= j < n ==> !w.ticks[j].notice.BlocksFrom?
    ensures FrozenLoop(w.c, st, At(w, n))
  {
    forall j | k <= j < n
      ensures KeepsFrozen(w, st, j)
    {
      FrozenStep(w, st, n, j);
    }
    StaysFrozen(w, st, k, n);
  }

  // So the download ends without the nar, although it never gave up on a provider.
  lemma FrozenIsIncomplete(w: Course, k: nat, narHash: string, narSize: nat, r: Result<(Bytes, string), DownloadError>)
    requires k <= |w.ticks| && IsCourse(w) && At(w, k).exit.None? && Frozen(w.c, At(w, k).st)
    requires forall j :: k <= j < |w.ticks| ==> !w.ticks[j].notice.BlocksFrom?
    requires Outcome(w.c, narHash, narSize, End(w), r)
    ensures ExitOf(w) in {TimedOut, Stalled, ReceiveFailed} && r == Err(Incomplete)
  {
    FrozenForever(w, At(w, k).st, k, |w.ticks|);
    FrozenIsNotIdle(w.c, At(w, k).st);
  }
}
