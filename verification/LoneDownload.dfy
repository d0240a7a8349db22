// Two whole downloads through the loop: an honest provider on its own, which
// delivers the nar in the fewest possible turns, and a first handshake with a
// hash list that is too short, which makes the loop panic.

module LoneDownload {
  import opened Common
  import opened Blocks
  import opened Ledger
  import opened Scheduler
  import opened Invariants
  import opened DownloadLoop
  import opened LoopResults
  import opened StaleSlots
  import opened Serving

  // ---- A lone honest provider ----

  // The request the provider got, answered from the nar's own blocks.
  ghost predicate AnswersRequest(round: State, p: PeerId, data: Bytes, size: nat, batch: seq<nat>, notice: Notice)
    requires size > 0
  {
    && StrictlyIncreasing(batch) && Elements(batch) == FlyingAt(round.sched, p)
    && (forall k :: 0 <= k < |batch| ==> batch[k] < |Chunks(data, size)|)
    && notice == BlocksFrom(p, GenuineBlocks(data, size, batch))
  }

  // Every turn hears the answer to what is in flight then.
  ghost predicate HonestScript(w: Course, p: PeerId, data: Bytes, size: nat, batches: seq<seq<nat>>)
    requires size > 0
  {
    && |batches| == |w.ticks|
    && forall k :: 0 <= k < |w.ticks| && Entered(w, k) ==>
         AnswersRequest(RoundOf(PassAt(w, k)), p, data, size, batches[k], w.ticks[k].notice)
  }

  function LastHeard(w: Course, k: nat): nat
    requires k <= |w.ticks|
  {
    if k == 0 then w.started else w.ticks[k - 1].atNotice
  }

  predicate OnTime(w: Course, k: nat)
    requires k < |w.ticks|
  {
    && w.ticks[k].atTop < w.overall
    && LastHeard(w, k) <= w.ticks[k].atRequeue < LastHeard(w, k) + w.c.timeout
    && w.ticks[k].atStall <= LastHeard(w, k) + w.c.timeout
  }

  // The clocks run, and never reach a deadline.
  predicate Prompt(w: Course) {
    forall k :: 0 <= k < |w.ticks| ==> OnTime(w, k)
  }

  // A download from p alone, who has every block of the nar.
  ghost predicate IsLone(w: Course, p: PeerId, data: Bytes, size: nat, batches: seq<seq<nat>>) {
    && IsCourse(w) && HashesOf(w.c.h, w.c.info, data, size) && w.c.maxInFlight >= 1
    && w.offers == map[p := Indices(w.c.info.blockCount)]
    && HonestScript(w, p, data, size, batches) && Prompt(w)
  }

  // A resting state has nothing to requeue.
  lemma RestingHasNoFlights(c: Setup, st: State, p: PeerId, data: Bytes, size: nat, now: nat)
    requires Resting(c, st, p, data, size)
    ensures forall i :: 0 <= i < |st.sched.blocks| ==> !st.sched.blocks[i].InFlight?
    ensures Next(c, st, Expire(now)) == st
  {
    forall i | 0 <= i < |st.sched.blocks|
      ensures !st.sched.blocks[i].InFlight?
    {
      if st.sched.blocks[i].InFlight? {
        assert Flying(st.sched, i, st.sched.blocks[i].peer);
      }
    }
    NothingExpires(st.sched, now, c.timeout);
  }

  // After a round out of a resting state, what flies is what was handed out.
  lemma RoundFlies(c: Setup, st: State, p: PeerId, data: Bytes, size: nat, now: nat, picks: Picks)
    requires Resting(c, st, p, data, size) && IsDispatch(st.sched, c.maxInFlight, now, picks)
    ensures FlyingAt(AfterPicks(st.sched, picks, now), p) == Given(picks, p)
    ensures AfterPicks(st.sched, picks, now).peers[p].inFlight == Given(picks, p)
  {
    OnlyPeerIsPicked(c, st, p, data, size, now, picks);
    var t := AfterPicks(st.sched, picks, now);
    assert {} + Given(picks, p) == Given(picks, p);
    forall i | 0 <= i < |t.blocks|
      ensures Flying(t, i, p) <==> i in Given(picks, p)
    {
      assert i in Assigned(picks) <==> picks[i].Some?;
      assert PickedFor(picks, i, p) <==> picks[i] == Some(p);
    }
  }

  // Resting with so many blocks left, and over when none is.
  ghost predicate IsLeft(c: Setup, p: PeerId, data: Bytes, size: nat, l: Loop, left: int, heard: nat) {
    && Resting(c, l.st, p, data, size)
    && |PendingSet(l.st.sched)| == left
    && l.stallAt == heard + c.timeout
    && l.exit == if PendingSet(l.st.sched) == {} then Some(AllReceived) else None
  }

  // The answer to a round: it completes the batch, moves the deadline, and ends
  // the loop when nothing is left.
  ghost predicate RoundDone(c: Setup, st: State, p: PeerId, data: Bytes, size: nat, now: nat, l: Loop) {
    IsLeft(c, p, data, size, l, Max(0, |PendingSet(st.sched)| - c.maxInFlight), now)
  }

  lemma HonestAnswer(c: Setup, st: State, p: PeerId, data: Bytes, size: nat, now: nat, picks: Picks, round: State, batch: seq<nat>, stallAt: nat, tick: Tick)
    requires Resting(c, st, p, data, size) && IsDispatch(st.sched, c.maxInFlight, now, picks) && PendingSet(st.sched) != {}
    requires round == Next(c, st, Dispatch(now, picks)) && tick.atStall <= stallAt
    requires AnswersRequest(round, p, data, size, batch, tick.notice)
    ensures RoundDone(c, st, p, data, size, tick.atNotice, AfterRound(c, round, stallAt, tick))
  {
    RoundFlies(c, st, p, data, size, now, picks);
    RoundSize(c, st, p, data, size, now, picks);
    assert |PendingSet(st.sched)| > 0;
    BusyIsNotIdle(round.sched, p);
    HonestHeard(c, st, p, data, size, now, picks, round, batch, stallAt, tick);
    ListeningRound(c, round, stallAt, tick);
  }

  lemma HonestHeard(c: Setup, st: State, p: PeerId, data: Bytes, size: nat, now: nat, picks: Picks, round: State, batch: seq<nat>, stallAt: nat, tick: Tick)
    requires Resting(c, st, p, data, size) && IsDispatch(st.sched, c.maxInFlight, now, picks) && PendingSet(st.sched) != {}
    requires round == Next(c, st, Dispatch(now, picks)) && FlyingAt(round.sched, p) == Given(picks, p) && |Given(picks, p)| > 0
    requires AnswersRequest(round, p, data, size, batch, tick.notice)
    ensures RoundDone(c, st, p, data, size, tick.atNotice, Heard(c, round, stallAt, tick.notice, tick.atNotice))
  {
    var reply := GenuineBlocks(data, size, batch);
    var end := Next(c, round, Answer(p, reply));
    assert HonestRound(c, st, p, data, size, now, picks, batch, end);
    OneRoundLess(c, p, data, size, st, Serving.Round(now, picks, batch), end);
    RoundFillsSlots(c, st, p, data, size, now, picks, batch);
    EnoughHashes(c, round, p, reply);
    assert batch == [] ==> Elements(batch) == {};
    RestingComplete(c, end, p, data, size);
    HeardAnswerIs(c, round, p, reply, stallAt, tick.atNotice, end);
  }

  // ---- Turn by turn ----

  // Turn 0 hears the answer to the round before the loop.
  lemma FirstTurnHears(w: Course, p: PeerId, data: Bytes, size: nat, batches: seq<seq<nat>>)
    requires IsLone(w, p, data, size, batches) && |w.ticks| > 0
    requires Resting(w.c, Initial(w.c, w.offers), p, data, size)
    ensures AnswersRequest(At(w, 0).st, p, data, size, batches[0], w.ticks[0].notice)
    ensures At(w, 1) == AfterRound(w.c, At(w, 0).st, At(w, 0).stallAt, w.ticks[0])
    ensures w.ticks[0].atStall <= At(w, 0).stallAt
    ensures IsDispatch(Initial(w.c, w.offers).sched, w.c.maxInFlight, w.started, w.first)
  {
    assert OnTime(w, 0) && Entered(w, 0);
    CourseFits(w, |w.ticks|, 0);
    FitsAt(w, |w.ticks|, 0);
    RestingHasNoFlights(w.c, Initial(w.c, w.offers), p, data, size, w.started);
    FreshRoundWaits(w.c, Initial(w.c, w.offers), w.started, w.first, w.ticks[0], PicksAt(w, 0));
    assert RoundOf(PassAt(w, 0)) == At(w, 0).st;
    ExitStays(w, 0);
  }

  lemma FirstTurn(w: Course, st: State, p: PeerId, data: Bytes, size: nat, batches: seq<seq<nat>>)
    requires IsLone(w, p, data, size, batches) && |w.ticks| > 0
    requires st == Initial(w.c, w.offers) && Resting(w.c, st, p, data, size) && PendingSet(st.sched) != {}
    ensures RoundDone(w.c, st, p, data, size, w.ticks[0].atNotice, At(w, 1))
  {
    FirstTurnHears(w, p, data, size, batches);
    HonestAnswer(w.c, st, p, data, size, w.started, w.first, At(w, 0).st, batches[0], At(w, 0).stallAt, w.ticks[0]);
  }

  lemma LaterPass(c: Setup, overall: nat, l: Loop, tick: Tick, picks: Picks, p: PeerId, data: Bytes, size: nat, batch: seq<nat>)
    requires Resting(c, l.st, p, data, size) && l.exit.None? && PendingSet(l.st.sched) != {}
    requires tick.atTop < overall && tick.atStall <= l.stallAt && PickedWell(c, overall, l, tick, picks)
    requires AnswersRequest(Dispatched(c, l.st, tick, picks), p, data, size, batch, tick.notice)
    ensures RoundDone(c, l.st, p, data, size, tick.atNotice, Turn(c, overall, l, tick, picks))
  {
    RestingHasNoFlights(c, l.st, p, data, size, tick.atRequeue);
    HonestAnswer(c, l.st, p, data, size, tick.atDispatch, picks, Dispatched(c, l.st, tick, picks), batch, l.stallAt, tick);
  }

  // Where k turns with answers lead.
  ghost predicate Downloaded(w: Course, p: PeerId, data: Bytes, size: nat, k: nat)
    requires k <= |w.ticks|
  {
    IsLeft(w.c, p, data, size, At(w, k), Max(0, w.c.info.blockCount - k * w.c.maxInFlight), LastHeard(w, k))
  }

  lemma LaterTurn(w: Course, p: PeerId, data: Bytes, size: nat, batches: seq<seq<nat>>, k: nat)
    requires IsLone(w, p, data, size, batches) && k < |w.ticks|
    requires Downloaded(w, p, data, size, k) && k * w.c.maxInFlight < w.c.info.blockCount
    ensures RoundDone(w.c, At(w, k).st, p, data, size, w.ticks[k].atNotice, At(w, k + 1))
  {
    FitsAt(w, |w.ticks|, k);
    assert OnTime(w, k);
    assert PendingSet(At(w, k).st.sched) != {};
    assert Entered(w, k);
    LaterPass(w.c, w.overall, At(w, k), w.ticks[k], PicksAt(w, k), p, data, size, batches[k]);
    ExitStays(w, k);
  }

  lemma FirstDownloaded(w: Course, p: PeerId, data: Bytes, size: nat, batches: seq<seq<nat>>)
    requires IsLone(w, p, data, size, batches) && |w.ticks| > 0
    ensures Downloaded(w, p, data, size, 1)
  {
    HasBlocks(w.c, data, size);
    StartsResting(w.c, p, data, size);
    var st := Initial(w.c, w.offers);
    NotEmpty(PendingSet(st.sched));
    FirstTurn(w, st, p, data, size, batches);
    CarryOver(w, st, p, data, size, 0);
  }

  lemma NotEmpty(s: set<nat>)
    requires |s| > 0
    ensures s != {}
  {
  }

  lemma CarryOver(w: Course, st: State, p: PeerId, data: Bytes, size: nat, k: nat)
    requires k < |w.ticks| && RoundDone(w.c, st, p, data, size, w.ticks[k].atNotice, At(w, k + 1))
    requires |PendingSet(st.sched)| == Max(0, w.c.info.blockCount - k * w.c.maxInFlight)
    ensures Downloaded(w, p, data, size, k + 1)
  {
    LessByOneRound(w.c.info.blockCount, w.c.maxInFlight, k + 1);
  }

  lemma NextDownloaded(w: Course, p: PeerId, data: Bytes, size: nat, batches: seq<seq<nat>>, k: nat)
    requires IsLone(w, p, data, size, batches) && k < |w.ticks|
    requires Downloaded(w, p, data, size, k) && k * w.c.maxInFlight < w.c.info.blockCount
    ensures Downloaded(w, p, data, size, k + 1)
  {
    LaterTurn(w, p, data, size, batches, k);
    CarryOver(w, At(w, k).st, p, data, size, k);
  }

  lemma {:induction false} AfterTurns(w: Course, p: PeerId, data: Bytes, size: nat, batches: seq<seq<nat>>, k: nat)
    requires IsLone(w, p, data, size, batches) && 0 < k <= |w.ticks|
    requires (k - 1) * w.c.maxInFlight < w.c.info.blockCount
    ensures Downloaded(w, p, data, size, k)
  {
    if k == 1 {
      FirstDownloaded(w, p, data, size, batches);
    } else {
      assert (k - 1) * w.c.maxInFlight == (k - 2) * w.c.maxInFlight + w.c.maxInFlight;
      AfterTurns(w, p, data, size, batches, k - 1);
      NextDownloaded(w, p, data, size, batches, k - 1);
    }
  }

  // The loop ends with everything received at turn ceil(n / max), not before, and
  // returns the provider's nar, whatever the hash function.
  lemma LoneProviderIsServed(w: Course, p: PeerId, data: Bytes, size: nat, batches: seq<seq<nat>>, narHash: string, narSize: nat, r: Result<(Bytes, string), DownloadError>)
    requires IsLone(w, p, data, size, batches) && |w.ticks| >= CeilDiv(w.c.info.blockCount, w.c.maxInFlight)
    requires NarHashMatches(w.c.h, narHash, data) && (narSize == 0 || narSize == |data|)
    requires Outcome(w.c, narHash, narSize, End(w), r)
    ensures ExitOf(w) == AllReceived && r == Ok((data, "sha256:" + Hex(w.c.h(data))))
    ensures forall k :: 0 <= k <= |w.ticks| ==> (At(w, k).exit == Some(AllReceived) <==> k >= CeilDiv(w.c.info.blockCount, w.c.maxInFlight))
    ensures forall k :: 0 <= k < CeilDiv(w.c.info.blockCount, w.c.maxInFlight) ==> At(w, k).exit.None?
  {
    var q := CeilDiv(w.c.info.blockCount, w.c.maxInFlight);
    HasBlocks(w.c, data, size);
    forall k | 0 <= k <= |w.ticks|
      ensures At(w, k).exit == if k >= q then Some(AllReceived) else None
    {
      ExitAfter(w, p, data, size, batches, k);
    }
    EndsResting(w, p, data, size, batches);
    HonestResult(w.c, End(w), p, data, size, narHash, narSize, r);
  }

  lemma HasBlocks(c: Setup, data: Bytes, size: nat)
    requires HashesOf(c.h, c.info, data, size) && c.maxInFlight >= 1
    ensures c.info.blockCount > 0 && CeilDiv(c.info.blockCount, c.maxInFlight) >= 1
  {
    ChunksCount(data, size);
    CeilReached(|data|, size, 0);
    CeilReached(c.info.blockCount, c.maxInFlight, 0);
  }

  lemma ExitAfter(w: Course, p: PeerId, data: Bytes, size: nat, batches: seq<seq<nat>>, k: nat)
    requires IsLone(w, p, data, size, batches) && k <= |w.ticks| && |w.ticks| >= CeilDiv(w.c.info.blockCount, w.c.maxInFlight)
    ensures At(w, k).exit == if k >= CeilDiv(w.c.info.blockCount, w.c.maxInFlight) then Some(AllReceived) else None
  {
    var n, m := w.c.info.blockCount, w.c.maxInFlight;
    var q := CeilDiv(n, m);
    HasBlocks(w.c, data, size);
    CeilReached(n, m, k);
    if 0 < k < q {
      CeilReached(n, m, k - 1);
      AfterTurns(w, p, data, size, batches, k);
    } else if k >= q {
      LastTurnEnds(w, p, data, size, batches, q);
      EndedStays(w, q, k);
    }
  }

  lemma LastTurnEnds(w: Course, p: PeerId, data: Bytes, size: nat, batches: seq<seq<nat>>, q: nat)
    requires IsLone(w, p, data, size, batches) && |w.ticks| >= q == CeilDiv(w.c.info.blockCount, w.c.maxInFlight)
    ensures At(w, q).exit == Some(AllReceived) && Resting(w.c, At(w, q).st, p, data, size) && PendingSet(At(w, q).st.sched) == {}
  {
    HasBlocks(w.c, data, size);
    CeilReached(w.c.info.blockCount, w.c.maxInFlight, q);
    CeilReached(w.c.info.blockCount, w.c.maxInFlight, q - 1);
    AfterTurns(w, p, data, size, batches, q);
    NoneLeft(w.c, p, data, size, At(w, q), LastHeard(w, q));
  }

  lemma NoneLeft(c: Setup, p: PeerId, data: Bytes, size: nat, l: Loop, heard: nat)
    requires IsLeft(c, p, data, size, l, 0, heard)
    ensures l.exit == Some(AllReceived) && Resting(c, l.st, p, data, size) && PendingSet(l.st.sched) == {}
  {
  }

  lemma EndsResting(w: Course, p: PeerId, data: Bytes, size: nat, batches: seq<seq<nat>>)
    requires IsLone(w, p, data, size, batches) && |w.ticks| >= CeilDiv(w.c.info.blockCount, w.c.maxInFlight)
    ensures Resting(w.c, End(w), p, data, size) && PendingSet(End(w).sched) == {}
  {
    var q := CeilDiv(w.c.info.blockCount, w.c.maxInFlight);
    LastTurnEnds(w, p, data, size, batches, q);
    EndedStays(w, q, |w.ticks|);
  }

  lemma HonestResult(c: Setup, end: State, p: PeerId, data: Bytes, size: nat, narHash: string, narSize: nat, r: Result<(Bytes, string), DownloadError>)
    requires Resting(c, end, p, data, size) && PendingSet(end.sched) == {}
    requires NarHashMatches(c.h, narHash, data) && (narSize == 0 || narSize == |data|)
    requires Outcome(c, narHash, narSize, end, r)
    ensures r == Ok((data, "sha256:" + Hex(c.h(data))))
  {
    RestingComplete(c, end, p, data, size);
    var parts :| IsChoice(end.receivers, c.info.blockCount, parts) && OutcomeOf(c, narHash, narSize, parts, r);
    GenuineAssembles(c.h, c.info, end.receivers, data, size, parts, narHash, narSize);
  }

  // ---- A hash list that is too short ----

  // No script makes a download panic when every announced block has a hash.
  lemma LongEnoughNeverPanics(w: Course)
    requires IsCourse(w) && w.c.info.blockCount <= |w.c.info.blockHashes|
    ensures ExitOf(w) != Panicked
  {
    ExitReasons(w);
    forall k | 0 <= k < |w.ticks|
      ensures !Panics(PassAt(w, k), w.offers)
    {
    }
  }

  // A first handshake without hashes, on a narinfo with a known size.
  function ShortSetup(h: Hasher, timeout: nat): Setup {
    Setup(h, DownloadBlockInfo(1, 262144, 1, []), 1, timeout)
  }

  function ShortCourse(h: Hasher, timeout: nat, overall: nat, payload: Bytes): Course {
    Course(ShortSetup(h, timeout), map[0 := {0}], 0, overall, [Some(0)], [Tick(1, 2, 3, 4, BlocksFrom(0, [(0, payload)]), 5)], [[None]])
  }

  function LoneSched(b: BlockState, inFlight: set<nat>): Sched {
    Sched([b], map[0 := PeerFetch({0}, inFlight, 0, 0)])
  }

  lemma ShortStart(h: Hasher, timeout: nat)
    ensures var c := ShortSetup(h, timeout);
            && c.info.blockCount == 1 && c.info.blockHashes == []
            && Initial(c, map[0 := {0}]) == State(LoneSched(Pending, {}), map[0 := [None]])
  {
    var c := ShortSetup(h, timeout);
    var st := Initial(c, map[0 := {0}]);
    assert st.sched.blocks == [Pending];
    assert st.sched.peers[0].available == {0};
    MapsEqual(st.sched.peers, LoneSched(Pending, {}).peers);
    var none: Slots := [None];
    assert seq(1, _ => None) == none;
    MapsEqual(st.receivers, map[0 := none]);
  }

  lemma OneBlockRound()
    ensures IsDispatch(LoneSched(Pending, {}), 1, 0, [Some(0)])
    ensures AfterPicks(LoneSched(Pending, {}), [Some(0)], 0) == LoneSched(InFlight(0, 0), {0})
  {
    var s, end := LoneSched(Pending, {}), LoneSched(InFlight(0, 0), {0});
    AfterNoPicks(s, 0);
    assert Greedy(s, 1, 0, []);
    assert {} + {0} == {0};
    ExtendGreedy(s, 1, 0, [], Some(0));
    PicksExtend(s, [], Some(0), 0);
    assert [] + [Some(0)] == [Some(0)];
    var t := AfterPicks(s, [Some(0)], 0);
    assert t.blocks == end.blocks;
    MapsEqual(t.peers, end.peers);
  }

  lemma OneBlockWaits(now: nat)
    ensures IsDispatch(LoneSched(InFlight(0, 0), {0}), 1, now, [None])
    ensures AfterPicks(LoneSched(InFlight(0, 0), {0}), [None], now) == LoneSched(InFlight(0, 0), {0})
  {
    var s := LoneSched(InFlight(0, 0), {0});
    AfterNoPicks(s, now);
    assert Greedy(s, 1, now, []);
    ExtendGreedy(s, 1, now, [], None);
    PicksExtend(s, [], None, now);
    var nobody: Picks := [None];
    assert [] + [None] == nobody;
  }

  // Whatever the payload, one reply that names the unhashed block is enough.
  lemma ShortListPanics(h: Hasher, timeout: nat, overall: nat, payload: Bytes)
    requires timeout >= 4 && overall > 1
    ensures IsCourse(ShortCourse(h, timeout, overall, payload)) && ExitOf(ShortCourse(h, timeout, overall, payload)) == Panicked
  {
    var w := ShortCourse(h, timeout, overall, payload);
    ShortStart(h, timeout);
    OneBlockRound();
    ShortTurn(w.c, overall, payload, w.ticks[0]);
    ExitStays(w, 0);
  }

  lemma ShortTurn(c: Setup, overall: nat, payload: Bytes, tick: Tick)
    requires c.info.blockCount == 1 && c.info.blockHashes == [] && c.timeout >= 4 && c.maxInFlight == 1 && overall > 1
    requires tick == Tick(1, 2, 3, 4, BlocksFrom(0, [(0, payload)]), 5)
    ensures var l := Loop(State(LoneSched(InFlight(0, 0), {0}), map[0 := [None]]), c.timeout, None);
            PickedWell(c, overall, l, tick, [None]) && Turn(c, overall, l, tick, [None]).exit == Some(Panicked)
  {
    var st := State(LoneSched(InFlight(0, 0), {0}), map[0 := [None]]);
    NothingExpires(st.sched, 2, c.timeout);
    OneBlockWaits(3);
    var reply: Reply := [(0, payload)];
    assert reply[0].0 == 0;
    assert Aborts(c.info, st.receivers, 0, reply);
    BusyIsNotIdle(st.sched, 0);
  }
}
