// Does one honest peer, always on time, suffice? A rejected reply costs its sender
// no failure, and ties are broken in any way, so a peer that keeps answering one
// block wrongly can be asked for it again and again while the honest peer is idle.
// The honest peer is enough exactly when nobody else offers any block.

module Starvation {
  import opened Common
  import opened Blocks
  import opened Ledger
  import opened Scheduler
  import opened Invariants
  import opened Progress
  import opened DispatchQuality
  import opened DownloadLoop
  import opened LoopResults
  import opened StaleSlots
  import opened Serving
  import opened LoneDownload

  // ---- An honest peer on time ----

  // An answer to everything p has been asked and not answered yet.
  ghost predicate AnswersAll(round: State, p: PeerId, data: Bytes, size: nat, reply: Reply)
    requires size > 0
  {
    p in round.sched.peers && exists batch: seq<nat> ::
      && StrictlyIncreasing(batch) && Elements(batch) == round.sched.peers[p].inFlight
      && (forall k :: 0 <= k < |batch| ==> batch[k] < |Chunks(data, size)|)
      && reply == GenuineBlocks(data, size, batch)
  }

  // p has been asked for something it has not answered.
  ghost predicate Owes(st: State, p: PeerId) {
    p in st.sched.peers && st.sched.peers[p].inFlight != {}
  }

  // The turn tests the stall deadline within the stall timeout of the notification
  // before it and, while p owes an answer, not after that deadline: p answers before
  // it passes.
  ghost predicate Punctual(x: Pass, heard: nat, p: PeerId) {
    x.tick.atStall <= heard + x.c.timeout && (Owes(x.l.st, p) ==> x.tick.atStall <= x.l.stallAt)
  }

  // In this turn the clock is short of the overall deadline, nothing p owes is
  // overdue or fails, and what p says is an honest answer to all it was asked.
  ghost predicate FairTurn(x: Pass, heard: nat, p: PeerId, data: Bytes, size: nat)
    requires size > 0
  {
    && x.tick.atTop < x.overall && Punctual(x, heard, p)
    && ExpiredBlocks(x.l.st.sched, x.tick.atRequeue, x.c.timeout) * FlyingAt(x.l.st.sched, p) == {}
    && (x.tick.notice.RequestFailed? ==> x.tick.notice.failed != p)
    && (x.tick.notice.BlocksFrom? && x.tick.notice.peer == p ==> AnswersAll(RoundOf(x), p, data, size, x.tick.notice.reply))
  }

  // Every turn is fair to p, and the loop ends by itself. About the other peers
  // nothing is assumed.
  ghost predicate FairTo(w: Course, p: PeerId, data: Bytes, size: nat)
    requires size > 0
  {
    && IsCourse(w)
    && (forall k :: 0 <= k < |w.ticks| && Entered(w, k) ==> FairTurn(PassAt(w, k), LastHeard(w, k), p, data, size))
    && At(w, |w.ticks|).exit.Some? && ExitOf(w) != ReceiveFailed
  }

  ghost predicate Suffices(c: Setup, offers: map<PeerId, set<nat>>, started: nat, overall: nat, p: PeerId, data: Bytes, size: nat)
    requires size > 0
  {
    forall w: Course :: FairTo(w, p, data, size) && w.c == c && w.offers == offers && w.started == started && w.overall == overall ==>
      ExitOf(w) == AllReceived
  }

  predicate OffersAll(offers: map<PeerId, set<nat>>, p: PeerId, n: nat) {
    p in offers && Indices(n) <= offers[p]
  }

  predicate OthersOfferNothing(offers: map<PeerId, set<nat>>, p: PeerId, n: nat) {
    forall q :: q in offers && q != p ==> offers[q] !! Indices(n)
  }

  // ---- When it suffices ----

  ghost predicate AloneOffers(s: Sched, p: PeerId) {
    && p in s.peers
    && (forall i :: 0 <= i < |s.blocks| ==> i in s.peers[p].available)
    && (forall q :: q in s.peers && q != p ==> s.peers[q].available == {})
  }

  // A peer that alone has blocks, with room for one and nothing outstanding after a
  // round, has none left to give.
  lemma NothingLeft(c: Setup, st: State, now: nat, picks: Picks, p: PeerId)
    requires Inv(c, st) && c.maxInFlight >= 1 && IsDispatch(st.sched, c.maxInFlight, now, picks) && AloneOffers(st.sched, p)
    requires Next(c, st, Dispatch(now, picks)).sched.peers[p].inFlight == {}
    ensures LedgerComplete(Next(c, st, Dispatch(now, picks)).receivers, c.info.blockCount)
  {
    var t := Next(c, st, Dispatch(now, picks));
    StepKeeps(c, st, Dispatch(now, picks));
    forall i | 0 <= i < |t.sched.blocks|
      ensures t.sched.blocks[i].Complete?
    {
      BlockIsDone(c, st, now, picks, p, t, i);
    }
    CompleteTogether(c, t);
  }

  lemma BlockIsDone(c: Setup, st: State, now: nat, picks: Picks, p: PeerId, t: State, i: nat)
    requires c.maxInFlight >= 1 && IsDispatch(st.sched, c.maxInFlight, now, picks) && AloneOffers(st.sched, p)
    requires t == Next(c, st, Dispatch(now, picks)) && Inv(c, t) && i < |t.sched.blocks| && t.sched.peers[p].inFlight == {}
    ensures t.sched.blocks[i].Complete?
  {
    PicksKeepOffers(st.sched, picks, now, p);
    NotFlying(t.sched, c.maxInFlight, p, i);
    if t.sched.blocks[i].Pending? {
      RoundIsMaximal(st.sched, c.maxInFlight, now, picks, i, p);
    }
  }

  lemma PicksKeepOffers(s: Sched, picks: Picks, now: nat, p: PeerId)
    requires AloneOffers(s, p)
    ensures AloneOffers(AfterPicks(s, picks, now), p)
  {
  }

  lemma NotFlying(s: Sched, maxInFlight: nat, p: PeerId, i: nat)
    requires SchedInv(s, maxInFlight) && AloneOffers(s, p) && s.peers[p].inFlight == {} && i < |s.blocks|
    ensures !s.blocks[i].InFlight?
  {
    if s.blocks[i].InFlight? {
      assert Flying(s, i, s.blocks[i].peer);
    }
  }

  lemma AloneAt(w: Course, k: nat, p: PeerId)
    requires IsCourse(w) && k <= |w.ticks|
    requires OffersAll(w.offers, p, w.c.info.blockCount) && OthersOfferNothing(w.offers, p, w.c.info.blockCount)
    ensures AloneOffers(At(w, k).st.sched, p)
  {
    CourseKeeps(w, k);
    CourseOffers(w, k);
    AloneAtFirst(w.c, w.offers, p);
    AloneStays(Initial(w.c, w.offers).sched, At(w, k).st.sched, p);
  }

  lemma AloneAtFirst(c: Setup, offers: map<PeerId, set<nat>>, p: PeerId)
    requires OffersAll(offers, p, c.info.blockCount) && OthersOfferNothing(offers, p, c.info.blockCount)
    ensures AloneOffers(Initial(c, offers).sched, p)
  {
    var s := Initial(c, offers).sched;
    forall q | q in s.peers && q != p
      ensures s.peers[q].available == {}
    {
      assert forall i :: i in offers[q] ==> i !in Indices(c.info.blockCount);
    }
  }

  lemma AloneStays(a: Sched, b: Sched, p: PeerId)
    requires AloneOffers(a, p) && SameOffers(a, b) && |a.blocks| == |b.blocks|
    ensures AloneOffers(b, p)
  {
  }

  // After its round p owes an answer whenever a block is missing.
  lemma RoundOwes(c: Setup, st: State, tick: Tick, picks: Picks, p: PeerId, mid: State, round: State)
    requires Inv(c, st) && c.maxInFlight >= 1 && AloneOffers(st.sched, p) && !LedgerComplete(st.receivers, c.info.blockCount)
    requires mid == Requeued(c, st, tick) && round == Next(c, mid, Dispatch(tick.atDispatch, picks))
    requires IsDispatch(mid.sched, c.maxInFlight, tick.atDispatch, picks)
    ensures Owes(round, p)
  {
    StepKeeps(c, st, Expire(tick.atRequeue));
    ExpiryKeepsOffers(st.sched, ExpiredBlocks(st.sched, tick.atRequeue, c.timeout), p);
    if round.sched.peers[p].inFlight == {} {
      NothingLeft(c, mid, tick.atDispatch, picks, p);
    }
  }

  lemma ExpiryKeepsOffers(s: Sched, gone: set<nat>, p: PeerId)
    requires AloneOffers(s, p)
    ensures AloneOffers(AfterExpiry(s, gone), p)
  {
  }

  // ---- What p owes is news ----

  // Nothing that is counted at p has come from p.
  ghost predicate OwedIsNews(st: State, p: PeerId) {
    && p in st.sched.peers && p in st.receivers
    && forall i :: i in st.sched.peers[p].inFlight ==> i < |st.receivers[p]| && st.receivers[p][i].None?
  }

  lemma NewsAtFirst(c: Setup, offers: map<PeerId, set<nat>>, p: PeerId)
    requires p in offers
    ensures OwedIsNews(Initial(c, offers), p)
  {
  }

  lemma ExpiryKeepsNews(c: Setup, st: State, now: nat, p: PeerId)
    requires OwedIsNews(st, p)
    ensures OwedIsNews(Next(c, st, Expire(now)), p)
  {
  }

  // A round gives only pending blocks, which nobody has sent.
  lemma RoundKeepsNews(c: Setup, st: State, now: nat, picks: Picks, p: PeerId)
    requires Inv(c, st) && IsDispatch(st.sched, c.maxInFlight, now, picks) && OwedIsNews(st, p)
    ensures OwedIsNews(Next(c, st, Dispatch(now, picks)), p)
  {
    PickedArePending(st.sched, c.maxInFlight, now, picks);
    forall i | i in Given(picks, p)
      ensures i < |st.receivers[p]| && st.receivers[p][i].None?
    {
      assert i in Assigned(picks);
      PendingIsNews(c, st, i, p);
    }
  }

  lemma PendingIsNews(c: Setup, st: State, i: nat, p: PeerId)
    requires Inv(c, st) && i < |st.sched.blocks| && st.sched.blocks[i].Pending? && p in st.receivers
    ensures i < |st.receivers[p]| && st.receivers[p][i].None?
  {
    assert !Held(st.receivers, i);
    assert !Holds(st.receivers, p, i);
  }

  // What other peers answer, or fail to, is nothing to p.
  lemma OthersAnswer(c: Setup, st: State, q: PeerId, reply: Reply, p: PeerId, end: State)
    requires q != p && OwedIsNews(st, p) && end == Next(c, st, Answer(q, reply))
    ensures OwedIsNews(end, p) && (Owes(st, p) ==> Owes(end, p))
  {
  }

  lemma OthersFail(c: Setup, st: State, q: PeerId, p: PeerId, end: State)
    requires q != p && OwedIsNews(st, p) && end == Next(c, st, Fail(q))
    ensures OwedIsNews(end, p) && (Owes(st, p) ==> Owes(end, p))
  {
  }

  // An answer to all that p owes is news, so it moves the stall deadline.
  lemma AnswerIsNews(c: Setup, st: State, p: PeerId, reply: Reply, data: Bytes, size: nat, end: State)
    requires Inv(c, st) && HashesOf(c.h, c.info, data, size) && OwedIsNews(st, p) && Owes(st, p)
    requires AnswersAll(st, p, data, size, reply) && end == Next(c, st, Answer(p, reply))
    ensures AcceptedBy(c, st, Answer(p, reply)) > 0 && OwedIsNews(end, p)
  {
    var batch: seq<nat> :| StrictlyIncreasing(batch) && Elements(batch) == st.sched.peers[p].inFlight
                        && (forall k :: 0 <= k < |batch| ==> batch[k] < |Chunks(data, size)|) && reply == GenuineBlocks(data, size, batch);
    BatchIsAccepted(c, st, p, data, size, batch);
    BatchAnswersAll(data, size, batch);
    EmptiedIsNews(c, st, p, reply, end);
  }

  lemma BatchIsAccepted(c: Setup, st: State, p: PeerId, data: Bytes, size: nat, batch: seq<nat>)
    requires Inv(c, st) && HashesOf(c.h, c.info, data, size) && OwedIsNews(st, p) && Owes(st, p)
    requires StrictlyIncreasing(batch) && Elements(batch) == st.sched.peers[p].inFlight
    requires forall k :: 0 <= k < |batch| ==> batch[k] < |Chunks(data, size)|
    ensures AcceptedBy(c, st, Answer(p, GenuineBlocks(data, size, batch))) > 0
  {
    assert forall k :: 0 <= k < |batch| ==> batch[k] in Elements(batch);
    HonestReplyIsAccepted(c, st.receivers[p], data, size, batch);
    var i :| i in Elements(batch);
  }

  lemma EmptiedIsNews(c: Setup, st: State, p: PeerId, reply: Reply, end: State)
    requires OwedIsNews(st, p) && ReplyIndices(reply) == st.sched.peers[p].inFlight && end == Next(c, st, Answer(p, reply))
    ensures OwedIsNews(end, p)
  {
    RoundEmptiesPeer(st.sched, p, reply, ReceiversAfter(c.h, c.info, st.receivers, p, reply).1);
  }

  // ---- Turn by turn ----

  // p owes an answer, or the last notification moved the stall deadline.
  ghost predicate Awaited(c: Setup, l: Loop, heard: nat, p: PeerId) {
    OwedIsNews(l.st, p) && (Owes(l.st, p) || l.stallAt == heard + c.timeout)
  }

  lemma HeardIsAwaited(c: Setup, round: State, stallAt: nat, notice: Notice, now: nat, p: PeerId, data: Bytes, size: nat, n: Loop)
    requires Inv(c, round) && HashesOf(c.h, c.info, data, size) && OwedIsNews(round, p) && Owes(round, p)
    requires notice.RequestFailed? ==> notice.failed != p
    requires notice.BlocksFrom? && notice.peer == p ==> AnswersAll(round, p, data, size, notice.reply)
    requires n == Heard(c, round, stallAt, notice, now) && n.exit.None?
    ensures Awaited(c, n, now, p)
  {
    match notice {
      case BlocksFrom(q, reply) =>
        var end := Next(c, round, Answer(q, reply));
        if q == p {
          AnswerIsNews(c, round, p, reply, data, size, end);
        } else {
          OthersAnswer(c, round, q, reply, p, end);
        }
      case RequestFailed(q) =>
        OthersFail(c, round, q, p, Next(c, round, Fail(q)));
      case _ =>
    }
  }

  // A turn that may begin: the ledger is not complete, and p is awaited.
  ghost predicate Expecting(x: Pass, heard: nat, p: PeerId) {
    && Inv(x.c, x.l.st) && x.c.maxInFlight >= 1 && AloneOffers(x.l.st.sched, p) && !LedgerComplete(x.l.st.receivers, x.c.info.blockCount)
    && x.l.exit.None? && PickedWell(x.c, x.overall, x.l, x.tick, x.picks) && Awaited(x.c, x.l, heard, p)
  }

  lemma RoundOfPass(x: Pass, heard: nat, p: PeerId, data: Bytes, size: nat, round: State)
    requires size > 0 && Expecting(x, heard, p) && FairTurn(x, heard, p, data, size) && round == RoundOf(x)
    ensures Inv(x.c, round) && OwedIsNews(round, p) && Owes(round, p) && !Idle(round.sched)
  {
    var mid := Requeued(x.c, x.l.st, x.tick);
    StepKeeps(x.c, x.l.st, Expire(x.tick.atRequeue));
    StepKeeps(x.c, mid, Dispatch(x.tick.atDispatch, x.picks));
    ExpiryKeepsNews(x.c, x.l.st, x.tick.atRequeue, p);
    RoundKeepsNews(x.c, mid, x.tick.atDispatch, x.picks, p);
    RoundOwes(x.c, x.l.st, x.tick, x.picks, p, mid, round);
    BusyIsNotIdle(round.sched, p);
  }

  // A fair turn neither stalls nor gives up, and leaves p awaited.
  lemma FairTurnGoesOn(x: Pass, heard: nat, p: PeerId, data: Bytes, size: nat)
    requires HashesOf(x.c.h, x.c.info, data, size) && Expecting(x, heard, p) && FairTurn(x, heard, p, data, size)
    ensures !Stalls(x) && !GivesUp(x) && !TimesOut(x)
    ensures PassEnd(x).exit.None? ==> Awaited(x.c, PassEnd(x), x.tick.atNotice, p)
  {
    var round := RoundOf(x);
    RoundOfPass(x, heard, p, data, size, round);
    TurnHears(x.c, x.overall, x.l, x.tick, x.picks, round);
    if PassEnd(x).exit.None? {
      HeardIsAwaited(x.c, round, x.l.stallAt, x.tick.notice, x.tick.atNotice, p, data, size, PassEnd(x));
    }
  }

  // ---- The whole course ----

  ghost predicate Aims(w: Course, p: PeerId, data: Bytes, size: nat)
    requires size > 0
  {
    && HashesOf(w.c.h, w.c.info, data, size) && w.c.maxInFlight >= 1 && FairTo(w, p, data, size)
    && OffersAll(w.offers, p, w.c.info.blockCount) && OthersOfferNothing(w.offers, p, w.c.info.blockCount)
  }

  ghost predicate AwaitedAt(w: Course, k: nat, p: PeerId)
    requires k <= |w.ticks|
  {
    At(w, k).exit.None? ==> Awaited(w.c, At(w, k), LastHeard(w, k), p)
  }

  lemma TurnExpects(w: Course, k: nat, p: PeerId, data: Bytes, size: nat)
    requires size > 0 && Aims(w, p, data, size) && k < |w.ticks| && At(w, k).exit.None? && AwaitedAt(w, k, p)
    ensures Expecting(PassAt(w, k), LastHeard(w, k), p) && FairTurn(PassAt(w, k), LastHeard(w, k), p, data, size)
  {
    ChunksCount(data, size);
    CourseKeeps(w, k);
    FitsAt(w, |w.ticks|, k);
    AloneAt(w, k, p);
    CompleteEndsAt(w, k);
    assert Entered(w, k);
  }

  lemma FirstIsAwaited(w: Course, p: PeerId, data: Bytes, size: nat)
    requires size > 0 && Aims(w, p, data, size)
    ensures AwaitedAt(w, 0, p)
  {
    NewsAtFirst(w.c, w.offers, p);
    InitialInv(w.c, w.offers);
    CourseFits(w, |w.ticks|, 0);
    RoundKeepsNews(w.c, Initial(w.c, w.offers), w.started, w.first, p);
  }

  lemma NextIsAwaited(w: Course, k: nat, p: PeerId, data: Bytes, size: nat)
    requires size > 0 && Aims(w, p, data, size) && k < |w.ticks| && AwaitedAt(w, k, p)
    ensures AwaitedAt(w, k + 1, p)
  {
    ExitStays(w, k);
    if At(w, k).exit.None? {
      TurnExpects(w, k, p, data, size);
      FairTurnGoesOn(PassAt(w, k), LastHeard(w, k), p, data, size);
    }
  }

  lemma {:induction false} AwaitedOn(w: Course, k: nat, p: PeerId)
    requires k <= |w.ticks| && AwaitedAt(w, 0, p)
    requires forall j :: 0 <= j < |w.ticks| && AwaitedAt(w, j, p) ==> AwaitedAt(w, j + 1, p)
    ensures AwaitedAt(w, k, p)
  {
    if k > 0 {
      AwaitedOn(w, k - 1, p);
    }
  }

  lemma StaysAwaited(w: Course, k: nat, p: PeerId, data: Bytes, size: nat)
    requires size > 0 && Aims(w, p, data, size) && k <= |w.ticks|
    ensures AwaitedAt(w, k, p)
  {
    FirstIsAwaited(w, p, data, size);
    forall j | 0 <= j < |w.ticks| && AwaitedAt(w, j, p)
      ensures AwaitedAt(w, j + 1, p)
    {
      NextIsAwaited(w, j, p, data, size);
    }
    AwaitedOn(w, k, p);
  }

  lemma NoTurnGivesUp(w: Course, k: nat, p: PeerId, data: Bytes, size: nat, e: Exit)
    requires size > 0 && Aims(w, p, data, size) && k < |w.ticks| && EndsWith(PassAt(w, k), e)
    ensures e != TimedOut && e != Stalled && e != NoProviders
  {
    StaysAwaited(w, k, p, data, size);
    TurnExpects(w, k, p, data, size);
    FairTurnGoesOn(PassAt(w, k), LastHeard(w, k), p, data, size);
    EndsByTime(PassAt(w, k));
  }

  // Alone in offering blocks, an honest peer on time brings the loop to its end,
  // whatever the others send and whenever.
  lemma SoleOffererSuffices(w: Course, p: PeerId, data: Bytes, size: nat)
    requires HashesOf(w.c.h, w.c.info, data, size) && w.c.maxInFlight >= 1
    requires OffersAll(w.offers, p, w.c.info.blockCount) && OthersOfferNothing(w.offers, p, w.c.info.blockCount)
    requires FairTo(w, p, data, size)
    ensures ExitOf(w) == AllReceived
  {
    var e := ExitOf(w);
    EndedBy(w, e);
    var k: nat :| k < |w.ticks| && EndsWith(PassAt(w, k), e);
    NoTurnGivesUp(w, k, p, data, size, e);
    LongEnoughNeverPanics(w);
  }

  // ---- A lone punctual download is such a course ----

  lemma FullAnswerIs(round: State, p: PeerId, data: Bytes, size: nat, batch: seq<nat>, reply: Reply)
    requires size > 0 && p in round.sched.peers && round.sched.peers[p].inFlight == FlyingAt(round.sched, p)
    requires AnswersRequest(round, p, data, size, batch, BlocksFrom(p, reply))
    ensures AnswersAll(round, p, data, size, reply)
  {
    assert StrictlyIncreasing(batch) && Elements(batch) == round.sched.peers[p].inFlight && reply == GenuineBlocks(data, size, batch);
  }

  lemma RestingTurnIsFair(x: Pass, heard: nat, p: PeerId, data: Bytes, size: nat, batch: seq<nat>)
    requires Resting(x.c, x.l.st, p, data, size) && x.l.exit.None? && x.l.stallAt == heard + x.c.timeout
    requires PickedWell(x.c, x.overall, x.l, x.tick, x.picks)
    requires x.tick.atTop < x.overall && x.tick.atStall <= heard + x.c.timeout
    requires AnswersRequest(RoundOf(x), p, data, size, batch, x.tick.notice)
    ensures FairTurn(x, heard, p, data, size)
  {
    RestingHasNoFlights(x.c, x.l.st, p, data, size, x.tick.atRequeue);
    assert FlyingAt(x.l.st.sched, p) == {};
    RoundFlies(x.c, x.l.st, p, data, size, x.tick.atDispatch, x.picks);
    FullAnswerIs(RoundOf(x), p, data, size, batch, x.tick.notice.reply);
  }

  lemma SentIsFair(c: Setup, st: State, started: nat, first: Picks, x: Pass, p: PeerId, data: Bytes, size: nat, batch: seq<nat>)
    requires NoFlights(st.sched) && x.c == c && x.l.st == Next(c, st, Dispatch(started, first)) && RoundOf(x) == x.l.st
    requires size > 0 && p in x.l.st.sched.peers && x.l.st.sched.peers[p].inFlight == FlyingAt(x.l.st.sched, p)
    requires started <= x.tick.atRequeue < started + c.timeout && x.tick.atTop < x.overall
    requires x.l.stallAt == started + c.timeout && x.tick.atStall <= started + c.timeout
    requires AnswersRequest(RoundOf(x), p, data, size, batch, x.tick.notice)
    ensures FairTurn(x, started, p, data, size)
  {
    JustSent(st.sched, first, started, x.tick.atRequeue, c.timeout);
    assert ExpiredBlocks(x.l.st.sched, x.tick.atRequeue, c.timeout) == {};
    FullAnswerIs(x.l.st, p, data, size, batch, x.tick.notice.reply);
  }

  lemma FirstTurnIsFair(w: Course, p: PeerId, data: Bytes, size: nat, batches: seq<seq<nat>>)
    requires IsLone(w, p, data, size, batches) && |w.ticks| > 0 && Entered(w, 0)
    ensures FairTurn(PassAt(w, 0), LastHeard(w, 0), p, data, size)
  {
    var st := Initial(w.c, w.offers);
    StartsResting(w.c, p, data, size);
    assert OnTime(w, 0);
    CourseFits(w, |w.ticks|, 0);
    FitsAt(w, |w.ticks|, 0);
    RestingHasNoFlights(w.c, st, p, data, size, w.started);
    FreshRoundWaits(w.c, st, w.started, w.first, w.ticks[0], PicksAt(w, 0));
    RoundFlies(w.c, st, p, data, size, w.started, w.first);
    SentIsFair(w.c, st, w.started, w.first, PassAt(w, 0), p, data, size, batches[0]);
  }

  lemma LaterTurnIsFair(w: Course, p: PeerId, data: Bytes, size: nat, batches: seq<seq<nat>>, k: nat)
    requires IsLone(w, p, data, size, batches) && 0 < k < |w.ticks| && Entered(w, k) && (k - 1) * w.c.maxInFlight < w.c.info.blockCount
    ensures FairTurn(PassAt(w, k), LastHeard(w, k), p, data, size)
  {
    AfterTurns(w, p, data, size, batches, k);
    FitsAt(w, |w.ticks|, k);
    assert OnTime(w, k);
    RestingTurnIsFair(PassAt(w, k), LastHeard(w, k), p, data, size, batches[k]);
  }

  lemma EnteredHasWork(w: Course, p: PeerId, data: Bytes, size: nat, batches: seq<seq<nat>>, k: nat)
    requires IsLone(w, p, data, size, batches) && |w.ticks| >= CeilDiv(w.c.info.blockCount, w.c.maxInFlight)
    requires 0 < k < |w.ticks| && Entered(w, k)
    ensures (k - 1) * w.c.maxInFlight < w.c.info.blockCount
  {
    ExitAfter(w, p, data, size, batches, k);
    BelowCeil(w.c.info.blockCount, w.c.maxInFlight, k);
  }

  lemma BelowCeil(n: nat, m: nat, k: nat)
    requires m > 0 && 0 < k < CeilDiv(n, m)
    ensures (k - 1) * m < n
  {
    CeilReached(n, m, k - 1);
  }

  // So the courses of a lone honest provider on time, long enough to finish, are
  // among those the theorems here speak of.
  lemma LoneIsFair(w: Course, p: PeerId, data: Bytes, size: nat, batches: seq<seq<nat>>)
    requires IsLone(w, p, data, size, batches) && |w.ticks| >= CeilDiv(w.c.info.blockCount, w.c.maxInFlight)
    ensures FairTo(w, p, data, size)
    ensures OffersAll(w.offers, p, w.c.info.blockCount) && OthersOfferNothing(w.offers, p, w.c.info.blockCount)
  {
    forall k | 0 <= k < |w.ticks| && Entered(w, k)
      ensures FairTurn(PassAt(w, k), LastHeard(w, k), p, data, size)
    {
      if k == 0 {
        FirstTurnIsFair(w, p, data, size, batches);
      } else {
        EnteredHasWork(w, p, data, size, batches, k);
        LaterTurnIsFair(w, p, data, size, batches, k);
      }
    }
    ExitAfter(w, p, data, size, batches, |w.ticks|);
  }
}
