// What the download loop's runs have in common: every course is a run of the
// state machine, each way out has its exact cause, and what comes out is decided
// by that cause alone.

module LoopResults {
  import opened Common
  import opened Blocks
  import opened Ledger
  import opened Scheduler
  import opened Invariants
  import opened Progress
  import opened DownloadLoop

  // ---- A course is a run ----

  ghost function StepsHeard(c: Setup, st: State, notice: Notice): seq<Step> {
    match notice
    case BlocksFrom(p, reply) => if Aborts(c.info, st.receivers, p, reply) then [] else [Answer(p, reply)]
    case RequestFailed(p) => [Fail(p)]
    case _ => []
  }

  ghost function StepsAfterRound(c: Setup, st: State, stallAt: nat, tick: Tick): seq<Step> {
    if tick.atStall > stallAt || Idle(st.sched) then [] else StepsHeard(c, st, tick.notice)
  }

  // The steps of one turn: requeue, dispatch, and what its notification did.
  ghost function StepsOf(c: Setup, overall: nat, l: Loop, tick: Tick, picks: Picks): seq<Step> {
    if l.exit.Some? || tick.atTop >= overall then []
    else [Expire(tick.atRequeue), Dispatch(tick.atDispatch, picks)] + StepsAfterRound(c, Dispatched(c, l.st, tick, picks), l.stallAt, tick)
  }

  ghost function RunOf(w: Course, k: nat): seq<Step>
    requires k <= |w.ticks|
  {
    if k == 0 then [Dispatch(w.started, w.first)]
    else RunOf(w, k - 1) + StepsOf(w.c, w.overall, At(w, k - 1), w.ticks[k - 1], PicksAt(w, k - 1))
  }

  ghost predicate Reaches(c: Setup, st: State, steps: seq<Step>, end: State) {
    Legal(c, st, steps) && After(c, st, steps) == end
  }

  lemma OneStep(c: Setup, st: State, steps: seq<Step>, end: State, step: Step)
    requires Reaches(c, st, steps, end) && Enabled(c, end, step)
    ensures Reaches(c, st, steps + [step], Next(c, end, step))
  {
    ExtendRun(c, st, steps, step);
  }

  lemma TurnIsRun(c: Setup, overall: nat, st: State, steps: seq<Step>, l: Loop, tick: Tick, picks: Picks)
    requires Reaches(c, st, steps, l.st) && PickedWell(c, overall, l, tick, picks)
    ensures Reaches(c, st, steps + StepsOf(c, overall, l, tick, picks), Turn(c, overall, l, tick, picks).st)
  {
    if l.exit.Some? || tick.atTop >= overall {
      assert steps + [] == steps;
    } else {
      var expired, dispatched := Expire(tick.atRequeue), Dispatch(tick.atDispatch, picks);
      OneStep(c, st, steps, l.st, expired);
      OneStep(c, st, steps + [expired], Requeued(c, l.st, tick), dispatched);
      var round := Dispatched(c, l.st, tick, picks);
      var heard := StepsAfterRound(c, round, l.stallAt, tick);
      HeardIsRun(c, st, steps + [expired] + [dispatched], round, l.stallAt, tick);
      assert steps + ([expired, dispatched] + heard) == steps + [expired] + [dispatched] + heard;
    }
  }

  lemma HeardIsRun(c: Setup, st: State, steps: seq<Step>, round: State, stallAt: nat, tick: Tick)
    requires Reaches(c, st, steps, round)
    ensures Reaches(c, st, steps + StepsAfterRound(c, round, stallAt, tick), AfterRound(c, round, stallAt, tick).st)
  {
    var heard := StepsAfterRound(c, round, stallAt, tick);
    if heard == [] {
      assert steps + heard == steps;
    } else {
      OneStep(c, st, steps, round, heard[0]);
      assert heard == [heard[0]];
    }
  }

  lemma {:induction false} CourseIsRun(w: Course, k: nat)
    requires k <= |w.ticks| && PicksFit(w, k)
    ensures RunReaches(w, k)
  {
    if k == 0 {
      StartIsRun(w);
    } else {
      CourseIsRun(w, k - 1);
      NextTurnIsRun(w, k - 1);
    }
  }

  ghost predicate RunReaches(w: Course, k: nat)
    requires k <= |w.ticks|
  {
    Reaches(w.c, Initial(w.c, w.offers), RunOf(w, k), At(w, k).st)
  }

  lemma NextTurnIsRun(w: Course, k: nat)
    requires k < |w.ticks| && PicksFit(w, k + 1) && RunReaches(w, k)
    ensures RunReaches(w, k + 1)
  {
    TurnIsRun(w.c, w.overall, Initial(w.c, w.offers), RunOf(w, k), At(w, k), w.ticks[k], PicksAt(w, k));
  }

  lemma StartIsRun(w: Course)
    requires PicksFit(w, 0)
    ensures RunReaches(w, 0)
  {
    assert [] + [Dispatch(w.started, w.first)] == [Dispatch(w.started, w.first)];
    OneStep(w.c, Initial(w.c, w.offers), [], Initial(w.c, w.offers), Dispatch(w.started, w.first));
  }

  // So every invariant of the state machine holds of the loop.
  lemma CourseKeeps(w: Course, k: nat)
    requires IsCourse(w) && k <= |w.ticks|
    ensures Inv(w.c, At(w, k).st) && At(w, k).st.receivers.Keys == w.offers.Keys
  {
    CourseFits(w, |w.ticks|, k);
    CourseIsRun(w, k);
    RunFromStart(w.c, w.offers, RunOf(w, k), At(w, k).st);
  }

  ghost predicate SameOffers(a: Sched, b: Sched) {
    a.peers.Keys == b.peers.Keys && forall p :: p in a.peers ==> a.peers[p].available == b.peers[p].available
  }

  lemma {:induction false} OffersStay(c: Setup, st: State, steps: seq<Step>)
    ensures SameOffers(st.sched, After(c, st, steps).sched)
  {
    if steps != [] {
      OffersStay(c, st, steps[..|steps| - 1]);
    }
  }

  lemma CourseOffers(w: Course, k: nat)
    requires IsCourse(w) && k <= |w.ticks|
    ensures SameOffers(Initial(w.c, w.offers).sched, At(w, k).st.sched)
  {
    CourseFits(w, |w.ticks|, k);
    CourseIsRun(w, k);
    OffersStay(w.c, Initial(w.c, w.offers), RunOf(w, k));
  }

  lemma {:induction false} CourseFits(w: Course, n: nat, k: nat)
    requires k <= n <= |w.ticks| && PicksFit(w, n)
    ensures PicksFit(w, k)
  {
    if k < n {
      CourseFits(w, n - 1, k);
    }
  }

  lemma RunFromStart(c: Setup, offers: map<PeerId, set<nat>>, steps: seq<Step>, end: State)
    requires Reaches(c, Initial(c, offers), steps, end)
    ensures Inv(c, end) && end.receivers.Keys == offers.Keys
  {
    InitialInv(c, offers);
    RunKeeps(c, Initial(c, offers), steps);
    RunFillsAccepted(c, Initial(c, offers), steps);
  }

  // ---- How a turn can end the loop ----

  // One turn: where it starts, what it reads, and what its round picks.
  datatype Pass = Pass(c: Setup, overall: nat, l: Loop, tick: Tick, picks: Picks)

  ghost function PassAt(w: Course, k: nat): Pass
    requires k < |w.ticks|
  {
    Pass(w.c, w.overall, At(w, k), w.ticks[k], PicksAt(w, k))
  }

  ghost function PassEnd(x: Pass): Loop {
    Turn(x.c, x.overall, x.l, x.tick, x.picks)
  }

  // The state its dispatch round leaves.
  ghost function RoundOf(x: Pass): State {
    Dispatched(x.c, x.l.st, x.tick, x.picks)
  }

  ghost predicate TimesOut(x: Pass) {
    x.l.exit.None? && x.tick.atTop >= x.overall
  }

  ghost predicate InTime(x: Pass) {
    x.l.exit.None? && x.tick.atTop < x.overall
  }

  ghost predicate Stalls(x: Pass) {
    InTime(x) && x.tick.atStall > x.l.stallAt
  }

  ghost predicate GivesUp(x: Pass) {
    InTime(x) && x.tick.atStall <= x.l.stallAt && Idle(RoundOf(x).sched)
  }

  // The turn gets to its notification.
  ghost predicate Listens(x: Pass) {
    InTime(x) && x.tick.atStall <= x.l.stallAt && !Idle(RoundOf(x).sched)
  }

  ghost predicate HearsBlocks(x: Pass) {
    Listens(x) && x.tick.notice.BlocksFrom?
  }

  // The reply names an announced block that has no hash.
  predicate NamesUnhashed(info: BlockInfo, reply: Reply) {
    exists j :: 0 <= j < |reply| && |info.blockHashes| <= reply[j].0 < info.blockCount
  }

  ghost predicate Panics(x: Pass, offers: map<PeerId, set<nat>>) {
    HearsBlocks(x) && x.tick.notice.peer in offers && NamesUnhashed(x.c.info, x.tick.notice.reply)
  }

  ghost predicate Records(x: Pass) {
    HearsBlocks(x) && !Aborts(x.c.info, RoundOf(x).receivers, x.tick.notice.peer, x.tick.notice.reply)
  }

  ghost predicate Accepts(x: Pass) {
    Records(x) && AcceptedBy(x.c, RoundOf(x), Answer(x.tick.notice.peer, x.tick.notice.reply)) > 0
  }

  ghost predicate Completes(x: Pass) {
    Records(x) && LedgerComplete(Next(x.c, RoundOf(x), Answer(x.tick.notice.peer, x.tick.notice.reply)).receivers, x.c.info.blockCount)
  }

  ghost predicate HearsError(x: Pass) {
    Listens(x) && x.tick.notice.RecvError?
  }

  ghost predicate EndsWith(x: Pass, e: Exit) {
    x.l.exit.None? && PassEnd(x).exit == Some(e)
  }

  lemma EndsByTime(x: Pass)
    ensures EndsWith(x, TimedOut) <==> TimesOut(x)
    ensures EndsWith(x, Stalled) <==> Stalls(x)
    ensures EndsWith(x, NoProviders) <==> GivesUp(x)
  {
  }

  lemma EndsByNotice(x: Pass)
    ensures EndsWith(x, AllReceived) <==> Completes(x)
    ensures EndsWith(x, Panicked) <==> HearsBlocks(x) && !Records(x)
    ensures EndsWith(x, ReceiveFailed) <==> HearsError(x)
  {
  }

  lemma PanicsWhen(x: Pass, offers: map<PeerId, set<nat>>)
    requires Inv(x.c, x.l.st) && x.l.st.receivers.Keys == offers.Keys && HearsBlocks(x)
    ensures !Records(x) <==> Panics(x, offers)
  {
    var p, reply := x.tick.notice.peer, x.tick.notice.reply;
    assert RoundOf(x).receivers == x.l.st.receivers;
    UnhashedOverruns(x.c, x.l.st, p, reply);
  }

  lemma UnhashedOverruns(c: Setup, st: State, p: PeerId, reply: Reply)
    requires Inv(c, st)
    ensures Aborts(c.info, st.receivers, p, reply) <==> p in st.receivers && NamesUnhashed(c.info, reply)
  {
    if p in st.receivers {
      assert |st.receivers[p]| == c.info.blockCount;
    }
  }

  // A sequence of exits that starts open and keeps its first reason.
  ghost predicate KeepsExit(exits: seq<Option<Exit>>) {
    exits != [] && exits[0].None? && forall k :: 0 <= k < |exits| - 1 && exits[k].Some? ==> exits[k + 1] == exits[k]
  }

  predicate Breaks(exits: seq<Option<Exit>>, k: nat, e: Exit) {
    k + 1 < |exits| && exits[k].None? && exits[k + 1] == Some(e)
  }

  lemma {:induction false} FirstBreak(exits: seq<Option<Exit>>, e: Exit)
    requires KeepsExit(exits)
    ensures exits[|exits| - 1] == Some(e) <==> exists k :: Breaks(exits, k, e)
  {
    var n := |exits| - 1;
    if n > 0 {
      var front := exits[..n];
      FirstBreak(front, e);
      assert front[|front| - 1] == exits[n - 1];
      assert Breaks(exits, n - 1, e) <==> exits[n - 1].None? && exits[n] == Some(e);
      forall k: nat
        ensures Breaks(exits, k, e) <==> Breaks(front, k, e) || (k == n - 1 && exits[n - 1].None? && exits[n] == Some(e))
      {
      }
    }
  }

  ghost function Exits(w: Course): (r: seq<Option<Exit>>)
    ensures |r| == |w.ticks| + 1 && forall k :: 0 <= k < |r| ==> r[k] == At(w, k).exit
  {
    seq(|w.ticks| + 1, k requires 0 <= k <= |w.ticks| => At(w, k).exit)
  }

  lemma ExitStays(w: Course, k: nat)
    requires k < |w.ticks|
    ensures At(w, k + 1) == PassEnd(PassAt(w, k))
    ensures At(w, k).exit.Some? ==> At(w, k + 1).exit == At(w, k).exit
  {
  }

  lemma EndedBy(w: Course, e: Exit)
    ensures At(w, |w.ticks|).exit == Some(e) <==> exists k :: 0 <= k < |w.ticks| && EndsWith(PassAt(w, k), e)
  {
    var exits := Exits(w);
    forall k | 0 <= k < |w.ticks|
      ensures exits[k].Some? ==> exits[k + 1] == exits[k]
      ensures Breaks(exits, k, e) <==> EndsWith(PassAt(w, k), e)
    {
      ExitStays(w, k);
    }
    FirstBreak(exits, e);
  }

  // Each exit happens exactly when some turn that was reached meets its cause.
  lemma ExitReasons(w: Course)
    requires IsCourse(w)
    ensures ExitOf(w) == TimedOut <==> exists k :: 0 <= k < |w.ticks| && TimesOut(PassAt(w, k))
    ensures ExitOf(w) == Stalled <==> exists k :: 0 <= k < |w.ticks| && Stalls(PassAt(w, k))
    ensures ExitOf(w) == NoProviders <==> exists k :: 0 <= k < |w.ticks| && GivesUp(PassAt(w, k))
    ensures ExitOf(w) == AllReceived <==> exists k :: 0 <= k < |w.ticks| && Completes(PassAt(w, k))
    ensures ExitOf(w) == Panicked <==> exists k :: 0 <= k < |w.ticks| && Panics(PassAt(w, k), w.offers)
    ensures ExitOf(w) == ReceiveFailed <==>
            At(w, |w.ticks|).exit.None? || exists k :: 0 <= k < |w.ticks| && HearsError(PassAt(w, k))
  {
    EndedByTime(w);
    EndedByNotice(w);
    EndedByPanic(w);
  }

  lemma EndedByTime(w: Course)
    ensures ExitOf(w) == TimedOut <==> exists k :: 0 <= k < |w.ticks| && TimesOut(PassAt(w, k))
    ensures ExitOf(w) == Stalled <==> exists k :: 0 <= k < |w.ticks| && Stalls(PassAt(w, k))
    ensures ExitOf(w) == NoProviders <==> exists k :: 0 <= k < |w.ticks| && GivesUp(PassAt(w, k))
  {
    EndedBy(w, TimedOut);
    EndedBy(w, Stalled);
    EndedBy(w, NoProviders);
    forall k | 0 <= k < |w.ticks|
      ensures EndsWith(PassAt(w, k), TimedOut) <==> TimesOut(PassAt(w, k))
      ensures EndsWith(PassAt(w, k), Stalled) <==> Stalls(PassAt(w, k))
      ensures EndsWith(PassAt(w, k), NoProviders) <==> GivesUp(PassAt(w, k))
    {
      EndsByTime(PassAt(w, k));
    }
  }

  lemma EndedByNotice(w: Course)
    ensures ExitOf(w) == AllReceived <==> exists k :: 0 <= k < |w.ticks| && Completes(PassAt(w, k))
    ensures ExitOf(w) == ReceiveFailed <==>
            At(w, |w.ticks|).exit.None? || exists k :: 0 <= k < |w.ticks| && HearsError(PassAt(w, k))
  {
    EndedBy(w, AllReceived);
    EndedBy(w, ReceiveFailed);
    forall k | 0 <= k < |w.ticks|
      ensures EndsWith(PassAt(w, k), AllReceived) <==> Completes(PassAt(w, k))
      ensures EndsWith(PassAt(w, k), ReceiveFailed) <==> HearsError(PassAt(w, k))
    {
      EndsByNotice(PassAt(w, k));
    }
  }

  lemma EndedByPanic(w: Course)
    requires IsCourse(w)
    ensures ExitOf(w) == Panicked <==> exists k :: 0 <= k < |w.ticks| && Panics(PassAt(w, k), w.offers)
  {
    EndedBy(w, Panicked);
    forall k | 0 <= k < |w.ticks|
      ensures EndsWith(PassAt(w, k), Panicked) <==> Panics(PassAt(w, k), w.offers)
    {
      CourseKeeps(w, k);
      EndsByNotice(PassAt(w, k));
      if HearsBlocks(PassAt(w, k)) {
        PanicsWhen(PassAt(w, k), w.offers);
      }
    }
  }

  // ---- The stall deadline ----

  ghost predicate DeadlineCounts(start: nat, timeout: nat, news: seq<Option<nat>>, k: nat, deadline: nat)
    requires k <= |news|
  {
    && ((forall j :: 0 <= j < k ==> news[j].None?) ==> deadline == start + timeout)
    && forall j: nat :: LastNews(news, k, j) ==> deadline == news[j].value + timeout
  }

  predicate LastNews(news: seq<Option<nat>>, k: nat, j: nat)
    requires k <= |news|
  {
    j < k && news[j].Some? && forall i :: j < i < k ==> news[i].None?
  }

  // When turn k brought an accepted block, and at what time.
  ghost function NewsAt(w: Course, k: nat): Option<nat>
    requires k < |w.ticks|
  {
    if Accepts(PassAt(w, k)) then Some(w.ticks[k].atNotice) else None
  }

  ghost function News(w: Course): (r: seq<Option<nat>>)
    ensures |r| == |w.ticks| && forall k :: 0 <= k < |r| ==> r[k] == NewsAt(w, k)
  {
    seq(|w.ticks|, k requires 0 <= k < |w.ticks| => NewsAt(w, k))
  }

  // The deadline counts from the last notification that brought an accepted block,
  // or from the start when there was none.
  lemma StallDeadlineIs(w: Course, k: nat)
    requires k <= |w.ticks|
    ensures DeadlineCounts(w.started, w.c.timeout, News(w), k, At(w, k).stallAt)
  {
    forall j | 0 <= j < |w.ticks|
      ensures MovesAt(w.c.timeout, News(w), Deadlines(w), j)
    {
      DeadlineMoves(w, j);
    }
    DeadlinesCount(w.started, w.c.timeout, News(w), Deadlines(w), k);
  }

  ghost function Deadlines(w: Course): (r: seq<nat>)
    ensures |r| == |w.ticks| + 1 && r[0] == w.started + w.c.timeout
    ensures forall k :: 0 <= k < |r| ==> r[k] == At(w, k).stallAt
  {
    seq(|w.ticks| + 1, k requires 0 <= k <= |w.ticks| => At(w, k).stallAt)
  }

  lemma DeadlineMoves(w: Course, k: nat)
    requires k < |w.ticks|
    ensures At(w, k + 1).stallAt == if NewsAt(w, k).Some? then NewsAt(w, k).value + w.c.timeout else At(w, k).stallAt
  {
    DeadlineTurn(PassAt(w, k));
    ExitStays(w, k);
  }

  lemma {:induction false} DeadlinesCount(start: nat, timeout: nat, news: seq<Option<nat>>, deadlines: seq<nat>, k: nat)
    requires k <= |news| && |deadlines| == |news| + 1 && deadlines[0] == start + timeout
    requires forall j :: 0 <= j < |news| ==> MovesAt(timeout, news, deadlines, j)
    ensures DeadlineCounts(start, timeout, news, k, deadlines[k])
  {
    if k > 0 {
      DeadlinesCount(start, timeout, news, deadlines, k - 1);
      assert MovesAt(timeout, news, deadlines, k - 1);
      CountsOn(start, timeout, news, k - 1, deadlines[k - 1], deadlines[k]);
    }
  }

  predicate MovesAt(timeout: nat, news: seq<Option<nat>>, deadlines: seq<nat>, j: nat)
    requires j < |news| && |deadlines| == |news| + 1
  {
    deadlines[j + 1] == if news[j].Some? then news[j].value + timeout else deadlines[j]
  }

  lemma CountsOn(start: nat, timeout: nat, news: seq<Option<nat>>, k: nat, was: nat, deadline: nat)
    requires k < |news| && DeadlineCounts(start, timeout, news, k, was)
    requires deadline == if news[k].Some? then news[k].value + timeout else was
    ensures DeadlineCounts(start, timeout, news, k + 1, deadline)
  {
    forall j: nat | LastNews(news, k + 1, j)
      ensures deadline == news[j].value + timeout
    {
      if news[k].Some? {
        assert j == k;
      } else {
        assert LastNews(news, k, j);
      }
    }
  }

  lemma DeadlineTurn(x: Pass)
    ensures PassEnd(x).stallAt == if Accepts(x) then x.tick.atNotice + x.c.timeout else x.l.stallAt
  {
  }

  // ---- Single turns ----

  lemma BusyIsNotIdle(s: Sched, p: PeerId)
    requires p in s.peers && s.peers[p].inFlight != {}
    ensures !Idle(s)
  {
  }

  lemma ListeningRound(c: Setup, round: State, stallAt: nat, tick: Tick)
    requires tick.atStall <= stallAt && !Idle(round.sched)
    ensures AfterRound(c, round, stallAt, tick) == Heard(c, round, stallAt, tick.notice, tick.atNotice)
  {
  }

  // A turn in time whose round leaves this state gets to its notification.
  lemma TurnHears(c: Setup, overall: nat, l: Loop, tick: Tick, picks: Picks, round: State)
    requires l.exit.None? && tick.atTop < overall && tick.atStall <= l.stallAt
    requires Dispatched(c, l.st, tick, picks) == round && !Idle(round.sched)
    ensures Turn(c, overall, l, tick, picks) == Heard(c, round, l.stallAt, tick.notice, tick.atNotice)
  {
    ListeningRound(c, round, l.stallAt, tick);
  }

  lemma EnoughHashes(c: Setup, st: State, p: PeerId, reply: Reply)
    requires LedgerValid(c.h, c.info, st.receivers) && c.info.blockCount <= |c.info.blockHashes|
    ensures !Aborts(c.info, st.receivers, p, reply)
  {
  }

  lemma HeardAnswerIs(c: Setup, st: State, p: PeerId, reply: Reply, stallAt: nat, now: nat, end: State)
    requires !Aborts(c.info, st.receivers, p, reply) && AcceptedBy(c, st, Answer(p, reply)) > 0
    requires end == Next(c, st, Answer(p, reply))
    ensures Heard(c, st, stallAt, BlocksFrom(p, reply), now)
         == Loop(end, now + c.timeout, if LedgerComplete(end.receivers, c.info.blockCount) then Some(AllReceived) else None)
  {
  }

  // ---- Courses turn by turn ----

  ghost predicate Moves(c: Setup, overall: nat, l: Loop, tick: Tick, picks: Picks, n: Loop) {
    PickedWell(c, overall, l, tick, picks) && Turn(c, overall, l, tick, picks) == n
  }

  ghost predicate Stands(w: Course, k: nat, l: Loop) {
    k <= |w.ticks| && PicksFit(w, k) && At(w, k) == l
  }

  lemma Advance(w: Course, k: nat, l: Loop, n: Loop)
    requires Stands(w, k, l) && k < |w.ticks| && Moves(w.c, w.overall, l, w.ticks[k], PicksAt(w, k), n)
    ensures Stands(w, k + 1, n)
  {
  }

  lemma {:induction false} Stay(w: Course, a: nat, b: nat, l: Loop)
    requires Stands(w, a, l) && a <= b <= |w.ticks|
    requires forall k :: a <= k < b ==> Moves(w.c, w.overall, l, w.ticks[k], PicksAt(w, k), l)
    ensures Stands(w, b, l)
  {
    if a < b {
      Stay(w, a, b - 1, l);
      Advance(w, b - 1, l, l);
    }
  }

  // ---- What comes out ----

  // Giving up is right: a block is missing, and no peer has any missing block.
  lemma GivingUpLosesNothing(w: Course)
    requires IsCourse(w) && ExitOf(w) == NoProviders && w.c.maxInFlight >= 1
    ensures NowhereToFetch(End(w)) && exists i :: 0 <= i < |End(w).sched.blocks| && !End(w).sched.blocks[i].Complete?
  {
    EndedBy(w, NoProviders);
    var k: nat :| k < |w.ticks| && EndsWith(PassAt(w, k), NoProviders);
    ExitStays(w, k);
    EndedStays(w, k + 1, |w.ticks|);
    CourseKeeps(w, k);
    FitsAt(w, |w.ticks|, k);
    GivingUpPass(PassAt(w, k));
  }

  lemma GivingUpPass(x: Pass)
    requires Inv(x.c, x.l.st) && x.c.maxInFlight >= 1 && EndsWith(x, NoProviders)
    requires PickedWell(x.c, x.overall, x.l, x.tick, x.picks)
    ensures var end := PassEnd(x).st;
            NowhereToFetch(end) && exists i :: 0 <= i < |end.sched.blocks| && !end.sched.blocks[i].Complete?
  {
    var mid := Requeued(x.c, x.l.st, x.tick);
    EndsByTime(x);
    StepKeeps(x.c, x.l.st, Expire(x.tick.atRequeue));
    IdleMeansNowhere(x.c, mid, Dispatch(x.tick.atDispatch, x.picks));
  }

  ghost predicate NowhereToFetch(st: State) {
    forall i, p :: 0 <= i < |st.sched.blocks| && !st.sched.blocks[i].Complete? && p in st.sched.peers ==> i !in st.sched.peers[p].available
  }

  lemma IdleMeansNowhere(c: Setup, st: State, round: Step)
    requires Inv(c, st) && c.maxInFlight >= 1 && round.Dispatch? && Enabled(c, st, round)
    requires NothingCounted(Next(c, st, round).sched)
    ensures NowhereToFetch(Next(c, st, round))
  {
    var end := Next(c, st, round);
    forall i, p | 0 <= i < |end.sched.blocks| && !end.sched.blocks[i].Complete? && p in end.sched.peers
      ensures i !in end.sched.peers[p].available
    {
      GivingUpIsSound(c, st, round.now, round.picks, i, p);
    }
  }

  // A ledger that is complete ends the loop at once, so a download of at least one
  // block has everything exactly when it stops for that reason.
  lemma CompleteIffAllReceived(w: Course)
    requires w.c.info.blockCount > 0
    ensures LedgerComplete(End(w).receivers, w.c.info.blockCount) <==> ExitOf(w) == AllReceived
  {
    CompleteEndsAt(w, |w.ticks|);
  }

  ghost predicate HasEnded(c: Setup, l: Loop) {
    LedgerComplete(l.st.receivers, c.info.blockCount) <==> l.exit == Some(AllReceived)
  }

  lemma {:induction false} CompleteEndsAt(w: Course, k: nat)
    requires w.c.info.blockCount > 0 && k <= |w.ticks|
    ensures HasEnded(w.c, At(w, k))
  {
    if k == 0 {
      assert !Held(At(w, 0).st.receivers, 0);
    } else {
      CompleteEndsAt(w, k - 1);
      CompletePass(PassAt(w, k - 1));
      ExitStays(w, k - 1);
    }
  }

  lemma CompletePass(x: Pass)
    requires HasEnded(x.c, x.l)
    ensures HasEnded(x.c, PassEnd(x))
  {
    assert RoundOf(x).receivers == x.l.st.receivers;
  }

  // No payload among the notifications collides with a block of the nar.
  ghost predicate HonestNotices(h: Hasher, ticks: seq<Tick>, data: Bytes, size: nat)
    requires size > 0
  {
    forall k, j :: 0 <= k < |ticks| && ticks[k].notice.BlocksFrom? && 0 <= j < |ticks[k].notice.reply| ==>
      NoCollision(h, data, size, ticks[k].notice.reply[j].1)
  }

  ghost predicate HonestSoFar(w: Course, k: nat, data: Bytes, size: nat)
    requires size > 0 && k <= |w.ticks|
  {
    HonestHashes(w.c, RunOf(w, k), data, size)
  }

  lemma CourseIsHonest(w: Course, k: nat, data: Bytes, size: nat)
    requires size > 0 && k <= |w.ticks| && HonestNotices(w.c.h, w.ticks, data, size)
    ensures HonestHashes(w.c, RunOf(w, k), data, size)
  {
    forall j | 0 <= j < |w.ticks| && HonestSoFar(w, j, data, size)
      ensures HonestSoFar(w, j + 1, data, size)
    {
      HonestTurn(w, j, data, size);
    }
    assert HonestSoFar(w, 0, data, size);
    StaysHonest(w, k, data, size);
  }

  lemma {:induction false} StaysHonest(w: Course, k: nat, data: Bytes, size: nat)
    requires size > 0 && k <= |w.ticks| && HonestSoFar(w, 0, data, size)
    requires forall j :: 0 <= j < |w.ticks| && HonestSoFar(w, j, data, size) ==> HonestSoFar(w, j + 1, data, size)
    ensures HonestSoFar(w, k, data, size)
  {
    if k > 0 {
      StaysHonest(w, k - 1, data, size);
    }
  }

  lemma HonestTurn(w: Course, k: nat, data: Bytes, size: nat)
    requires size > 0 && k < |w.ticks| && HonestNotices(w.c.h, w.ticks, data, size) && HonestSoFar(w, k, data, size)
    ensures HonestSoFar(w, k + 1, data, size)
  {
    HonestSteps(w.c, w.overall, At(w, k), w.ticks[k], PicksAt(w, k), data, size);
    HonestJoin(w.c, RunOf(w, k), StepsOf(w.c, w.overall, At(w, k), w.ticks[k], PicksAt(w, k)), data, size);
  }

  lemma HonestSteps(c: Setup, overall: nat, l: Loop, tick: Tick, picks: Picks, data: Bytes, size: nat)
    requires size > 0 && HonestNotices(c.h, [tick], data, size)
    ensures HonestHashes(c, StepsOf(c, overall, l, tick, picks), data, size)
  {
    assert [tick][0] == tick;
  }

  lemma HonestJoin(c: Setup, a: seq<Step>, b: seq<Step>, data: Bytes, size: nat)
    requires size > 0 && HonestHashes(c, a, data, size) && HonestHashes(c, b, data, size)
    ensures HonestHashes(c, a + b, data, size)
  {
  }

  // For an honest nar the outcome is decided by the exit alone: the nar itself
  // when everything was received, Incomplete otherwise, and never a panic.
  lemma HonestOutcome(w: Course, data: Bytes, size: nat, narHash: string, narSize: nat, r: Result<(Bytes, string), DownloadError>)
    requires IsCourse(w) && HashesOf(w.c.h, w.c.info, data, size) && HonestNotices(w.c.h, w.ticks, data, size)
    requires NarHashMatches(w.c.h, narHash, data) && (narSize == 0 || narSize == |data|)
    requires Outcome(w.c, narHash, narSize, End(w), r)
    ensures ExitOf(w) != Panicked
    ensures r == if ExitOf(w) == AllReceived then Ok((data, "sha256:" + Hex(w.c.h(data)))) else Err(Incomplete)
  {
    ExitReasons(w);
    assert forall k :: 0 <= k < |w.ticks| ==> !Panics(PassAt(w, k), w.offers);
    ChunksCount(data, size);
    assert w.c.info.blockCount > 0;
    CompleteIffAllReceived(w);
    if ExitOf(w) == AllReceived {
      HonestParts(w, data, size, narHash, narSize, r);
    }
  }

  lemma HonestParts(w: Course, data: Bytes, size: nat, narHash: string, narSize: nat, r: Result<(Bytes, string), DownloadError>)
    requires IsCourse(w) && HashesOf(w.c.h, w.c.info, data, size) && HonestNotices(w.c.h, w.ticks, data, size)
    requires NarHashMatches(w.c.h, narHash, data) && (narSize == 0 || narSize == |data|)
    requires Outcome(w.c, narHash, narSize, End(w), r) && LedgerComplete(End(w).receivers, w.c.info.blockCount)
    ensures r == Ok((data, "sha256:" + Hex(w.c.h(data))))
  {
    var n := |w.ticks|;
    CourseIsRun(w, n);
    CourseIsHonest(w, n, data, size);
    var parts :| IsChoice(End(w).receivers, w.c.info.blockCount, parts) && OutcomeOf(w.c, narHash, narSize, parts, r);
    EveryRunReassembles(w.c, w.offers, RunOf(w, n), data, size, narHash, narSize, parts);
  }
}
