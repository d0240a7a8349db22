// A script, with running clocks and any number of silent seconds in its gaps, in
// which the download loop stalls on a slot that holds an already complete block.
//
// Three blocks, one request a peer. Peer 0 has block 0, peer 1 blocks 0 and 1,
// peer 2 block 2. Block 2 arrives and moves the stall deadline; then both other
// requests expire and block 0 is asked of peer 1; then peer 0's late answer
// completes block 0, which stays counted at peer 1. From there on peer 1, the
// only one with block 1, is full for good, though its request even fails.

module StallScript {
  import opened Common
  import opened Ledger
  import opened Scheduler
  import opened Invariants
  import opened Progress
  import opened DownloadLoop
  import opened LoopResults
  import opened StaleSlots

  const OFFERS: map<PeerId, set<nat>> := map[0 := {0}, 1 := {0, 1}, 2 := {2}]

  ghost predicate ThreeBlocks(c: Setup, d0: Bytes, d1: Bytes, d2: Bytes) {
    && c.maxInFlight == 1 && c.timeout >= 6
    && c.info.blockCount == 3 && c.info.blockHashes == [c.h(d0), c.h(d1), c.h(d2)]
  }

  // ---- The states on the way ----

  function Trio(b0: BlockState, b1: BlockState, b2: BlockState, f0: PeerFetch, f1: PeerFetch, f2: PeerFetch): Sched {
    Sched([b0, b1, b2], map[0 := f0, 1 := f1, 2 := f2])
  }

  function Kept(s0: Option<Bytes>, s2: Option<Bytes>): Receivers {
    map[0 := [s0, None, None], 1 := [None, None, None], 2 := [None, None, s2]]
  }

  function Fresh(): Sched {
    Trio(Pending, Pending, Pending, PeerFetch({0}, {}, 0, 0), PeerFetch({0, 1}, {}, 0, 0), PeerFetch({2}, {}, 0, 0))
  }

  function Asked(): Sched {
    Trio(InFlight(0, 0), InFlight(1, 0), InFlight(2, 0), PeerFetch({0}, {0}, 0, 0), PeerFetch({0, 1}, {1}, 0, 0), PeerFetch({2}, {2}, 0, 0))
  }

  // Block 2 has arrived.
  function Started(n2: nat): Sched {
    Trio(InFlight(0, 0), InFlight(1, 0), Complete, PeerFetch({0}, {0}, 0, 0), PeerFetch({0, 1}, {1}, 0, 0), PeerFetch({2}, {}, 0, n2))
  }

  function Expired(n2: nat): Sched {
    Trio(Pending, Pending, Complete, PeerFetch({0}, {}, 1, 0), PeerFetch({0, 1}, {}, 1, 0), PeerFetch({2}, {}, 0, n2))
  }

  function AskedAgain(n2: nat, now: nat): Sched {
    Trio(InFlight(1, now), Pending, Complete, PeerFetch({0}, {}, 1, 0), PeerFetch({0, 1}, {0}, 1, 0), PeerFetch({2}, {}, 0, n2))
  }

  function Stuck(n0: nat, n2: nat): Sched {
    Trio(Complete, Pending, Complete, PeerFetch({0}, {}, 1, n0), PeerFetch({0, 1}, {0}, 1, 0), PeerFetch({2}, {}, 0, n2))
  }

  lemma AtStart(c: Setup)
    requires c.info.blockCount == 3
    ensures Initial(c, OFFERS) == State(Fresh(), Kept(None, None))
  {
    var st := Initial(c, OFFERS);
    assert st.sched.blocks == Fresh().blocks;
    assert st.sched.peers[0].available == {0} && st.sched.peers[1].available == {0, 1} && st.sched.peers[2].available == {2};
    MapsEqual(st.sched.peers, Fresh().peers);
    var none: Slots := [None, None, None];
    assert seq(3, _ => None) == none;
    MapsEqual(st.receivers, Kept(None, None));
  }

  // ---- Each step ----

  // Handing block i, the next in line, to peer p.
  lemma OneMorePick(s: Sched, m: nat, now: nat, picks: Picks, pick: Option<PeerId>, at: Sched, end: Sched)
    requires |picks| < |s.blocks| && Greedy(s, m, now, picks) && AfterPicks(s, picks, now) == at
    requires ValidPick(at, |picks|, m, pick) && OnePick(at, end, |picks|, pick, now)
    ensures Greedy(s, m, now, picks + [pick]) && AfterPicks(s, picks + [pick], now) == end
  {
    ExtendGreedy(s, m, now, picks, pick);
    assert pick.Some? ==> pick.value in at.peers;
    PicksExtend(s, picks, pick, now);
  }

  lemma NextPick(s: Sched, m: nat, now: nat, picks: Picks, more: Picks, pick: Option<PeerId>, at: Sched, end: Sched)
    requires |picks| < |s.blocks| && PickedTo(s, m, now, picks, at) && more == picks + [pick]
    requires ValidPick(at, |picks|, m, pick) && OnePick(at, end, |picks|, pick, now)
    ensures PickedTo(s, m, now, more, end)
  {
    OneMorePick(s, m, now, picks, pick, at, end);
  }

  lemma NoPicksYet(s: Sched, m: nat, now: nat)
    ensures PickedTo(s, m, now, [], s)
  {
    AfterNoPicks(s, now);
  }

  // A round over three blocks, pick by pick.
  lemma ThreePicks(s: Sched, m: nat, now: nat, x: Option<PeerId>, y: Option<PeerId>, z: Option<PeerId>, a: Sched, b: Sched, end: Sched)
    requires |s.blocks| == |a.blocks| == |b.blocks| == 3
    requires ValidPick(s, 0, m, x) && OnePick(s, a, 0, x, now)
    requires ValidPick(a, 1, m, y) && OnePick(a, b, 1, y, now)
    requires ValidPick(b, 2, m, z) && OnePick(b, end, 2, z, now)
    ensures IsDispatch(s, m, now, [x, y, z]) && AfterPicks(s, [x, y, z], now) == end
  {
    TwoPicks(s, m, now, x, y, a, b);
    NextPick(s, m, now, [x, y], [x, y, z], z, b, end);
  }

  lemma TwoPicks(s: Sched, m: nat, now: nat, x: Option<PeerId>, y: Option<PeerId>, a: Sched, b: Sched)
    requires |s.blocks| == |a.blocks| == 3
    requires ValidPick(s, 0, m, x) && OnePick(s, a, 0, x, now)
    requires ValidPick(a, 1, m, y) && OnePick(a, b, 1, y, now)
    ensures PickedTo(s, m, now, [x, y], b)
  {
    NoPicksYet(s, m, now);
    NextPick(s, m, now, [], [x], x, s, a);
    NextPick(s, m, now, [x], [x, y], y, a, b);
  }

  ghost predicate PickedTo(s: Sched, m: nat, now: nat, picks: Picks, at: Sched) {
    Greedy(s, m, now, picks) && AfterPicks(s, picks, now) == at
  }

  const FIRST: Picks := [Some(0), Some(1), Some(2)]
  const SECOND: Picks := [Some(1), None, None]
  const NOBODY: Picks := [None, None, None]

  lemma FirstRound()
    ensures IsDispatch(Fresh(), 1, 0, FIRST) && AfterPicks(Fresh(), FIRST, 0) == Asked()
  {
    var a := Fresh();
    var b := Trio(InFlight(0, 0), Pending, Pending, PeerFetch({0}, {0}, 0, 0), PeerFetch({0, 1}, {}, 0, 0), PeerFetch({2}, {}, 0, 0));
    var d := Trio(InFlight(0, 0), InFlight(1, 0), Pending, PeerFetch({0}, {0}, 0, 0), PeerFetch({0, 1}, {1}, 0, 0), PeerFetch({2}, {}, 0, 0));
    PickZero();
    PickOne();
    PickTwo();
    ThreePicks(a, 1, 0, Some(0), Some(1), Some(2), b, d, Asked());
  }

  lemma PickZero()
    ensures var b := Trio(InFlight(0, 0), Pending, Pending, PeerFetch({0}, {0}, 0, 0), PeerFetch({0, 1}, {}, 0, 0), PeerFetch({2}, {}, 0, 0));
            ValidPick(Fresh(), 0, 1, Some(0)) && OnePick(Fresh(), b, 0, Some(0), 0)
  {
    GainsFirst(PeerFetch({0}, {}, 0, 0), 0);
  }

  lemma PickOne()
    ensures var b := Trio(InFlight(0, 0), Pending, Pending, PeerFetch({0}, {0}, 0, 0), PeerFetch({0, 1}, {}, 0, 0), PeerFetch({2}, {}, 0, 0));
            var d := Trio(InFlight(0, 0), InFlight(1, 0), Pending, PeerFetch({0}, {0}, 0, 0), PeerFetch({0, 1}, {1}, 0, 0), PeerFetch({2}, {}, 0, 0));
            ValidPick(b, 1, 1, Some(1)) && OnePick(b, d, 1, Some(1), 0)
  {
    GainsFirst(PeerFetch({0, 1}, {}, 0, 0), 1);
  }

  lemma PickTwo()
    ensures var d := Trio(InFlight(0, 0), InFlight(1, 0), Pending, PeerFetch({0}, {0}, 0, 0), PeerFetch({0, 1}, {1}, 0, 0), PeerFetch({2}, {}, 0, 0));
            ValidPick(d, 2, 1, Some(2)) && OnePick(d, Asked(), 2, Some(2), 0)
  {
    GainsFirst(PeerFetch({2}, {}, 0, 0), 2);
  }

  lemma GainsFirst(f: PeerFetch, i: nat)
    requires f.inFlight == {}
    ensures Gaining(f, {i}) == f.(inFlight := {i})
  {
  }

  // A round over three blocks of which none is pending.
  lemma EmptyRound(s: Sched, m: nat, now: nat)
    requires |s.blocks| == 3 && forall i :: 0 <= i < 3 ==> ValidPick(s, i, m, None)
    ensures IsDispatch(s, m, now, NOBODY) && AfterPicks(s, NOBODY, now) == s
  {
    ThreePicks(s, m, now, None, None, None, s, s, s);
  }

  lemma BothExpire(n2: nat, now: nat, timeout: nat)
    requires now >= timeout
    ensures AfterExpiry(Started(n2), ExpiredBlocks(Started(n2), now, timeout)) == Expired(n2)
  {
    var s := Started(n2);
    var gone := ExpiredBlocks(s, now, timeout);
    assert gone == {0, 1};
    assert gone * FlyingAt(s, 0) == {0} && gone * FlyingAt(s, 1) == {1} && gone * FlyingAt(s, 2) == {};
    assert Reset(s.blocks, gone) == Expired(n2).blocks;
    LosesOnly(s.peers[0], 0);
    LosesOnly(s.peers[1], 1);
    LosesNothing(s.peers[2]);
    MapsEqual(AfterExpiry(s, gone).peers, Expired(n2).peers);
  }

  lemma LosesOnly(f: PeerFetch, i: nat)
    requires f.inFlight == {i}
    ensures Losing(f, {i}) == f.(inFlight := {}, failures := f.failures + 1)
  {
  }

  lemma LosesNothing(f: PeerFetch)
    ensures Losing(f, {}) == f
  {
    assert f.inFlight - {} == f.inFlight;
  }

  lemma SecondRound(n2: nat, now: nat)
    ensures IsDispatch(Expired(n2), 1, now, SECOND) && AfterPicks(Expired(n2), SECOND, now) == AskedAgain(n2, now)
  {
    var a, b := Expired(n2), AskedAgain(n2, now);
    PickAgain(n2, now);
    NoneLeft(n2, now);
    ThreePicks(a, 1, now, Some(1), None, None, b, b, b);
  }

  lemma PickAgain(n2: nat, now: nat)
    ensures ValidPick(Expired(n2), 0, 1, Some(1)) && OnePick(Expired(n2), AskedAgain(n2, now), 0, Some(1), now)
  {
    GainsFirst(PeerFetch({0, 1}, {}, 1, 0), 0);
  }

  lemma NoneLeft(n2: nat, now: nat)
    ensures ValidPick(AskedAgain(n2, now), 1, 1, None) && ValidPick(AskedAgain(n2, now), 2, 1, None)
  {
  }

  // One good block for an empty slot, from a peer that was handshaken.
  lemma OneBlockReply(c: Setup, st: State, p: PeerId, i: nat, block: Bytes)
    requires p in st.receivers && p in st.sched.peers && i < |st.receivers[p]| && i < |c.info.blockHashes| && i < |st.sched.blocks|
    requires st.receivers[p][i].None? && c.h(block) == c.info.blockHashes[i]
    ensures !Aborts(c.info, st.receivers, p, [(i, block)]) && AcceptedBy(c, st, Answer(p, [(i, block)])) == 1
    ensures Next(c, st, Answer(p, [(i, block)])).receivers == st.receivers[p := st.receivers[p][i := Some(block)]]
    ensures Next(c, st, Answer(p, [(i, block)])).sched.blocks == st.sched.blocks[i := Complete]
    ensures var f := st.sched.peers[p];
            Next(c, st, Answer(p, [(i, block)])).sched.peers == st.sched.peers[p := f.(bytes := f.bytes + |block|, inFlight := f.inFlight - {i})]
  {
    var reply: Reply := [(i, block)];
    var slots := st.receivers[p];
    assert reply[..0] == [] && reply[|reply| - 1] == (i, block);
    assert Recorded(c.h, c.info.blockHashes, slots, []) == (slots, []);
    assert Recorded(c.h, c.info.blockHashes, slots, reply) == (slots[i := Some(block)], [] + [i]);
    assert [] + [i] == [i];
    assert TotalBytes(reply) == TotalBytes([]) + |block| == |block|;
    assert ReplyIndices(reply) == {i} by {
      assert reply[0].0 == i;
    }
    assert BlocksAfterReply(st.sched.blocks, p, reply, [i]) == st.sched.blocks[i := Complete];
  }

  lemma FirstAnswer(c: Setup, d0: Bytes, d1: Bytes, d2: Bytes)
    requires ThreeBlocks(c, d0, d1, d2)
    ensures !Aborts(c.info, Kept(None, None), 2, [(2, d2)])
    ensures AcceptedBy(c, State(Asked(), Kept(None, None)), Answer(2, [(2, d2)])) == 1
    ensures Next(c, State(Asked(), Kept(None, None)), Answer(2, [(2, d2)])) == State(Started(|d2|), Kept(None, Some(d2)))
  {
    var st := State(Asked(), Kept(None, None));
    OneBlockReply(c, st, 2, 2, d2);
    var end := Next(c, st, Answer(2, [(2, d2)]));
    assert {2} - {2} == {};
    assert end.sched.blocks == Started(|d2|).blocks;
    MapsEqual(end.sched.peers, Started(|d2|).peers);
    var none: Slots := [None, None, None];
    assert none[2 := Some(d2)] == [None, None, Some(d2)];
    MapsEqual(end.receivers, Kept(None, Some(d2)));
  }

  lemma LateAnswer(c: Setup, d0: Bytes, d1: Bytes, d2: Bytes, now: nat)
    requires ThreeBlocks(c, d0, d1, d2)
    ensures !Aborts(c.info, Kept(None, Some(d2)), 0, [(0, d0)])
    ensures AcceptedBy(c, State(AskedAgain(|d2|, now), Kept(None, Some(d2))), Answer(0, [(0, d0)])) == 1
    ensures Next(c, State(AskedAgain(|d2|, now), Kept(None, Some(d2))), Answer(0, [(0, d0)]))
         == State(Stuck(|d0|, |d2|), Kept(Some(d0), Some(d2)))
  {
    var st := State(AskedAgain(|d2|, now), Kept(None, Some(d2)));
    OneBlockReply(c, st, 0, 0, d0);
    var end := Next(c, st, Answer(0, [(0, d0)]));
    assert {} - {0} == {};
    assert end.sched.blocks == Stuck(|d0|, |d2|).blocks;
    MapsEqual(end.sched.peers, Stuck(|d0|, |d2|).peers);
    var none: Slots := [None, None, None];
    assert none[0 := Some(d0)] == [Some(d0), None, None];
    MapsEqual(end.receivers, Kept(Some(d0), Some(d2)));
  }

  // ---- The script ----

  function Beat(first: nat, notice: Notice): Tick {
    Tick(first, first + 1, first + 2, first + 3, notice, first + 4)
  }

  // Clock readings increase from one to the next.
  predicate Increases(tick: Tick) {
    tick.atTop < tick.atRequeue < tick.atDispatch < tick.atStall < tick.atNotice
  }

  predicate Running(ticks: seq<Tick>) {
    && (forall k :: 0 <= k < |ticks| ==> Increases(ticks[k]))
    && forall k :: 0 < k < |ticks| ==> ticks[k - 1].atNotice < ticks[k].atTop
  }

  // Seconds without a notification, all between two instants.
  predicate Silent(ticks: seq<Tick>, after: nat, before: nat) {
    && Running(ticks)
    && forall k :: 0 <= k < |ticks| ==> ticks[k].notice.Quiet? && after < ticks[k].atTop && ticks[k].atNotice < before
  }

  function Script(t: nat, d0: Bytes, d2: Bytes, quiet: seq<Tick>, more: seq<Tick>): seq<Tick> {
    [Beat(1, BlocksFrom(2, [(2, d2)]))] + quiet
    + [Beat(t, BlocksFrom(0, [(0, d0)])), Beat(t + 5, RequestFailed(1))] + more
    + [Beat(2 * t + 5, Quiet)]
  }

  function Nobody(n: nat): seq<Picks> {
    seq(n, _ => NOBODY)
  }

  function StallCourse(c: Setup, overall: nat, d0: Bytes, d2: Bytes, quiet: seq<Tick>, more: seq<Tick>): Course {
    Course(c, OFFERS, 0, overall, FIRST, Script(c.timeout, d0, d2, quiet, more), Nobody(1 + |quiet|) + [SECOND] + Nobody(2 + |more|))
  }

  lemma ScriptRuns(t: nat, d0: Bytes, d2: Bytes, quiet: seq<Tick>, more: seq<Tick>)
    requires t >= 6 && Silent(quiet, 5, t) && Silent(more, t + 9, 2 * t + 5)
    ensures Running(Script(t, d0, d2, quiet, more))
  {
    var a := [Beat(1, BlocksFrom(2, [(2, d2)]))];
    var b := [Beat(t, BlocksFrom(0, [(0, d0)])), Beat(t + 5, RequestFailed(1))];
    RunningJoin(a, quiet);
    RunningJoin(a + quiet, b);
    RunningJoin(a + quiet + b, more);
    RunningJoin(a + quiet + b + more, [Beat(2 * t + 5, Quiet)]);
  }

  lemma RunningJoin(a: seq<Tick>, b: seq<Tick>)
    requires Running(a) && Running(b)
    requires a != [] && b != [] ==> a[|a| - 1].atNotice < b[0].atTop
    ensures Running(a + b)
  {
  }

  // ---- Turns of the script ----

  // The round of a turn leads from one state to another by these picks.
  ghost predicate RoundIs(c: Setup, st: State, tick: Tick, picks: Picks, round: State) {
    IsDispatch(Requeued(c, st, tick).sched, c.maxInFlight, tick.atDispatch, picks) && Dispatched(c, st, tick, picks) == round
  }

  lemma RoundFrom(c: Setup, st: State, tick: Tick, picks: Picks, mid: State, round: State)
    requires Next(c, st, Expire(tick.atRequeue)) == mid && IsDispatch(mid.sched, c.maxInFlight, tick.atDispatch, picks)
    requires State(AfterPicks(mid.sched, picks, tick.atDispatch), mid.receivers) == round
    ensures RoundIs(c, st, tick, picks, round)
  {
  }

  // A round with nothing to requeue and nothing to send.
  lemma QuietRound(c: Setup, st: State, tick: Tick)
    requires |st.sched.blocks| == 3 && forall i :: 0 <= i < 3 ==> !IsExpired(st.sched.blocks[i], tick.atRequeue, c.timeout)
    requires forall i :: 0 <= i < 3 ==> ValidPick(st.sched, i, c.maxInFlight, None)
    ensures RoundIs(c, st, tick, NOBODY, st)
  {
    NothingExpires(st.sched, tick.atRequeue, c.timeout);
    EmptyRound(st.sched, c.maxInFlight, tick.atDispatch);
    RoundFrom(c, st, tick, NOBODY, st, st);
  }

  lemma TurnIs(c: Setup, overall: nat, l: Loop, tick: Tick, picks: Picks, round: State)
    requires l.exit.None? && tick.atTop < overall && RoundIs(c, l.st, tick, picks, round)
    ensures PickedWell(c, overall, l, tick, picks)
    ensures Turn(c, overall, l, tick, picks) == AfterRound(c, round, l.stallAt, tick)
  {
  }

  lemma TurnFrom(c: Setup, overall: nat, l: Loop, tick: Tick, picks: Picks, round: State, n: Loop)
    requires l.exit.None? && tick.atTop < overall && RoundIs(c, l.st, tick, picks, round)
    requires AfterRound(c, round, l.stallAt, tick) == n
    ensures Moves(c, overall, l, tick, picks, n)
  {
    TurnIs(c, overall, l, tick, picks, round);
  }

  // A turn whose round changes nothing and whose notification does neither.
  lemma SteadyTurn(c: Setup, overall: nat, l: Loop, tick: Tick, picks: Picks)
    requires l.exit.None? && tick.atTop < overall && RoundIs(c, l.st, tick, picks, l.st)
    requires tick.atStall <= l.stallAt && !Idle(l.st.sched)
    requires tick.notice.Quiet? || (tick.notice.RequestFailed? && Next(c, l.st, Fail(tick.notice.failed)) == l.st)
    ensures Moves(c, overall, l, tick, picks, l)
  {
    TurnIs(c, overall, l, tick, picks, l.st);
    SteadyRound(c, l, tick);
  }

  lemma SteadyRound(c: Setup, l: Loop, tick: Tick)
    requires l.exit.None? && tick.atStall <= l.stallAt && !Idle(l.st.sched)
    requires tick.notice.Quiet? || (tick.notice.RequestFailed? && Next(c, l.st, Fail(tick.notice.failed)) == l.st)
    ensures AfterRound(c, l.st, l.stallAt, tick) == l
  {
  }

  // Past the round: an answer is recorded which brings a block and leaves one missing.
  lemma AnswerAfterRound(c: Setup, round: State, stallAt: nat, tick: Tick, end: State)
    requires tick.atStall <= stallAt && !Idle(round.sched) && tick.notice.BlocksFrom?
    requires Brings(c, round, tick.notice.peer, tick.notice.reply, end)
    ensures AfterRound(c, round, stallAt, tick) == Loop(end, tick.atNotice + c.timeout, None)
  {
    HeardAnswer(c, round, tick.notice.peer, tick.notice.reply, stallAt, tick.atNotice, end);
  }

  ghost predicate Brings(c: Setup, st: State, p: PeerId, reply: Reply, end: State) {
    && !Aborts(c.info, st.receivers, p, reply) && AcceptedBy(c, st, Answer(p, reply)) == 1
    && Next(c, st, Answer(p, reply)) == end && !LedgerComplete(end.receivers, c.info.blockCount)
  }

  lemma HeardAnswer(c: Setup, st: State, p: PeerId, reply: Reply, stallAt: nat, now: nat, end: State)
    requires Brings(c, st, p, reply, end)
    ensures Heard(c, st, stallAt, BlocksFrom(p, reply), now) == Loop(end, now + c.timeout, None)
  {
  }

  lemma StillMissing(c: Setup, st: State)
    requires c.info.blockCount == 3 && st.receivers.Keys == {0, 1, 2}
    requires forall p :: p in st.receivers ==> |st.receivers[p]| == 3 && st.receivers[p][1].None?
    ensures !LedgerComplete(st.receivers, 3)
  {
    assert !Held(st.receivers, 1);
  }

  ghost function LoopStart(c: Setup): Loop {
    Loop(State(Asked(), Kept(None, None)), c.timeout, None)
  }

  ghost function LoopWaiting(c: Setup, d2: Bytes): Loop {
    Loop(State(Started(|d2|), Kept(None, Some(d2))), 5 + c.timeout, None)
  }

  ghost function LoopStuck(c: Setup, d0: Bytes, d2: Bytes): Loop {
    Loop(State(Stuck(|d0|, |d2|), Kept(Some(d0), Some(d2))), c.timeout + 4 + c.timeout, None)
  }

  lemma TurnOfFirstAnswer(c: Setup, overall: nat, d0: Bytes, d1: Bytes, d2: Bytes)
    requires ThreeBlocks(c, d0, d1, d2) && overall > 1
    ensures Moves(c, overall, LoopStart(c), Beat(1, BlocksFrom(2, [(2, d2)])), NOBODY, LoopWaiting(c, d2))
  {
    var l, tick := LoopStart(c), Beat(1, BlocksFrom(2, [(2, d2)]));
    AskedRound(c, tick);
    AfterAsked(c, d0, d1, d2, tick);
    TurnFrom(c, overall, l, tick, NOBODY, l.st, LoopWaiting(c, d2));
  }

  lemma AfterAsked(c: Setup, d0: Bytes, d1: Bytes, d2: Bytes, tick: Tick)
    requires ThreeBlocks(c, d0, d1, d2) && tick == Beat(1, BlocksFrom(2, [(2, d2)]))
    ensures AfterRound(c, LoopStart(c).st, c.timeout, tick) == LoopWaiting(c, d2)
  {
    BusyIsNotIdle(Asked(), 0);
    FirstBrings(c, d0, d1, d2);
    AnswerAfterRound(c, LoopStart(c).st, c.timeout, tick, LoopWaiting(c, d2).st);
  }

  lemma AskedRound(c: Setup, tick: Tick)
    requires c.maxInFlight == 1 && tick.atRequeue < c.timeout
    ensures RoundIs(c, LoopStart(c).st, tick, NOBODY, LoopStart(c).st)
  {
    QuietRound(c, LoopStart(c).st, tick);
  }

  lemma FirstBrings(c: Setup, d0: Bytes, d1: Bytes, d2: Bytes)
    requires ThreeBlocks(c, d0, d1, d2)
    ensures Brings(c, LoopStart(c).st, 2, [(2, d2)], LoopWaiting(c, d2).st)
  {
    FirstAnswer(c, d0, d1, d2);
    StillMissing(c, LoopWaiting(c, d2).st);
  }

  lemma SilentTurn(c: Setup, overall: nat, d0: Bytes, d1: Bytes, d2: Bytes, tick: Tick)
    requires ThreeBlocks(c, d0, d1, d2) && tick.notice.Quiet?
    requires Increases(tick) && tick.atNotice < c.timeout < overall
    ensures Moves(c, overall, LoopWaiting(c, d2), tick, NOBODY, LoopWaiting(c, d2))
  {
    WaitingRound(c, d2, tick);
    BusyIsNotIdle(Started(|d2|), 0);
    SteadyTurn(c, overall, LoopWaiting(c, d2), tick, NOBODY);
  }

  lemma WaitingRound(c: Setup, d2: Bytes, tick: Tick)
    requires c.maxInFlight == 1 && tick.atRequeue < c.timeout
    ensures RoundIs(c, LoopWaiting(c, d2).st, tick, NOBODY, LoopWaiting(c, d2).st)
  {
    QuietRound(c, LoopWaiting(c, d2).st, tick);
  }

  function AfterLateRound(d2: Bytes, now: nat): State {
    State(AskedAgain(|d2|, now), Kept(None, Some(d2)))
  }

  lemma TurnOfLateAnswer(c: Setup, overall: nat, d0: Bytes, d1: Bytes, d2: Bytes)
    requires ThreeBlocks(c, d0, d1, d2) && overall > c.timeout
    ensures Moves(c, overall, LoopWaiting(c, d2), Beat(c.timeout, BlocksFrom(0, [(0, d0)])), SECOND, LoopStuck(c, d0, d2))
  {
    var l, tick := LoopWaiting(c, d2), Beat(c.timeout, BlocksFrom(0, [(0, d0)]));
    LateRound(c, d2, tick);
    AfterLate(c, d0, d1, d2, tick);
    TurnFrom(c, overall, l, tick, SECOND, AfterLateRound(d2, tick.atDispatch), LoopStuck(c, d0, d2));
  }

  lemma AfterLate(c: Setup, d0: Bytes, d1: Bytes, d2: Bytes, tick: Tick)
    requires ThreeBlocks(c, d0, d1, d2) && tick == Beat(c.timeout, BlocksFrom(0, [(0, d0)]))
    ensures AfterRound(c, AfterLateRound(d2, tick.atDispatch), 5 + c.timeout, tick) == LoopStuck(c, d0, d2)
  {
    BusyIsNotIdle(AskedAgain(|d2|, tick.atDispatch), 1);
    LateBrings(c, d0, d1, d2, tick.atDispatch);
    AnswerAfterRound(c, AfterLateRound(d2, tick.atDispatch), 5 + c.timeout, tick, LoopStuck(c, d0, d2).st);
  }

  lemma LateRound(c: Setup, d2: Bytes, tick: Tick)
    requires c.maxInFlight == 1 && tick.atRequeue >= c.timeout
    ensures RoundIs(c, LoopWaiting(c, d2).st, tick, SECOND, AfterLateRound(d2, tick.atDispatch))
  {
    BothExpire(|d2|, tick.atRequeue, c.timeout);
    SecondRound(|d2|, tick.atDispatch);
    RoundFrom(c, LoopWaiting(c, d2).st, tick, SECOND, State(Expired(|d2|), Kept(None, Some(d2))), AfterLateRound(d2, tick.atDispatch));
  }

  lemma LateBrings(c: Setup, d0: Bytes, d1: Bytes, d2: Bytes, now: nat)
    requires ThreeBlocks(c, d0, d1, d2)
    ensures Brings(c, AfterLateRound(d2, now), 0, [(0, d0)], LoopStuck(c, d0, d2).st)
  {
    LateAnswer(c, d0, d1, d2, now);
    StillMissing(c, LoopStuck(c, d0, d2).st);
  }

  lemma StuckRound(c: Setup, d0: Bytes, d2: Bytes, tick: Tick)
    requires c.maxInFlight == 1
    ensures RoundIs(c, LoopStuck(c, d0, d2).st, tick, NOBODY, LoopStuck(c, d0, d2).st)
    ensures !Idle(Stuck(|d0|, |d2|))
  {
    NoRoom(|d0|, |d2|);
    QuietRound(c, LoopStuck(c, d0, d2).st, tick);
    BusyIsNotIdle(Stuck(|d0|, |d2|), 1);
  }

  lemma NoRoom(n0: nat, n2: nat)
    ensures forall i :: 0 <= i < 3 ==> ValidPick(Stuck(n0, n2), i, 1, None)
  {
    var s := Stuck(n0, n2);
    assert s.blocks[1].Pending? && |s.peers[1].inFlight| == 1;
    assert 1 !in s.peers[0].available && 1 !in s.peers[2].available;
    assert ValidPick(s, 0, 1, None) && ValidPick(s, 1, 1, None) && ValidPick(s, 2, 1, None);
  }

  lemma StuckTurn(c: Setup, overall: nat, d0: Bytes, d1: Bytes, d2: Bytes, tick: Tick)
    requires ThreeBlocks(c, d0, d1, d2) && tick.atTop < overall && tick.atStall <= c.timeout + 4 + c.timeout
    requires tick.notice == Quiet || tick.notice == RequestFailed(1)
    ensures Moves(c, overall, LoopStuck(c, d0, d2), tick, NOBODY, LoopStuck(c, d0, d2))
  {
    StuckRound(c, d0, d2, tick);
    AfterStuck(c, d0, d2, tick);
    TurnFrom(c, overall, LoopStuck(c, d0, d2), tick, NOBODY, LoopStuck(c, d0, d2).st, LoopStuck(c, d0, d2));
  }

  lemma AfterStuck(c: Setup, d0: Bytes, d2: Bytes, tick: Tick)
    requires tick.atStall <= c.timeout + 4 + c.timeout && (tick.notice == Quiet || tick.notice == RequestFailed(1))
    ensures AfterRound(c, LoopStuck(c, d0, d2).st, c.timeout + 4 + c.timeout, tick) == LoopStuck(c, d0, d2)
  {
    BusyIsNotIdle(Stuck(|d0|, |d2|), 1);
    FailureChangesNothing(|d0|, |d2|);
    SteadyRound(c, LoopStuck(c, d0, d2), tick);
  }

  lemma FailureChangesNothing(n0: nat, n2: nat)
    ensures AfterFailure(Stuck(n0, n2), 1) == Stuck(n0, n2)
  {
    assert FlyingAt(Stuck(n0, n2), 1) == {};
    assert Reset(Stuck(n0, n2).blocks, {}) == Stuck(n0, n2).blocks;
  }

  lemma LastTurn(c: Setup, overall: nat, d0: Bytes, d1: Bytes, d2: Bytes, tick: Tick)
    requires ThreeBlocks(c, d0, d1, d2) && tick.atTop < overall && tick.atStall > c.timeout + 4 + c.timeout
    ensures Moves(c, overall, LoopStuck(c, d0, d2), tick, NOBODY, LoopStuck(c, d0, d2).(exit := Some(DownloadLoop.Stalled)))
  {
    StuckRound(c, d0, d2, tick);
    TurnIs(c, overall, LoopStuck(c, d0, d2), tick, NOBODY, LoopStuck(c, d0, d2).st);
  }

  // ---- The course ----

  lemma CourseStarts(c: Setup, overall: nat, d0: Bytes, d1: Bytes, d2: Bytes, quiet: seq<Tick>, more: seq<Tick>)
    requires ThreeBlocks(c, d0, d1, d2)
    ensures Stands(StallCourse(c, overall, d0, d2, quiet, more), 0, LoopStart(c))
  {
    AtStart(c);
    FirstRound();
  }

  // What the turns read, and what they pick.
  lemma ScriptAt(c: Setup, overall: nat, d0: Bytes, d2: Bytes, quiet: seq<Tick>, more: seq<Tick>)
    ensures var w, q, m, t := StallCourse(c, overall, d0, d2, quiet, more), |quiet|, |more|, c.timeout;
            && |w.ticks| == q + m + 4
            && w.ticks[0] == Beat(1, BlocksFrom(2, [(2, d2)]))
            && (forall k :: 1 <= k < 1 + q ==> w.ticks[k] == quiet[k - 1])
            && w.ticks[1 + q] == Beat(t, BlocksFrom(0, [(0, d0)])) && w.ticks[2 + q] == Beat(t + 5, RequestFailed(1))
            && (forall k :: 3 + q <= k < 3 + q + m ==> w.ticks[k] == more[k - 3 - q])
            && w.ticks[3 + q + m] == Beat(2 * t + 5, Quiet)
            && PicksAt(w, 1 + q) == SECOND
            && forall k :: 0 <= k < q + m + 4 && k != 1 + q ==> PicksAt(w, k) == NOBODY
  {
  }

  lemma CourseToStuck(c: Setup, overall: nat, d0: Bytes, d1: Bytes, d2: Bytes, quiet: seq<Tick>, more: seq<Tick>)
    requires ThreeBlocks(c, d0, d1, d2) && overall > 2 * c.timeout + 5 && Silent(quiet, 5, c.timeout)
    ensures Stands(StallCourse(c, overall, d0, d2, quiet, more), |quiet| + 2, LoopStuck(c, d0, d2))
  {
    var w, q := StallCourse(c, overall, d0, d2, quiet, more), |quiet|;
    var l := LoopWaiting(c, d2);
    ScriptAt(c, overall, d0, d2, quiet, more);
    CourseStarts(c, overall, d0, d1, d2, quiet, more);
    TurnOfFirstAnswer(c, overall, d0, d1, d2);
    Advance(w, 0, LoopStart(c), l);
    forall k | 1 <= k < 1 + q
      ensures Moves(c, overall, l, w.ticks[k], PicksAt(w, k), l)
    {
      SilentTurn(c, overall, d0, d1, d2, quiet[k - 1]);
    }
    Stay(w, 1, 1 + q, l);
    TurnOfLateAnswer(c, overall, d0, d1, d2);
    Advance(w, 1 + q, l, LoopStuck(c, d0, d2));
  }

  predicate Harmless(t: nat, overall: nat, tick: Tick) {
    tick.atTop < overall && tick.atStall <= t + 4 + t && (tick.notice == Quiet || tick.notice == RequestFailed(1))
  }

  // Harmless turns from a up to b, then one past the stall deadline.
  predicate RunsDry(w: Course, a: nat, b: nat) {
    && b < |w.ticks|
    && (forall k :: a <= k < b ==> Harmless(w.c.timeout, w.overall, w.ticks[k]) && PicksAt(w, k) == NOBODY)
    && w.ticks[b].atTop < w.overall && w.ticks[b].atStall > w.c.timeout + 4 + w.c.timeout && PicksAt(w, b) == NOBODY
  }

  lemma LateTicks(c: Setup, overall: nat, d0: Bytes, d2: Bytes, quiet: seq<Tick>, more: seq<Tick>)
    requires c.timeout >= 6 && overall > 2 * c.timeout + 5 && Silent(more, c.timeout + 9, 2 * c.timeout + 5)
    ensures RunsDry(StallCourse(c, overall, d0, d2, quiet, more), |quiet| + 2, |quiet| + |more| + 3)
  {
    ScriptAt(c, overall, d0, d2, quiet, more);
    var w, q, m := StallCourse(c, overall, d0, d2, quiet, more), |quiet|, |more|;
    forall k | 2 + q <= k < 3 + q + m
      ensures Harmless(c.timeout, overall, w.ticks[k])
    {
      if k > 2 + q {
        assert Increases(more[k - 3 - q]);
      }
    }
  }

  lemma StaysStuck(w: Course, d0: Bytes, d1: Bytes, d2: Bytes, a: nat, b: nat)
    requires ThreeBlocks(w.c, d0, d1, d2) && a <= b <= |w.ticks|
    requires forall k :: a <= k < b ==> Harmless(w.c.timeout, w.overall, w.ticks[k]) && PicksAt(w, k) == NOBODY
    requires Stands(w, a, LoopStuck(w.c, d0, d2))
    ensures Stands(w, b, LoopStuck(w.c, d0, d2))
  {
    var l := LoopStuck(w.c, d0, d2);
    forall k | a <= k < b
      ensures Moves(w.c, w.overall, l, w.ticks[k], PicksAt(w, k), l)
    {
      StuckTurn(w.c, w.overall, d0, d1, d2, w.ticks[k]);
    }
    Stay(w, a, b, l);
  }

  lemma StuckStalls(w: Course, d0: Bytes, d1: Bytes, d2: Bytes, k: nat)
    requires ThreeBlocks(w.c, d0, d1, d2) && k < |w.ticks| && PicksAt(w, k) == NOBODY
    requires w.ticks[k].atTop < w.overall && w.ticks[k].atStall > w.c.timeout + 4 + w.c.timeout
    requires Stands(w, k, LoopStuck(w.c, d0, d2))
    ensures Stands(w, k + 1, LoopStuck(w.c, d0, d2).(exit := Some(DownloadLoop.Stalled)))
  {
    var l := LoopStuck(w.c, d0, d2);
    LastTurn(w.c, w.overall, d0, d1, d2, w.ticks[k]);
    Advance(w, k, l, l.(exit := Some(DownloadLoop.Stalled)));
  }

  lemma StuckToEnd(w: Course, d0: Bytes, d1: Bytes, d2: Bytes, a: nat, b: nat)
    requires ThreeBlocks(w.c, d0, d1, d2) && a <= b && RunsDry(w, a, b) && Stands(w, a, LoopStuck(w.c, d0, d2))
    ensures Stands(w, b + 1, LoopStuck(w.c, d0, d2).(exit := Some(DownloadLoop.Stalled)))
  {
    StaysStuck(w, d0, d1, d2, a, b);
    StuckStalls(w, d0, d1, d2, b);
  }

  lemma CourseStalls(w: Course, c: Setup, overall: nat, d0: Bytes, d1: Bytes, d2: Bytes, quiet: seq<Tick>, more: seq<Tick>, n: nat)
    requires ThreeBlocks(c, d0, d1, d2) && overall > 2 * c.timeout + 5
    requires Silent(quiet, 5, c.timeout) && Silent(more, c.timeout + 9, 2 * c.timeout + 5)
    requires w == StallCourse(c, overall, d0, d2, quiet, more) && n == |quiet| + |more| + 3
    ensures Stands(w, n + 1, LoopStuck(c, d0, d2).(exit := Some(DownloadLoop.Stalled)))
  {
    LateTicks(c, overall, d0, d2, quiet, more);
    CourseToStuck(c, overall, d0, d1, d2, quiet, more);
    StuckToEnd(w, d0, d1, d2, |quiet| + 2, n);
  }

  // The loop stalls, and the download fails, although peer 1 is connected, has
  // the one missing block, and has nothing to send.
  lemma LoopCanStall(c: Setup, overall: nat, d0: Bytes, d1: Bytes, d2: Bytes, quiet: seq<Tick>, more: seq<Tick>, narHash: string, narSize: nat)
    requires ThreeBlocks(c, d0, d1, d2) && overall > 2 * c.timeout + 5
    requires Silent(quiet, 5, c.timeout) && Silent(more, c.timeout + 9, 2 * c.timeout + 5)
    ensures var w := StallCourse(c, overall, d0, d2, quiet, more);
            && IsCourse(w) && Running(w.ticks) && ExitOf(w) == DownloadLoop.Stalled
            && Frozen(c, End(w)) && MissingAt(End(w).sched, 1, 1)
            && Outcome(c, narHash, narSize, End(w), Err(Incomplete))
  {
    var w := StallCourse(c, overall, d0, d2, quiet, more);
    ScriptAt(c, overall, d0, d2, quiet, more);
    ScriptRuns(c.timeout, d0, d2, quiet, more);
    CourseStalls(w, c, overall, d0, d1, d2, quiet, more, |quiet| + |more| + 3);
    CourseKeeps(w, |w.ticks|);
    StillMissing(c, LoopStuck(c, d0, d2).st);
    StuckIsFrozen(c, d0, d1, d2);
  }

  lemma StuckIsFrozen(c: Setup, d0: Bytes, d1: Bytes, d2: Bytes)
    requires ThreeBlocks(c, d0, d1, d2) && Inv(c, LoopStuck(c, d0, d2).st)
    ensures Frozen(c, LoopStuck(c, d0, d2).st)
  {
    var s := Stuck(|d0|, |d2|);
    NoRoom(|d0|, |d2|);
    assert s.peers[1].inFlight == {0} && |s.peers[1].inFlight| == 1;
    assert s.blocks[1].Pending?;
  }
}
