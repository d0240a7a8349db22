// The course in which a peer q that offers some block keeps an honest peer, always
// on time, from completing the download. q sends every other block of its own
// accord and answers its one block wrongly; a wrong answer costs it nothing, so the
// block can go back to q each time, until the stall deadline.

module StarvingCourse {
  import opened Common
  import opened Blocks
  import opened Ledger
  import opened Scheduler
  import opened Invariants
  import opened DispatchQuality
  import opened Progress
  import opened DownloadLoop
  import opened LoopResults
  import opened LoneDownload
  import opened StaleSlots
  import opened Serving
  import opened DeadEnds
  import opened Starvation

  // ---- One block left, and q is asked for it ----

  // Everything but block i is complete; q offers it and has no failures.
  ghost predicate OneLeftAt(c: Setup, st: State, q: PeerId, i: nat) {
    && Inv(c, st) && i < |st.sched.blocks| && q in st.sched.peers
    && st.sched.peers[q].failures == 0 && i in st.sched.peers[q].available
    && forall j :: 0 <= j < |st.sched.blocks| && j != i ==> st.sched.blocks[j].Complete?
  }

  ghost predicate Waiting(c: Setup, st: State, q: PeerId, i: nat) {
    OneLeftAt(c, st, q, i) && st.sched.blocks[i].Pending? && st.sched.peers[q].inFlight == {}
  }

  ghost predicate AskedAt(c: Setup, st: State, q: PeerId, i: nat, at: nat) {
    OneLeftAt(c, st, q, i) && st.sched.blocks[i] == InFlight(q, at) && st.sched.peers[q].inFlight == {i}
  }

  ghost predicate OwesNothing(st: State, p: PeerId) {
    p in st.sched.peers && st.sched.peers[p].inFlight == {}
  }

  // The block goes to q, although others have it.
  lemma AskAgain(c: Setup, st: State, q: PeerId, i: nat, now: nat) returns (picks: Picks)
    requires Waiting(c, st, q, i) && c.maxInFlight >= 1
    ensures IsDispatch(st.sched, c.maxInFlight, now, picks)
    ensures AskedAt(c, Next(c, st, Dispatch(now, picks)), q, i, now)
    ensures forall p :: p in st.sched.peers && p != q ==> Next(c, st, Dispatch(now, picks)).sched.peers[p] == st.sched.peers[p]
  {
    picks := RoundThrough(st.sched, c.maxInFlight, now, i, q);
    OneIsAsked(c, st, q, i, now, picks, Next(c, st, Dispatch(now, picks)));
  }

  lemma OneIsAsked(c: Setup, st: State, q: PeerId, i: nat, now: nat, picks: Picks, end: State)
    requires Waiting(c, st, q, i) && IsDispatch(st.sched, c.maxInFlight, now, picks) && picks[i] == Some(q)
    requires end == Next(c, st, Dispatch(now, picks))
    ensures AskedAt(c, end, q, i, now)
    ensures forall p :: p in st.sched.peers && p != q ==> end.sched.peers[p] == st.sched.peers[p]
  {
    PickedArePending(st.sched, c.maxInFlight, now, picks);
    OnlyOnePicked(st.sched, picks, now, q, i);
    StepKeeps(c, st, Dispatch(now, picks));
    AskedThen(c, st, q, i, now, end);
  }

  lemma AskedThen(c: Setup, st: State, q: PeerId, i: nat, now: nat, end: State)
    requires Waiting(c, st, q, i) && Inv(c, end) && end.sched.blocks == st.sched.blocks[i := InFlight(q, now)]
    requires q in end.sched.peers && end.sched.peers[q] == st.sched.peers[q].(inFlight := {i})
    ensures AskedAt(c, end, q, i, now)
  {
  }

  lemma OnlyOnePicked(s: Sched, picks: Picks, now: nat, q: PeerId, i: nat)
    requires i < |s.blocks| == |picks| && picks[i] == Some(q) && q in s.peers && s.peers[q].inFlight == {}
    requires forall j :: j in Assigned(picks) ==> j == i
    ensures var t := AfterPicks(s, picks, now);
            && t.blocks == s.blocks[i := InFlight(q, now)]
            && t.peers.Keys == s.peers.Keys && t.peers[q] == s.peers[q].(inFlight := {i})
            && forall p :: p in s.peers && p != q ==> t.peers[p] == s.peers[p]
  {
    var t := AfterPicks(s, picks, now);
    forall j | 0 <= j < |picks| && j != i
      ensures picks[j].None?
    {
      assert j !in Assigned(picks);
    }
    assert Given(picks, q) == {i} by {
      assert PickedFor(picks, i, q);
    }
    assert t.blocks == s.blocks[i := InFlight(q, now)];
    assert s.peers[q].inFlight + {i} == {i};
    forall p | p in s.peers && p != q
      ensures t.peers[p] == s.peers[p]
    {
      assert Given(picks, p) == {};
      assert s.peers[p].inFlight + {} == s.peers[p].inFlight;
    }
  }

  // A wrong payload changes no ledger and puts the block back.
  lemma WrongAnswer(c: Setup, st: State, q: PeerId, i: nat, at: nat, bad: Bytes)
    requires AskedAt(c, st, q, i, at) && i < |c.info.blockHashes| && c.h(bad) != c.info.blockHashes[i]
    ensures !Aborts(c.info, st.receivers, q, [(i, bad)]) && AcceptedBy(c, st, Answer(q, [(i, bad)])) == 0
    ensures Waiting(c, Next(c, st, Answer(q, [(i, bad)])), q, i)
    ensures forall p :: p in st.sched.peers && p != q ==> Next(c, st, Answer(q, [(i, bad)])).sched.peers[p] == st.sched.peers[p]
  {
    var reply: Reply := [(i, bad)];
    NothingRecorded(c, st, q, i, bad);
    StepKeeps(c, st, Answer(q, reply));
    assert ReplyIndices(reply) == {i} by {
      assert reply[0].0 == i;
    }
    var t := AfterReply(st.sched, q, reply, []);
    assert t.peers[q].inFlight == {i} - {i} == {};
    assert t.blocks[i].Pending?;
  }

  lemma NothingRecorded(c: Setup, st: State, q: PeerId, i: nat, bad: Bytes)
    requires Inv(c, st) && i < |c.info.blockHashes| && c.h(bad) != c.info.blockHashes[i]
    ensures ReceiversAfter(c.h, c.info, st.receivers, q, [(i, bad)]) == (st.receivers, [])
    ensures !Aborts(c.info, st.receivers, q, [(i, bad)])
  {
    var reply: Reply := [(i, bad)];
    assert reply[..0] == [] && reply[|reply| - 1] == (i, bad);
    if q in st.receivers {
      assert Recorded(c.h, c.info.blockHashes, st.receivers[q], []) == (st.receivers[q], []);
      assert Recorded(c.h, c.info.blockHashes, st.receivers[q], reply) == (st.receivers[q], []);
      assert st.receivers[q := st.receivers[q]] == st.receivers;
    }
  }

  // p answers all it was asked before; the block q was asked for is none of it.
  lemma HonestAnswerLeaves(c: Setup, st: State, p: PeerId, q: PeerId, i: nat, at: nat, data: Bytes, size: nat) returns (reply: Reply)
    requires AskedAt(c, st, q, i, at) && HashesOf(c.h, c.info, data, size) && p in st.sched.peers && p != q
    ensures AnswersAll(st, p, data, size, reply)
    ensures !Aborts(c.info, st.receivers, p, reply)
    ensures AskedAt(c, Next(c, st, Answer(p, reply)), q, i, at) && OwesNothing(Next(c, st, Answer(p, reply)), p)
  {
    reply := FullAnswer(c, st, p, data, size);
    NotAmong(c, st, p, q, i, at);
    FullAnswerLeaves(c, st, p, q, i, at, reply, Next(c, st, Answer(p, reply)));
  }

  lemma FullAnswer(c: Setup, st: State, p: PeerId, data: Bytes, size: nat) returns (reply: Reply)
    requires Inv(c, st) && HashesOf(c.h, c.info, data, size) && p in st.sched.peers
    ensures AnswersAll(st, p, data, size, reply) && ReplyIndices(reply) == st.sched.peers[p].inFlight
    ensures !Aborts(c.info, st.receivers, p, reply)
  {
    var counted, n := st.sched.peers[p].inFlight, c.info.blockCount;
    var batch := Ascending(counted, n);
    AscendingIsAll(counted, n);
    reply := GenuineBlocks(data, size, batch);
    BatchAnswersAll(data, size, batch);
    EnoughHashes(c, st, p, reply);
  }

  lemma FullAnswerLeaves(c: Setup, st: State, p: PeerId, q: PeerId, i: nat, at: nat, reply: Reply, end: State)
    requires AskedAt(c, st, q, i, at) && p in st.sched.peers && p != q && !Aborts(c.info, st.receivers, p, reply)
    requires ReplyIndices(reply) == st.sched.peers[p].inFlight && i !in ReplyIndices(reply)
    requires end == Next(c, st, Answer(p, reply))
    ensures AskedAt(c, end, q, i, at) && OwesNothing(end, p)
  {
    var accepted := ReceiversAfter(c.h, c.info, st.receivers, p, reply).1;
    StepKeeps(c, st, Answer(p, reply));
    AcceptedAreHeld(c, st, p, reply);
    RoundEmptiesPeer(st.sched, p, reply, accepted);
    LeavesOthers(st.sched, p, q, i, reply, accepted);
  }

  lemma NotAmong(c: Setup, st: State, p: PeerId, q: PeerId, i: nat, at: nat)
    requires AskedAt(c, st, q, i, at) && p in st.sched.peers && p != q
    ensures i !in st.sched.peers[p].inFlight
  {
    assert Flying(st.sched, i, q);
  }

  lemma LeavesOthers(s: Sched, p: PeerId, q: PeerId, i: nat, reply: Reply, accepted: seq<nat>)
    requires p in s.peers && q in s.peers && p != q && i < |s.blocks|
    requires i !in ReplyIndices(reply) && forall j :: j in accepted ==> j in ReplyIndices(reply)
    requires forall j :: 0 <= j < |s.blocks| && j != i ==> s.blocks[j].Complete?
    ensures var t := AfterReply(s, p, reply, accepted);
            && t.peers[q] == s.peers[q] && t.blocks[i] == s.blocks[i]
            && forall j :: 0 <= j < |s.blocks| && j != i ==> t.blocks[j].Complete?
  {
  }

  // q's first message: every other block, and a wrong payload for its own.
  function Opening(data: Bytes, size: nat, i: nat, bad: Bytes): Reply
    requires size > 0
  {
    GenuineBlocks(data, size, AllBut(|Chunks(data, size)|, i)) + [(i, bad)]
  }

  function AllBut(n: nat, i: nat): (r: seq<nat>)
    ensures StrictlyIncreasing(r) && forall k :: 0 <= k < |r| ==> r[k] < n && r[k] != i
    ensures forall j :: 0 <= j < n && j != i ==> j in r
  {
    Ascending(Indices(n) - {i}, n)
  }

  lemma OpeningRecords(c: Setup, slots: Slots, data: Bytes, size: nat, i: nat, bad: Bytes)
    requires HashesOf(c.h, c.info, data, size) && |slots| == c.info.blockCount && i < c.info.blockCount
    requires (forall j :: 0 <= j < |slots| ==> slots[j].None?) && c.h(bad) != c.info.blockHashes[i]
    ensures Recorded(c.h, c.info.blockHashes, slots, Opening(data, size, i, bad)).1 == AllBut(c.info.blockCount, i)
  {
    var most := GenuineBlocks(data, size, AllBut(c.info.blockCount, i));
    HonestReplyIsAccepted(c, slots, data, size, AllBut(c.info.blockCount, i));
    var reply := Opening(data, size, i, bad);
    assert reply[..|reply| - 1] == most && reply[|reply| - 1] == (i, bad);
  }

  lemma OpeningNamesAll(data: Bytes, size: nat, i: nat, bad: Bytes)
    requires size > 0 && i < |Chunks(data, size)|
    ensures ReplyIndices(Opening(data, size, i, bad)) == Indices(|Chunks(data, size)|)
  {
    var n := |Chunks(data, size)|;
    BatchAnswersAll(data, size, AllBut(n, i));
    NamedAtEnd(GenuineBlocks(data, size, AllBut(n, i)), i, bad);
    assert Elements(AllBut(n, i)) + {i} == Indices(n);
  }

  lemma NamedAtEnd(reply: Reply, i: nat, payload: Bytes)
    ensures ReplyIndices(reply + [(i, payload)]) == ReplyIndices(reply) + {i}
  {
    var all := reply + [(i, payload)];
    assert all[|reply|].0 == i;
    forall j | j in ReplyIndices(reply)
      ensures j in ReplyIndices(all)
    {
      var k :| 0 <= k < |reply| && reply[k].0 == j;
      assert all[k].0 == j;
    }
  }

  // Before it: block i flies at q, nothing has been received, nobody has failed.
  ghost predicate JustAsked(c: Setup, st: State, q: PeerId, i: nat) {
    && Inv(c, st) && i < |st.sched.blocks| && q in st.sched.peers && q in st.receivers
    && st.sched.peers[q].failures == 0 && i in st.sched.peers[q].available && Flying(st.sched, i, q)
    && forall j :: 0 <= j < |st.receivers[q]| ==> st.receivers[q][j].None?
  }

  lemma OpeningLeavesOne(c: Setup, st: State, q: PeerId, i: nat, data: Bytes, size: nat, bad: Bytes)
    requires JustAsked(c, st, q, i) && HashesOf(c.h, c.info, data, size) && c.h(bad) != c.info.blockHashes[i]
    ensures !Aborts(c.info, st.receivers, q, Opening(data, size, i, bad))
    ensures Waiting(c, Next(c, st, Answer(q, Opening(data, size, i, bad))), q, i)
  {
    var reply := Opening(data, size, i, bad);
    EnoughHashes(c, st, q, reply);
    StepKeeps(c, st, Answer(q, reply));
    OpeningRecords(c, st.receivers[q], data, size, i, bad);
    OpeningNamesAll(data, size, i, bad);
    OpeningSched(st.sched, q, i, reply, AllBut(c.info.blockCount, i));
  }

  lemma OpeningSched(s: Sched, q: PeerId, i: nat, reply: Reply, accepted: seq<nat>)
    requires q in s.peers && i < |s.blocks| && Flying(s, i, q) && ReplyIndices(reply) == Indices(|s.blocks|)
    requires accepted == AllBut(|s.blocks|, i) && s.peers[q].inFlight <= Indices(|s.blocks|)
    ensures var t := AfterReply(s, q, reply, accepted);
            && t.blocks[i].Pending? && (forall j :: 0 <= j < |s.blocks| && j != i ==> t.blocks[j].Complete?)
            && t.peers[q].inFlight == {} && t.peers[q].failures == s.peers[q].failures && t.peers[q].available == s.peers[q].available
  {
    assert i !in accepted;
  }

  // ---- Its turns ----

  ghost predicate FairMove(c: Setup, overall: nat, l: Loop, heard: nat, tick: Tick, picks: Picks, n: Loop, p: PeerId, data: Bytes, size: nat)
    requires size > 0
  {
    Moves(c, overall, l, tick, picks, n) && FairTurn(Pass(c, overall, l, tick, picks), heard, p, data, size)
  }

  lemma OneLeftIncomplete(c: Setup, st: State, q: PeerId, i: nat)
    requires OneLeftAt(c, st, q, i) && !st.sched.blocks[i].Complete?
    ensures !LedgerComplete(st.receivers, c.info.blockCount)
  {
    CompleteTogether(c, st);
  }

  // An answer that completes nothing and leaves the stall deadline where it is.
  lemma HeardKeeps(c: Setup, st: State, from: PeerId, reply: Reply, stallAt: nat, now: nat, end: State)
    requires !Aborts(c.info, st.receivers, from, reply) && end == Next(c, st, Answer(from, reply))
    requires AcceptedBy(c, st, Answer(from, reply)) == 0 || stallAt == now + c.timeout
    requires !LedgerComplete(end.receivers, c.info.blockCount)
    ensures Heard(c, st, stallAt, BlocksFrom(from, reply), now) == Loop(end, stallAt, None)
  {
  }

  lemma NoneExpires(c: Setup, st: State, q: PeerId, i: nat, at: nat, now: nat)
    requires AskedAt(c, st, q, i, at) && at <= now < at + c.timeout
    ensures ExpiredBlocks(st.sched, now, c.timeout) == {} && Next(c, st, Expire(now)) == st
  {
    forall j | 0 <= j < |st.sched.blocks|
      ensures !IsExpired(st.sched.blocks[j], now, c.timeout)
    {
    }
    NothingExpires(st.sched, now, c.timeout);
    assert ExpiredBlocks(st.sched, now, c.timeout) == {};
  }

  // A round in which nothing expires.
  ghost predicate QuietRound(c: Setup, st: State, tick: Tick, picks: Picks, round: State) {
    && ExpiredBlocks(st.sched, tick.atRequeue, c.timeout) == {} && Requeued(c, st, tick) == st
    && IsDispatch(st.sched, c.maxInFlight, tick.atDispatch, picks)
    && Dispatched(c, st, tick, picks) == round && !Idle(round.sched)
  }

  // Nothing p says but an answer to all it was asked.
  ghost predicate SaysAll(round: State, notice: Notice, p: PeerId, data: Bytes, size: nat)
    requires size > 0
  {
    && (notice.RequestFailed? ==> notice.failed != p)
    && (notice.BlocksFrom? && notice.peer == p ==> AnswersAll(round, p, data, size, notice.reply))
  }

  lemma FairPass(c: Setup, overall: nat, l: Loop, heard: nat, tick: Tick, picks: Picks, round: State, p: PeerId, data: Bytes, size: nat)
    requires QuietRound(c, l.st, tick, picks, round) && tick.atTop < overall && size > 0
    requires SaysAll(round, tick.notice, p, data, size)
    requires tick.atStall <= heard + c.timeout && (Owes(l.st, p) ==> tick.atStall <= l.stallAt)
    ensures FairTurn(Pass(c, overall, l, tick, picks), heard, p, data, size) && PickedWell(c, overall, l, tick, picks)
  {
    QuietIsFair(Pass(c, overall, l, tick, picks), heard, round, p, data, size);
    QuietIsPicked(c, overall, l, tick, picks, round);
  }

  lemma QuietIsFair(x: Pass, heard: nat, round: State, p: PeerId, data: Bytes, size: nat)
    requires ExpiredBlocks(x.l.st.sched, x.tick.atRequeue, x.c.timeout) == {} && RoundOf(x) == round
    requires x.tick.atTop < x.overall && size > 0 && SaysAll(round, x.tick.notice, p, data, size) && Punctual(x, heard, p)
    ensures FairTurn(x, heard, p, data, size)
  {
  }

  lemma QuietIsPicked(c: Setup, overall: nat, l: Loop, tick: Tick, picks: Picks, round: State)
    requires QuietRound(c, l.st, tick, picks, round)
    ensures PickedWell(c, overall, l, tick, picks)
  {
  }

  lemma FairListening(c: Setup, overall: nat, l: Loop, heard: nat, tick: Tick, picks: Picks, round: State, n: Loop, p: PeerId, data: Bytes, size: nat)
    requires QuietRound(c, l.st, tick, picks, round) && l.exit.None? && tick.atTop < overall && tick.atStall <= l.stallAt && tick.atStall <= heard + c.timeout && size > 0
    requires SaysAll(round, tick.notice, p, data, size) && n == Heard(c, round, l.stallAt, tick.notice, tick.atNotice)
    ensures FairMove(c, overall, l, heard, tick, picks, n, p, data, size)
  {
    FairPass(c, overall, l, heard, tick, picks, round, p, data, size);
    TurnHears(c, overall, l, tick, picks, round);
  }

  lemma NonePending(c: Setup, st: State, q: PeerId, i: nat, at: nat)
    requires AskedAt(c, st, q, i, at)
    ensures |st.sched.blocks| == c.info.blockCount && forall j :: 0 <= j < |st.sched.blocks| ==> !st.sched.blocks[j].Pending?
    ensures !Idle(st.sched)
  {
    BusyIsNotIdle(st.sched, q);
  }

  // A round while q is asked sends nothing.
  lemma AskedRound(c: Setup, st: State, q: PeerId, i: nat, at: nat, tick: Tick)
    requires AskedAt(c, st, q, i, at) && at <= tick.atRequeue < at + c.timeout
    ensures QuietRound(c, st, tick, Nobody(c.info.blockCount), st)
  {
    NoneExpires(c, st, q, i, at, tick.atRequeue);
    NonePending(c, st, q, i, at);
    NobodyIsSent(c, st, tick);
  }

  lemma NobodyIsSent(c: Setup, st: State, tick: Tick)
    requires |st.sched.blocks| == c.info.blockCount && forall j :: 0 <= j < |st.sched.blocks| ==> !st.sched.blocks[j].Pending?
    requires ExpiredBlocks(st.sched, tick.atRequeue, c.timeout) == {} && Requeued(c, st, tick) == st && !Idle(st.sched)
    ensures QuietRound(c, st, tick, Nobody(c.info.blockCount), st)
  {
    RoundOfNobody(st.sched, c.maxInFlight, tick.atDispatch);
  }

  function SilentAt(t: nat): Tick {
    Tick(t, t, t, t, Quiet, t + 1)
  }

  lemma SilentTurn(c: Setup, overall: nat, l: Loop, heard: nat, q: PeerId, i: nat, at: nat, t: nat, p: PeerId, data: Bytes, size: nat)
    requires AskedAt(c, l.st, q, i, at) && l.exit.None? && l.stallAt == at + c.timeout && size > 0
    requires at <= t < at + c.timeout && t < overall && heard >= at
    ensures FairMove(c, overall, l, heard, SilentAt(t), Nobody(c.info.blockCount), l, p, data, size)
  {
    AskedRound(c, l.st, q, i, at, SilentAt(t));
    FairSilence(c, overall, l, heard, SilentAt(t), Nobody(c.info.blockCount), l.st, p, data, size);
  }

  lemma FairSilence(c: Setup, overall: nat, l: Loop, heard: nat, tick: Tick, picks: Picks, round: State, p: PeerId, data: Bytes, size: nat)
    requires QuietRound(c, l.st, tick, picks, round) && l.exit.None? && tick.atTop < overall && tick.atStall <= l.stallAt && tick.atStall <= heard + c.timeout && size > 0
    requires tick.notice == Quiet
    ensures FairMove(c, overall, l, heard, tick, picks, Loop(round, l.stallAt, None), p, data, size)
  {
    FairListening(c, overall, l, heard, tick, picks, round, Loop(round, l.stallAt, None), p, data, size);
  }

  // An answer, by p to all it was asked or by another peer, that completes nothing
  // and leaves the stall deadline where it is.
  lemma FairAnswer(c: Setup, overall: nat, l: Loop, heard: nat, tick: Tick, picks: Picks, round: State, from: PeerId, reply: Reply, end: State, p: PeerId, data: Bytes, size: nat)
    requires QuietRound(c, l.st, tick, picks, round) && l.exit.None? && tick.atTop < overall && tick.atStall <= l.stallAt && tick.atStall <= heard + c.timeout && size > 0
    requires tick.notice == BlocksFrom(from, reply) && (from == p ==> AnswersAll(round, p, data, size, reply))
    requires !Aborts(c.info, round.receivers, from, reply) && end == Next(c, round, Answer(from, reply))
    requires AcceptedBy(c, round, Answer(from, reply)) == 0 || l.stallAt == tick.atNotice + c.timeout
    requires !LedgerComplete(end.receivers, c.info.blockCount)
    ensures FairMove(c, overall, l, heard, tick, picks, Loop(end, l.stallAt, None), p, data, size)
  {
    HeardKeeps(c, round, from, reply, l.stallAt, tick.atNotice, end);
    FairListening(c, overall, l, heard, tick, picks, round, Loop(end, l.stallAt, None), p, data, size);
  }

  function WrongAt(t: nat, q: PeerId, i: nat, bad: Bytes): Tick {
    Tick(t, t, t, t, BlocksFrom(q, [(i, bad)]), t + 1)
  }

  lemma WrongTurn(c: Setup, overall: nat, l: Loop, heard: nat, q: PeerId, i: nat, at: nat, t: nat, bad: Bytes, p: PeerId, data: Bytes, size: nat) returns (n: Loop)
    requires AskedAt(c, l.st, q, i, at) && l.exit.None? && l.stallAt == at + c.timeout && size > 0 && p != q && OwesNothing(l.st, p)
    requires at <= t < at + c.timeout && t < overall && heard >= at && i < |c.info.blockHashes| && c.h(bad) != c.info.blockHashes[i]
    ensures FairMove(c, overall, l, heard, WrongAt(t, q, i, bad), Nobody(c.info.blockCount), n, p, data, size)
    ensures Waiting(c, n.st, q, i) && n.exit.None? && n.stallAt == l.stallAt && OwesNothing(n.st, p)
  {
    AskedRound(c, l.st, q, i, at, WrongAt(t, q, i, bad));
    var end := WrongAnswerIs(c, l.st, q, i, at, bad, p);
    FairAnswer(c, overall, l, heard, WrongAt(t, q, i, bad), Nobody(c.info.blockCount), l.st, q, [(i, bad)], end, p, data, size);
    n := Loop(end, l.stallAt, None);
  }

  lemma WrongAnswerIs(c: Setup, st: State, q: PeerId, i: nat, at: nat, bad: Bytes, p: PeerId) returns (end: State)
    requires AskedAt(c, st, q, i, at) && i < |c.info.blockHashes| && c.h(bad) != c.info.blockHashes[i] && p != q && OwesNothing(st, p)
    ensures !Aborts(c.info, st.receivers, q, [(i, bad)]) && AcceptedBy(c, st, Answer(q, [(i, bad)])) == 0
    ensures end == Next(c, st, Answer(q, [(i, bad)])) && Waiting(c, end, q, i) && OwesNothing(end, p)
    ensures !LedgerComplete(end.receivers, c.info.blockCount)
  {
    WrongAnswer(c, st, q, i, at, bad);
    end := Next(c, st, Answer(q, [(i, bad)]));
    OneLeftIncomplete(c, end, q, i);
  }

  lemma WaitingRound(c: Setup, st: State, q: PeerId, i: nat, tick: Tick) returns (picks: Picks, round: State)
    requires Waiting(c, st, q, i) && c.maxInFlight >= 1
    ensures QuietRound(c, st, tick, picks, round) && AskedAt(c, round, q, i, tick.atDispatch)
    ensures forall p :: p in st.sched.peers && p != q ==> p in round.sched.peers && round.sched.peers[p] == st.sched.peers[p]
  {
    picks := AskAgain(c, st, q, i, tick.atDispatch);
    round := Next(c, st, Dispatch(tick.atDispatch, picks));
    NonePending(c, round, q, i, tick.atDispatch);
    RoundOfPicks(c, st, tick, picks, round);
  }

  lemma RoundOfPicks(c: Setup, st: State, tick: Tick, picks: Picks, round: State)
    requires NoFlights(st.sched) && IsDispatch(st.sched, c.maxInFlight, tick.atDispatch, picks)
    requires round == Next(c, st, Dispatch(tick.atDispatch, picks)) && !Idle(round.sched)
    ensures QuietRound(c, st, tick, picks, round)
  {
    NoneIsOut(c, st, tick.atRequeue);
  }

  lemma NoneIsOut(c: Setup, st: State, now: nat)
    requires NoFlights(st.sched)
    ensures ExpiredBlocks(st.sched, now, c.timeout) == {} && Next(c, st, Expire(now)) == st
  {
    NothingExpires(st.sched, now, c.timeout);
    assert ExpiredBlocks(st.sched, now, c.timeout) == {};
  }

  // p answers what it was asked in the first round, if anything.
  lemma HonestTurn(c: Setup, overall: nat, l: Loop, heard: nat, p: PeerId, q: PeerId, i: nat, t: nat, data: Bytes, size: nat) returns (tick: Tick, picks: Picks, n: Loop)
    requires Waiting(c, l.st, q, i) && l.exit.None? && l.stallAt == t + c.timeout && c.maxInFlight >= 1
    requires HashesOf(c.h, c.info, data, size) && p in l.st.sched.peers && p != q && t < overall && heard >= t
    ensures tick.atNotice == t
    ensures FairMove(c, overall, l, heard, tick, picks, n, p, data, size)
    ensures AskedAt(c, n.st, q, i, t) && n.exit.None? && n.stallAt == l.stallAt && OwesNothing(n.st, p)
  {
    var round;
    picks, round := WaitingRound(c, l.st, q, i, Tick(t, t, t, t, Quiet, t));
    if OwesNothing(round, p) {
      tick, n := Tick(t, t, t, t, Quiet, t), Loop(round, l.stallAt, None);
      FairSilence(c, overall, l, heard, tick, picks, round, p, data, size);
    } else {
      var reply, end := HonestAnswerIs(c, round, p, q, i, t, data, size);
      tick, n := Tick(t, t, t, t, BlocksFrom(p, reply), t), Loop(end, l.stallAt, None);
      SameRound(c, l.st, Tick(t, t, t, t, Quiet, t), tick, picks, round);
      FairAnswer(c, overall, l, heard, tick, picks, round, p, reply, end, p, data, size);
    }
  }

  lemma SameRound(c: Setup, st: State, a: Tick, b: Tick, picks: Picks, round: State)
    requires QuietRound(c, st, a, picks, round) && b.atRequeue == a.atRequeue && b.atDispatch == a.atDispatch
    ensures QuietRound(c, st, b, picks, round)
  {
  }

  lemma HonestAnswerIs(c: Setup, st: State, p: PeerId, q: PeerId, i: nat, at: nat, data: Bytes, size: nat) returns (reply: Reply, end: State)
    requires AskedAt(c, st, q, i, at) && HashesOf(c.h, c.info, data, size) && p in st.sched.peers && p != q
    ensures AnswersAll(st, p, data, size, reply) && !Aborts(c.info, st.receivers, p, reply)
    ensures end == Next(c, st, Answer(p, reply)) && AskedAt(c, end, q, i, at) && OwesNothing(end, p)
    ensures !LedgerComplete(end.receivers, c.info.blockCount)
  {
    reply := HonestAnswerLeaves(c, st, p, q, i, at, data, size);
    end := Next(c, st, Answer(p, reply));
    OneLeftIncomplete(c, end, q, i);
  }

  // The last turn: q is asked once more, and the stall deadline has passed.
  function LateAt(top: nat, late: nat): Tick {
    Tick(top, top, top, late, Quiet, late)
  }

  lemma LastTurn(c: Setup, overall: nat, l: Loop, heard: nat, p: PeerId, q: PeerId, i: nat, top: nat, late: nat, data: Bytes, size: nat) returns (picks: Picks, n: Loop)
    requires Waiting(c, l.st, q, i) && l.exit.None? && l.stallAt < late && c.maxInFlight >= 1 && top < overall && size > 0
    requires p != q && OwesNothing(l.st, p) && late <= heard + c.timeout
    ensures FairMove(c, overall, l, heard, LateAt(top, late), picks, n, p, data, size)
    ensures n.exit == Some(Stalled) && OwesNothing(n.st, p)
  {
    var round;
    picks, round := WaitingRound(c, l.st, q, i, LateAt(top, late));
    n := Loop(round, l.stallAt, Some(Stalled));
    FairPass(c, overall, l, heard, LateAt(top, late), picks, round, p, data, size);
    StallsAt(c, overall, l, LateAt(top, late), picks, round);
  }

  lemma StallsAt(c: Setup, overall: nat, l: Loop, tick: Tick, picks: Picks, round: State)
    requires Dispatched(c, l.st, tick, picks) == round && l.exit.None? && tick.atTop < overall && tick.atStall > l.stallAt
    ensures Turn(c, overall, l, tick, picks) == Loop(round, l.stallAt, Some(Stalled))
  {
  }

  // The first turn, on the requests of the round before it.
  lemma OpeningTurn(c: Setup, overall: nat, st: State, first: Picks, p: PeerId, q: PeerId, i: nat, t: nat, bad: Bytes, data: Bytes, size: nat)
    returns (tick: Tick, picks: Picks, n: Loop)
    requires NoFlights(st.sched) && IsDispatch(st.sched, c.maxInFlight, t, first) && c.timeout > 0 && t < overall && p != q
    requires JustAsked(c, Next(c, st, Dispatch(t, first)), q, i) && HashesOf(c.h, c.info, data, size) && c.h(bad) != c.info.blockHashes[i]
    ensures FairMove(c, overall, SentOut(c, st, t, first), t, tick, picks, n, p, data, size) && tick.atNotice == t
    ensures Waiting(c, n.st, q, i) && n.exit.None? && n.stallAt == t + c.timeout && n.st.sched.peers.Keys == st.sched.peers.Keys
  {
    var l := SentOut(c, st, t, first);
    var reply := Opening(data, size, i, bad);
    tick := Tick(t, t, t, t, BlocksFrom(q, reply), t);
    picks := RoundExists(Requeued(c, l.st, tick).sched, c.maxInFlight, t);
    AskedIsBusy(c, l.st, q, i);
    FreshIsQuiet(c, st, t, first, tick, picks, l.st);
    var end := OpeningAnswerIs(c, l.st, q, i, data, size, bad, reply);
    FairAnswer(c, overall, l, t, tick, picks, l.st, q, reply, end, p, data, size);
    n := Loop(end, l.stallAt, None);
  }

  lemma FreshIsQuiet(c: Setup, st: State, t: nat, first: Picks, tick: Tick, picks: Picks, round: State)
    requires NoFlights(st.sched) && IsDispatch(st.sched, c.maxInFlight, t, first) && t <= tick.atRequeue < t + c.timeout
    requires round == Next(c, st, Dispatch(t, first)) && !Idle(round.sched)
    requires IsDispatch(Requeued(c, round, tick).sched, c.maxInFlight, tick.atDispatch, picks)
    ensures QuietRound(c, round, tick, picks, round)
  {
    FreshRoundWaits(c, st, t, first, tick, picks);
    JustSent(st.sched, first, t, tick.atRequeue, c.timeout);
    assert ExpiredBlocks(round.sched, tick.atRequeue, c.timeout) == {};
    NothingExpires(round.sched, tick.atRequeue, c.timeout);
  }

  lemma OpeningAnswerIs(c: Setup, st: State, q: PeerId, i: nat, data: Bytes, size: nat, bad: Bytes, reply: Reply) returns (end: State)
    requires JustAsked(c, st, q, i) && HashesOf(c.h, c.info, data, size) && c.h(bad) != c.info.blockHashes[i]
    requires reply == Opening(data, size, i, bad)
    ensures !Aborts(c.info, st.receivers, q, reply) && end == Next(c, st, Answer(q, reply))
    ensures Waiting(c, end, q, i) && !LedgerComplete(end.receivers, c.info.blockCount)
    ensures end.sched.peers.Keys == st.sched.peers.Keys
  {
    OpeningLeavesOne(c, st, q, i, data, size, bad);
    end := Next(c, st, Answer(q, reply));
    OneLeftIncomplete(c, end, q, i);
  }

  lemma AskedIsBusy(c: Setup, st: State, q: PeerId, i: nat)
    requires JustAsked(c, st, q, i)
    ensures !Idle(st.sched)
  {
    assert i in st.sched.peers[q].inFlight;
    BusyIsNotIdle(st.sched, q);
  }

  // ---- The course ----

  // Between two turns: where the loop is, and when it was last told anything.
  datatype Stop = Stop(l: Loop, heard: nat)

  // A turn, and what it reads and picks.
  datatype Leg = Leg(at: Stop, tick: Tick, picks: Picks)

  // Where leg k begins, when the last one leads to end.
  function LeadsTo(legs: seq<Leg>, k: nat, end: Stop): Stop {
    if k < |legs| then legs[k].at else end
  }

  ghost predicate FairLeg(c: Setup, overall: nat, p: PeerId, data: Bytes, size: nat, leg: Leg, n: Stop)
    requires size > 0
  {
    FairMove(c, overall, leg.at.l, leg.at.heard, leg.tick, leg.picks, n.l, p, data, size) && n.heard == leg.tick.atNotice
  }

  // Each leg leads fairly to the next.
  ghost predicate FairLegs(c: Setup, overall: nat, p: PeerId, data: Bytes, size: nat, legs: seq<Leg>, end: Stop)
    requires size > 0
  {
    forall k :: 0 <= k < |legs| ==> FairLeg(c, overall, p, data, size, legs[k], LeadsTo(legs, k + 1, end))
  }

  lemma OneLeg(c: Setup, overall: nat, p: PeerId, data: Bytes, size: nat, at: Stop, tick: Tick, picks: Picks, end: Stop)
    requires size > 0 && FairMove(c, overall, at.l, at.heard, tick, picks, end.l, p, data, size) && end.heard == tick.atNotice
    ensures FairLegs(c, overall, p, data, size, [Leg(at, tick, picks)], end)
  {
  }

  lemma JoinLegs(c: Setup, overall: nat, p: PeerId, data: Bytes, size: nat, a: seq<Leg>, mid: Stop, b: seq<Leg>, end: Stop)
    requires size > 0 && LeadsTo(b, 0, end) == mid
    requires FairLegs(c, overall, p, data, size, a, mid) && FairLegs(c, overall, p, data, size, b, end)
    ensures FairLegs(c, overall, p, data, size, a + b, end)
  {
    var legs := a + b;
    forall k | 0 <= k < |legs|
      ensures FairLeg(c, overall, p, data, size, legs[k], LeadsTo(legs, k + 1, end))
    {
      LegOfJoin(a, b, k, end);
    }
  }

  lemma LegOfJoin(a: seq<Leg>, b: seq<Leg>, k: nat, end: Stop)
    requires k < |a + b|
    ensures k < |a| ==> (a + b)[k] == a[k] && LeadsTo(a + b, k + 1, end) == LeadsTo(a, k + 1, LeadsTo(b, 0, end))
    ensures k >= |a| ==> (a + b)[k] == b[k - |a|] && LeadsTo(a + b, k + 1, end) == LeadsTo(b, k - |a| + 1, end)
  {
  }

  // One silent turn a second, the loop standing still.
  function SilentLegs(l: Loop, from: nat, count: nat, n: nat): (r: seq<Leg>)
    ensures LeadsTo(r, 0, Stop(l, from + count)) == Stop(l, from)
  {
    if count == 0 then [] else SilentLegs(l, from, count - 1, n) + [SilentLegAt(l, from + (count - 1), n)]
  }

  function SilentLegAt(l: Loop, t: nat, n: nat): Leg {
    Leg(Stop(l, t), SilentAt(t), Nobody(n))
  }

  lemma {:induction false} JoinSilence(c: Setup, overall: nat, l: Loop, from: nat, count: nat, p: PeerId, data: Bytes, size: nat)
    requires size > 0
    requires forall t: nat :: from <= t < from + count ==> FairLegs(c, overall, p, data, size, [SilentLegAt(l, t, c.info.blockCount)], Stop(l, t + 1))
    ensures FairLegs(c, overall, p, data, size, SilentLegs(l, from, count, c.info.blockCount), Stop(l, from + count))
  {
    if count > 0 {
      JoinSilence(c, overall, l, from, count - 1, p, data, size);
      OneMoreLeg(c, overall, p, data, size, SilentLegs(l, from, count - 1, c.info.blockCount), SilentLegAt(l, from + (count - 1), c.info.blockCount), Stop(l, from + count));
    }
  }

  lemma OneMoreLeg(c: Setup, overall: nat, p: PeerId, data: Bytes, size: nat, legs: seq<Leg>, last: Leg, end: Stop)
    requires size > 0 && FairLegs(c, overall, p, data, size, legs, last.at) && FairLegs(c, overall, p, data, size, [last], end)
    ensures FairLegs(c, overall, p, data, size, legs + [last], end)
  {
    JoinLegs(c, overall, p, data, size, legs, last.at, [last], end);
  }

  lemma SilenceIsFair(c: Setup, overall: nat, l: Loop, q: PeerId, i: nat, from: nat, count: nat, p: PeerId, data: Bytes, size: nat) returns (legs: seq<Leg>)
    requires AskedAt(c, l.st, q, i, from) && l.exit.None? && l.stallAt == from + c.timeout && size > 0
    requires count < c.timeout && from + count < overall
    ensures FairLegs(c, overall, p, data, size, legs, Stop(l, from + count)) && LeadsTo(legs, 0, Stop(l, from + count)) == Stop(l, from)
  {
    legs := SilentLegs(l, from, count, c.info.blockCount);
    forall t: nat | from <= t < from + count
      ensures FairLegs(c, overall, p, data, size, [SilentLegAt(l, t, c.info.blockCount)], Stop(l, t + 1))
    {
      SilentLeg(c, overall, l, q, i, from, t, p, data, size);
    }
    JoinSilence(c, overall, l, from, count, p, data, size);
  }

  lemma SilentLeg(c: Setup, overall: nat, l: Loop, q: PeerId, i: nat, at: nat, t: nat, p: PeerId, data: Bytes, size: nat)
    requires AskedAt(c, l.st, q, i, at) && l.exit.None? && l.stallAt == at + c.timeout && size > 0
    requires at <= t < at + c.timeout && t < overall
    ensures FairLegs(c, overall, p, data, size, [SilentLegAt(l, t, c.info.blockCount)], Stop(l, t + 1))
  {
    SilentTurn(c, overall, l, t, q, i, at, t, p, data, size);
    OneLeg(c, overall, p, data, size, Stop(l, t), SilentAt(t), Nobody(c.info.blockCount), Stop(l, t + 1));
  }

  lemma HonestLegs(c: Setup, overall: nat, l: Loop, p: PeerId, q: PeerId, i: nat, t: nat, data: Bytes, size: nat) returns (legs: seq<Leg>, n: Loop)
    requires Waiting(c, l.st, q, i) && l.exit.None? && l.stallAt == t + c.timeout && c.maxInFlight >= 1
    requires HashesOf(c.h, c.info, data, size) && p in l.st.sched.peers && p != q && t < overall
    ensures FairLegs(c, overall, p, data, size, legs, Stop(n, t)) && LeadsTo(legs, 0, Stop(n, t)) == Stop(l, t)
    ensures AskedAt(c, n.st, q, i, t) && n.exit.None? && n.stallAt == l.stallAt && OwesNothing(n.st, p)
  {
    var tick, picks;
    tick, picks, n := HonestTurn(c, overall, l, t, p, q, i, t, data, size);
    legs := [Leg(Stop(l, t), tick, picks)];
    OneLeg(c, overall, p, data, size, Stop(l, t), tick, picks, Stop(n, t));
  }

  lemma WrongLegs(c: Setup, overall: nat, l: Loop, q: PeerId, i: nat, at: nat, t: nat, bad: Bytes, p: PeerId, data: Bytes, size: nat) returns (legs: seq<Leg>, n: Loop)
    requires AskedAt(c, l.st, q, i, at) && l.exit.None? && l.stallAt == at + c.timeout && size > 0 && p != q && OwesNothing(l.st, p)
    requires at <= t < at + c.timeout && t < overall && i < |c.info.blockHashes| && c.h(bad) != c.info.blockHashes[i]
    ensures FairLegs(c, overall, p, data, size, legs, Stop(n, t + 1)) && LeadsTo(legs, 0, Stop(n, t + 1)) == Stop(l, t)
    ensures Waiting(c, n.st, q, i) && n.exit.None? && n.stallAt == l.stallAt && OwesNothing(n.st, p)
  {
    n := WrongTurn(c, overall, l, t, q, i, at, t, bad, p, data, size);
    legs := [Leg(Stop(l, t), WrongAt(t, q, i, bad), Nobody(c.info.blockCount))];
    OneLeg(c, overall, p, data, size, Stop(l, t), WrongAt(t, q, i, bad), Nobody(c.info.blockCount), Stop(n, t + 1));
  }

  lemma LastLegs(c: Setup, overall: nat, at: Stop, p: PeerId, q: PeerId, i: nat, top: nat, late: nat, data: Bytes, size: nat) returns (legs: seq<Leg>, end: Stop)
    requires Waiting(c, at.l.st, q, i) && at.l.exit.None? && at.l.stallAt < late <= at.heard + c.timeout && c.maxInFlight >= 1 && top < overall && size > 0
    requires p != q && OwesNothing(at.l.st, p)
    ensures FairLegs(c, overall, p, data, size, legs, end) && LeadsTo(legs, 0, end) == at
    ensures end.l.exit == Some(Stalled) && OwesNothing(end.l.st, p)
  {
    var picks, n := LastTurn(c, overall, at.l, at.heard, p, q, i, top, late, data, size);
    end := Stop(n, late);
    legs := [Leg(at, LateAt(top, late), picks)];
    OneLeg(c, overall, p, data, size, at, LateAt(top, late), picks, end);
  }

  // The wrong answer comes after t, before the request expires, and q is asked once more.
  lemma LastTwoLegs(c: Setup, overall: nat, l: Loop, p: PeerId, q: PeerId, i: nat, at: nat, t: nat, top: nat, bad: Bytes, data: Bytes, size: nat) returns (legs: seq<Leg>, end: Stop)
    requires AskedAt(c, l.st, q, i, at) && l.exit.None? && l.stallAt == at + c.timeout && OwesNothing(l.st, p) && size > 0
    requires c.maxInFlight >= 1 && at <= t < at + c.timeout && t < overall && top < overall && p != q
    requires i < |c.info.blockHashes| && c.h(bad) != c.info.blockHashes[i]
    ensures FairLegs(c, overall, p, data, size, legs, end) && LeadsTo(legs, 0, end) == Stop(l, t)
    ensures end.l.exit == Some(Stalled) && OwesNothing(end.l.st, p)
  {
    var wrong, last, n;
    wrong, n := WrongLegs(c, overall, l, q, i, at, t, bad, p, data, size);
    var mid := Stop(n, t + 1);
    last, end := LastLegs(c, overall, mid, p, q, i, top, at + c.timeout + 1, data, size);
    JoinLegs(c, overall, p, data, size, wrong, mid, last, end);
    legs := wrong + last;
    FirstOfJoin(wrong, mid, last, end, Stop(l, t));
  }

  lemma FirstOfJoin(a: seq<Leg>, mid: Stop, b: seq<Leg>, end: Stop, at: Stop)
    requires LeadsTo(a, 0, mid) == at && LeadsTo(b, 0, end) == mid
    ensures LeadsTo(a + b, 0, end) == at
  {
  }

  // Before it, silence, a second a turn.
  lemma ClosingLegs(c: Setup, overall: nat, l: Loop, p: PeerId, q: PeerId, i: nat, at: nat, quiet: nat, top: nat, bad: Bytes, data: Bytes, size: nat) returns (legs: seq<Leg>, end: Stop)
    requires AskedAt(c, l.st, q, i, at) && l.exit.None? && l.stallAt == at + c.timeout && OwesNothing(l.st, p) && size > 0
    requires c.maxInFlight >= 1 && quiet < c.timeout && at + quiet < overall && top < overall && p != q
    requires i < |c.info.blockHashes| && c.h(bad) != c.info.blockHashes[i]
    ensures FairLegs(c, overall, p, data, size, legs, end) && LeadsTo(legs, 0, end) == Stop(l, at)
    ensures end.l.exit == Some(Stalled) && OwesNothing(end.l.st, p)
  {
    var rest;
    var mid := Stop(l, at + quiet);
    var silence := SilenceIsFair(c, overall, l, q, i, at, quiet, p, data, size);
    rest, end := LastTwoLegs(c, overall, l, p, q, i, at, at + quiet, top, bad, data, size);
    JoinLegs(c, overall, p, data, size, silence, mid, rest, end);
    legs := silence + rest;
    FirstOfJoin(silence, mid, rest, end, Stop(l, at));
  }

  lemma OpeningLegs(c: Setup, overall: nat, st: State, first: Picks, p: PeerId, q: PeerId, i: nat, t: nat, bad: Bytes, data: Bytes, size: nat) returns (legs: seq<Leg>, n: Loop)
    requires NoFlights(st.sched) && IsDispatch(st.sched, c.maxInFlight, t, first) && c.timeout > 0 && t < overall && p != q
    requires JustAsked(c, Next(c, st, Dispatch(t, first)), q, i) && HashesOf(c.h, c.info, data, size) && c.h(bad) != c.info.blockHashes[i]
    ensures FairLegs(c, overall, p, data, size, legs, Stop(n, t)) && LeadsTo(legs, 0, Stop(n, t)) == Stop(SentOut(c, st, t, first), t)
    ensures Waiting(c, n.st, q, i) && n.exit.None? && n.stallAt == t + c.timeout && n.st.sched.peers.Keys == st.sched.peers.Keys
  {
    var tick, picks;
    tick, picks, n := OpeningTurn(c, overall, st, first, p, q, i, t, bad, data, size);
    var at := Stop(SentOut(c, st, t, first), t);
    legs := [Leg(at, tick, picks)];
    OneLeg(c, overall, p, data, size, at, tick, picks, Stop(n, t));
  }

  // The loop stands at this stop after k turns, all of them fair to p.
  ghost predicate FairStands(w: Course, k: nat, at: Stop, p: PeerId, data: Bytes, size: nat)
    requires size > 0
  {
    && Stands(w, k, at.l) && at.heard == LastHeard(w, k)
    && forall j :: 0 <= j < k && Entered(w, j) ==> FairTurn(PassAt(w, j), LastHeard(w, j), p, data, size)
  }

  lemma FairAdvance(w: Course, k: nat, leg: Leg, n: Stop, p: PeerId, data: Bytes, size: nat)
    requires size > 0 && FairStands(w, k, leg.at, p, data, size) && k < |w.ticks| && w.ticks[k] == leg.tick && PicksAt(w, k) == leg.picks
    requires FairLeg(w.c, w.overall, p, data, size, leg, n)
    ensures FairStands(w, k + 1, n, p, data, size)
  {
    Advance(w, k, leg.at.l, n.l);
    assert PassAt(w, k) == Pass(w.c, w.overall, leg.at.l, leg.tick, leg.picks);
  }

  ghost predicate Follows(w: Course, legs: seq<Leg>) {
    |w.ticks| == |legs| && forall k :: 0 <= k < |legs| ==> w.ticks[k] == legs[k].tick && PicksAt(w, k) == legs[k].picks
  }

  lemma LegsAreTurns(w: Course, legs: seq<Leg>, end: Stop, k: nat, p: PeerId, data: Bytes, size: nat)
    requires size > 0 && FairStands(w, 0, LeadsTo(legs, 0, end), p, data, size) && Follows(w, legs) && k <= |legs|
    requires FairLegs(w.c, w.overall, p, data, size, legs, end)
    ensures FairStands(w, k, LeadsTo(legs, k, end), p, data, size)
  {
    forall j | 0 <= j < |legs| && FairStands(w, j, LeadsTo(legs, j, end), p, data, size)
      ensures FairStands(w, j + 1, LeadsTo(legs, j + 1, end), p, data, size)
    {
      LegIsTurn(w, legs, end, j, p, data, size);
    }
    StandsOn(w, legs, end, k, p, data, size);
  }

  lemma {:induction false} StandsOn(w: Course, legs: seq<Leg>, end: Stop, k: nat, p: PeerId, data: Bytes, size: nat)
    requires size > 0 && k <= |legs| && FairStands(w, 0, LeadsTo(legs, 0, end), p, data, size)
    requires forall j :: 0 <= j < |legs| && FairStands(w, j, LeadsTo(legs, j, end), p, data, size) ==>
               FairStands(w, j + 1, LeadsTo(legs, j + 1, end), p, data, size)
    ensures FairStands(w, k, LeadsTo(legs, k, end), p, data, size)
  {
    if k > 0 {
      StandsOn(w, legs, end, k - 1, p, data, size);
    }
  }

  lemma LegIsTurn(w: Course, legs: seq<Leg>, end: Stop, k: nat, p: PeerId, data: Bytes, size: nat)
    requires size > 0 && k < |legs| && Follows(w, legs) && FairStands(w, k, LeadsTo(legs, k, end), p, data, size)
    requires FairLegs(w.c, w.overall, p, data, size, legs, end)
    ensures FairStands(w, k + 1, LeadsTo(legs, k + 1, end), p, data, size)
  {
    FairAdvance(w, k, legs[k], LeadsTo(legs, k + 1, end), p, data, size);
  }

  // It ends with nothing outstanding at p.
  ghost predicate StallsIdly(w: Course, p: PeerId) {
    ExitOf(w) == Stalled && OwesNothing(End(w), p)
  }

  lemma FairEnd(w: Course, at: Stop, p: PeerId, data: Bytes, size: nat)
    requires size > 0 && FairStands(w, |w.ticks|, at, p, data, size)
    requires at.l.exit == Some(Stalled) && OwesNothing(at.l.st, p)
    ensures FairTo(w, p, data, size) && StallsIdly(w, p)
  {
  }

  lemma FairStart(w: Course, p: PeerId, data: Bytes, size: nat)
    requires size > 0 && IsDispatch(Initial(w.c, w.offers).sched, w.c.maxInFlight, w.started, w.first)
    ensures FairStands(w, 0, Stop(SentOut(w.c, Initial(w.c, w.offers), w.started, w.first), w.started), p, data, size)
  {
  }

  function CourseOf(c: Setup, offers: map<PeerId, set<nat>>, started: nat, overall: nat, first: Picks, legs: seq<Leg>): (w: Course)
    ensures w.c == c && w.offers == offers && w.started == started && w.overall == overall && w.first == first
    ensures Follows(w, legs)
  {
    Course(c, offers, started, overall, first,
           seq(|legs|, k requires 0 <= k < |legs| => legs[k].tick), seq(|legs|, k requires 0 <= k < |legs| => legs[k].picks))
  }

  lemma FairCourse(w: Course, legs: seq<Leg>, end: Stop, p: PeerId, data: Bytes, size: nat)
    requires size > 0 && IsDispatch(Initial(w.c, w.offers).sched, w.c.maxInFlight, w.started, w.first) && Follows(w, legs)
    requires FairLegs(w.c, w.overall, p, data, size, legs, end)
    requires LeadsTo(legs, 0, end) == Stop(SentOut(w.c, Initial(w.c, w.offers), w.started, w.first), w.started)
    requires end.l.exit == Some(Stalled) && OwesNothing(end.l.st, p)
    ensures FairTo(w, p, data, size) && StallsIdly(w, p)
  {
    FairStart(w, p, data, size);
    LegsAreTurns(w, legs, end, |legs|, p, data, size);
    FairEnd(w, end, p, data, size);
  }

  // The stall deadline comes after a turn a second, or, when the overall deadline is
  // no later, within one slow turn.
  lemma Pace(started: nat, timeout: nat, overall: nat) returns (quiet: nat, top: nat)
    requires timeout > 0 && started < overall
    ensures quiet < timeout && started + quiet < overall && top < overall && top >= started + quiet
    ensures started + quiet + 1 < overall ==> top == started + quiet + 1
    ensures started + timeout < overall ==> quiet == timeout - 1
  {
    quiet := if started + timeout < overall then timeout - 1 else 0;
    top := if started + quiet + 1 < overall then started + quiet + 1 else started + quiet;
  }

  lemma StarvingLegs(c: Setup, overall: nat, st: State, first: Picks, p: PeerId, q: PeerId, i: nat, t: nat, bad: Bytes, data: Bytes, size: nat) returns (legs: seq<Leg>, end: Stop)
    requires NoFlights(st.sched) && IsDispatch(st.sched, c.maxInFlight, t, first) && c.timeout > 0 && c.maxInFlight >= 1 && t < overall
    requires JustAsked(c, Next(c, st, Dispatch(t, first)), q, i) && HashesOf(c.h, c.info, data, size) && c.h(bad) != c.info.blockHashes[i]
    requires p in st.sched.peers && p != q
    ensures FairLegs(c, overall, p, data, size, legs, end) && LeadsTo(legs, 0, end) == Stop(SentOut(c, st, t, first), t)
    ensures end.l.exit == Some(Stalled) && OwesNothing(end.l.st, p)
  {
    var opening, honest, closing, l1, l2;
    opening, l1 := OpeningLegs(c, overall, st, first, p, q, i, t, bad, data, size);
    honest, l2 := HonestLegs(c, overall, l1, p, q, i, t, data, size);
    var quiet, top := Pace(t, c.timeout, overall);
    closing, end := ClosingLegs(c, overall, l2, p, q, i, t, quiet, top, bad, data, size);
    JoinLegs(c, overall, p, data, size, honest, Stop(l2, t), closing, end);
    JoinLegs(c, overall, p, data, size, opening, Stop(l1, t), honest + closing, end);
    legs := opening + (honest + closing);
  }

  lemma {:induction false} LeastIn(s: set<nat>, i: nat) returns (least: nat)
    requires i in s
    ensures least <= i && least in s && forall j :: 0 <= j < least ==> j !in s
  {
    if j: nat :| j < i && j in s {
      least := LeastIn(s, j);
    } else {
      least := i;
    }
  }

  // The first round can ask q for the first block it offers.
  lemma FirstAsks(c: Setup, st: State, now: nat, q: PeerId, i: nat) returns (first: Picks)
    requires Inv(c, st) && i < |st.sched.blocks| && st.sched.blocks[i].Pending? && q in st.sched.peers && c.maxInFlight >= 1
    requires st.sched.peers[q].inFlight == {} && st.sched.peers[q].failures == 0 && i in st.sched.peers[q].available
    requires forall j :: 0 <= j < i ==> j !in st.sched.peers[q].available
    requires q in st.receivers && forall j :: 0 <= j < |st.receivers[q]| ==> st.receivers[q][j].None?
    ensures IsDispatch(st.sched, c.maxInFlight, now, first)
    ensures JustAsked(c, Next(c, st, Dispatch(now, first)), q, i)
  {
    first := RoundThrough(st.sched, c.maxInFlight, now, i, q);
    StepKeeps(c, st, Dispatch(now, first));
  }

  lemma StarvingCourseExists(c: Setup, offers: map<PeerId, set<nat>>, started: nat, overall: nat, p: PeerId, q: PeerId, i: nat, bad: Bytes, data: Bytes, size: nat)
    returns (w: Course)
    requires HashesOf(c.h, c.info, data, size) && c.maxInFlight >= 1 && c.timeout > 0 && started < overall
    requires p in offers && q in offers && p != q && i in offers[q] && i < c.info.blockCount
    requires c.h(bad) !in c.info.blockHashes
    ensures w.c == c && w.offers == offers && w.started == started && w.overall == overall
    ensures FairTo(w, p, data, size) && StallsIdly(w, p)
  {
    var least, first := FirstAsksIn(c, offers, Initial(c, offers), started, q, i);
    StartsFresh(c, offers, Initial(c, offers), p);
    var legs, end := StarvingLegs(c, overall, Initial(c, offers), first, p, q, least, started, bad, data, size);
    w := CourseOf(c, offers, started, overall, first, legs);
    FairCourse(w, legs, end, p, data, size);
  }

  lemma StartsFresh(c: Setup, offers: map<PeerId, set<nat>>, st: State, p: PeerId)
    requires st == Initial(c, offers) && p in offers
    ensures NoFlights(st.sched) && p in st.sched.peers
  {
  }

  lemma FirstAsksIn(c: Setup, offers: map<PeerId, set<nat>>, st: State, started: nat, q: PeerId, i: nat) returns (least: nat, first: Picks)
    requires st == Initial(c, offers) && q in offers && i in offers[q] && i < c.info.blockCount && c.maxInFlight >= 1
    ensures IsDispatch(st.sched, c.maxInFlight, started, first) && least < c.info.blockCount
    ensures JustAsked(c, Next(c, st, Dispatch(started, first)), q, least)
  {
    InitialInv(c, offers);
    least := LeastIn(offers[q], i);
    first := FirstAsks(c, st, started, q, least);
  }

  // An honest peer that offers every block and is always on time is enough, whatever
  // the others send and whenever, exactly when no other peer offers any block. `bad`
  // is any payload with none of the announced hashes. (With a stall timeout of zero
  // every request expires at once, and nobody is ever on time.)
  lemma OneHonestPeerSufficesIff(c: Setup, offers: map<PeerId, set<nat>>, started: nat, overall: nat, p: PeerId, bad: Bytes, data: Bytes, size: nat)
    requires HashesOf(c.h, c.info, data, size) && c.maxInFlight >= 1 && c.timeout > 0 && started < overall
    requires OffersAll(offers, p, c.info.blockCount) && c.h(bad) !in c.info.blockHashes
    ensures Suffices(c, offers, started, overall, p, data, size) <==> OthersOfferNothing(offers, p, c.info.blockCount)
  {
    if OthersOfferNothing(offers, p, c.info.blockCount) {
      forall w: Course | FairTo(w, p, data, size) && w.c == c && w.offers == offers && w.started == started && w.overall == overall
        ensures ExitOf(w) == AllReceived
      {
        SoleOffererSuffices(w, p, data, size);
      }
    } else {
      var q :| q in offers && q != p && !(offers[q] !! Indices(c.info.blockCount));
      var i :| i in offers[q] && i in Indices(c.info.blockCount);
      var w := StarvingCourseExists(c, offers, started, overall, p, q, i, bad, data, size);
    }
  }
}
