// The loop that drives one download: requeue, dispatch, test the deadlines and
// the give-up condition, then wait for one notification. Clock readings and
// notifications are the input script; the loop ends at the latest when receiving
// fails, at the script's end.

module DownloadLoop {
  import opened Common
  import opened Blocks
  import opened Ledger
  import opened Scheduler
  import opened Invariants
  import opened Progress

  datatype Handshake = Handshake(peer: PeerId, blocksAvailable: seq<nat>)

  datatype Notice =
    | BlocksFrom(peer: PeerId, reply: Reply)
    | RequestFailed(failed: PeerId)
    | Other
    | Quiet
    // Any receive error: the channel is closed, or it overran and notifications
    // were lost.
    | RecvError

  datatype Tick = Tick(atTop: nat, atRequeue: nat, atDispatch: nat, atStall: nat, notice: Notice, atNotice: nat)

  datatype Exit = TimedOut | Stalled | NoProviders | AllReceived | ReceiveFailed | Panicked

  const U64_MAX: nat := 0xFFFF_FFFF_FFFF_FFFF
  const MIN_P2P_DOWNLOAD_BYTES_PER_SEC: nat := 1024 * 1024

  function SaturatingAdd(a: nat, b: nat): nat {
    Min(a + b, U64_MAX)
  }

  function OverallTimeoutSecs(requestTimeout: nat, stallTimeout: nat, narSize: nat): nat {
    if narSize == 0 then requestTimeout
    else
      var transfer := SaturatingAdd(narSize, MIN_P2P_DOWNLOAD_BYTES_PER_SEC - 1) / MIN_P2P_DOWNLOAD_BYTES_PER_SEC;
      Max(requestTimeout, SaturatingAdd(stallTimeout, transfer))
  }

  // A known nar gets its stall allowance plus at least size / (1 MiB/s) seconds,
  // short of the u64 limits, and never less than the request timeout.
  lemma LargeNarsGetTransferTime(requestTimeout: nat, stallTimeout: nat, narSize: nat)
    requires narSize > 0
    ensures var t := OverallTimeoutSecs(requestTimeout, stallTimeout, narSize);
            && t >= requestTimeout
            && (narSize + MIN_P2P_DOWNLOAD_BYTES_PER_SEC <= U64_MAX && stallTimeout + narSize <= U64_MAX ==>
                  t >= stallTimeout && (t - stallTimeout) * MIN_P2P_DOWNLOAD_BYTES_PER_SEC >= narSize)
  {
    var t := OverallTimeoutSecs(requestTimeout, stallTimeout, narSize);
    if narSize + MIN_P2P_DOWNLOAD_BYTES_PER_SEC <= U64_MAX && stallTimeout + narSize <= U64_MAX {
      var transfer := (narSize + MIN_P2P_DOWNLOAD_BYTES_PER_SEC - 1) / MIN_P2P_DOWNLOAD_BYTES_PER_SEC;
      assert transfer <= narSize && transfer * MIN_P2P_DOWNLOAD_BYTES_PER_SEC >= narSize;
    }
  }

  // handshakes.collect(): a repeated peer keeps its last offer.
  function Offers(handshakes: seq<Handshake>): map<PeerId, set<nat>> {
    if handshakes == [] then map[]
    else
      var last := handshakes[|handshakes| - 1];
      Offers(handshakes[..|handshakes| - 1])[last.peer := set i | i in last.blocksAvailable]
  }

  // What the result says about the ledger the run ended with.
  ghost predicate Outcome(c: Setup, narHash: string, narSize: nat, end: State, r: Result<(Bytes, string), DownloadError>) {
    if !LedgerComplete(end.receivers, c.info.blockCount) then r == Err(Incomplete)
    else exists parts :: IsChoice(end.receivers, c.info.blockCount, parts) && OutcomeOf(c, narHash, narSize, parts, r)
  }

  ghost predicate OutcomeOf(c: Setup, narHash: string, narSize: nat, parts: seq<Bytes>, r: Result<(Bytes, string), DownloadError>) {
    match Joined(c.h, narHash, narSize, parts)
    case Ok(nar) => r == Ok((nar, "sha256:" + Hex(c.h(nar))))
    case Err(e) => r == Err(e)
  }

  // A nar with the narinfo's hash, its size when that is known, and its own digest.
  predicate IsVerifiedNar(h: Hasher, narHash: string, narSize: nat, nar: (Bytes, string)) {
    NarHashMatches(h, narHash, nar.0) && (narSize > 0 ==> |nar.0| == narSize) && nar.1 == "sha256:" + Hex(h(nar.0))
  }

  // ---- The loop as a fold over its script ----

  // Between two turns: the download's state, the stall deadline, and why it ended.
  datatype Loop = Loop(st: State, stallAt: nat, exit: Option<Exit>)

  // Everything that decides a run: settings, offers, clock readings, notifications
  // and, for every dispatch round, which of equally good peers it picks.
  datatype Course = Course(c: Setup, offers: map<PeerId, set<nat>>, started: nat, overall: nat, first: Picks, ticks: seq<Tick>, picks: seq<Picks>)

  // Nothing is counted at any peer although a block is missing.
  ghost predicate Idle(s: Sched) {
    NothingCounted(s) && exists i :: 0 <= i < |s.blocks| && !s.blocks[i].Complete?
  }

  ghost function Requeued(c: Setup, st: State, tick: Tick): State {
    Next(c, st, Expire(tick.atRequeue))
  }

  ghost function Dispatched(c: Setup, st: State, tick: Tick, picks: Picks): State {
    Next(c, Requeued(c, st, tick), Dispatch(tick.atDispatch, picks))
  }

  // What one notification does.
  ghost function Heard(c: Setup, st: State, stallAt: nat, notice: Notice, now: nat): Loop {
    match notice
    case BlocksFrom(p, reply) =>
      if Aborts(c.info, st.receivers, p, reply) then Loop(st, stallAt, Some(Panicked))
      else HeardBlocks(c, st, Next(c, st, Answer(p, reply)), if AcceptedBy(c, st, Answer(p, reply)) > 0 then now + c.timeout else stallAt)
    case RequestFailed(p) => Loop(Next(c, st, Fail(p)), stallAt, None)
    case RecvError => Loop(st, stallAt, Some(ReceiveFailed))
    case _ => Loop(st, stallAt, None)
  }

  ghost function HeardBlocks(c: Setup, st: State, end: State, stallAt: nat): Loop {
    Loop(end, stallAt, if LedgerComplete(end.receivers, c.info.blockCount) then Some(AllReceived) else None)
  }

  ghost function Turn(c: Setup, overall: nat, l: Loop, tick: Tick, picks: Picks): Loop {
    if l.exit.Some? then l
    else if tick.atTop >= overall then l.(exit := Some(TimedOut))
    else AfterRound(c, Dispatched(c, l.st, tick, picks), l.stallAt, tick)
  }

  ghost function AfterRound(c: Setup, st: State, stallAt: nat, tick: Tick): Loop {
    if tick.atStall > stallAt then Loop(st, stallAt, Some(Stalled))
    else if Idle(st.sched) then Loop(st, stallAt, Some(NoProviders))
    else Heard(c, st, stallAt, tick.notice, tick.atNotice)
  }

  function PicksAt(w: Course, k: nat): Picks {
    if k < |w.picks| then w.picks[k] else []
  }

  ghost function Begun(w: Course): Loop {
    Loop(Next(w.c, Initial(w.c, w.offers), Dispatch(w.started, w.first)), w.started + w.c.timeout, None)
  }

  ghost function At(w: Course, k: nat): Loop
    requires k <= |w.ticks|
  {
    if k == 0 then Begun(w) else Turn(w.c, w.overall, At(w, k - 1), w.ticks[k - 1], PicksAt(w, k - 1))
  }

  // Turn k is begun: nothing before it ended the loop.
  ghost predicate Entered(w: Course, k: nat) {
    k < |w.ticks| && At(w, k).exit.None?
  }

  ghost predicate PickedWell(c: Setup, overall: nat, l: Loop, tick: Tick, picks: Picks) {
    l.exit.None? && tick.atTop < overall ==> IsDispatch(Requeued(c, l.st, tick).sched, c.maxInFlight, tick.atDispatch, picks)
  }

  ghost predicate PicksFit(w: Course, n: nat)
    requires n <= |w.ticks|
  {
    if n == 0 then IsDispatch(Initial(w.c, w.offers).sched, w.c.maxInFlight, w.started, w.first)
    else PicksFit(w, n - 1) && PickedWell(w.c, w.overall, At(w, n - 1), w.ticks[n - 1], PicksAt(w, n - 1))
  }

  // Every round's picks are ones the scheduler can make.
  ghost predicate IsCourse(w: Course) {
    PicksFit(w, |w.ticks|)
  }

  ghost function End(w: Course): State {
    At(w, |w.ticks|).st
  }

  // A script that runs out is one more receive error.
  ghost function ExitOf(w: Course): Exit {
    var l := At(w, |w.ticks|);
    if l.exit.None? then ReceiveFailed else l.exit.value
  }

  lemma {:induction false} SameSoFar(w: Course, v: Course, k: nat)
    requires k <= |w.ticks| && v == w.(picks := v.picks)
    requires forall j :: 0 <= j < k ==> PicksAt(v, j) == PicksAt(w, j)
    ensures At(v, k) == At(w, k)
  {
    if k > 0 {
      SameSoFar(w, v, k - 1);
    }
  }

  lemma {:induction false} SameFits(w: Course, v: Course, k: nat)
    requires k <= |w.ticks| && v == w.(picks := v.picks)
    requires forall j :: 0 <= j < k ==> PicksAt(v, j) == PicksAt(w, j)
    ensures PicksFit(v, k) == PicksFit(w, k)
  {
    if k > 0 {
      SameSoFar(w, v, k - 1);
      SameFits(w, v, k - 1);
    }
  }

  lemma {:induction false} FitsAt(w: Course, n: nat, k: nat)
    requires k < n <= |w.ticks| && PicksFit(w, n)
    ensures PickedWell(w.c, w.overall, At(w, k), w.ticks[k], PicksAt(w, k))
  {
    if k < n - 1 {
      FitsAt(w, n - 1, k);
    }
  }

  // Recording what turn k picked.
  lemma PickTurn(w: Course, k: nat, picks: Picks) returns (v: Course)
    requires k < |w.ticks| && |w.picks| == k && PicksFit(w, k)
    requires PickedWell(w.c, w.overall, At(w, k), w.ticks[k], picks)
    ensures v == w.(picks := v.picks) && |v.picks| == k + 1 && PicksFit(v, k + 1)
    ensures At(v, k + 1) == Turn(w.c, w.overall, At(w, k), w.ticks[k], picks)
  {
    v := w.(picks := w.picks + [picks]);
    SameSoFar(w, w.(picks := w.picks + [picks]), k);
    SameFits(w, w.(picks := w.picks + [picks]), k);
  }

  lemma {:induction false} EndedStays(w: Course, k: nat, n: nat)
    requires k <= n <= |w.ticks| && At(w, k).exit.Some?
    ensures At(w, n) == At(w, k)
  {
    if k < n {
      EndedStays(w, k, n - 1);
    }
  }

  // A course that has ended needs no further picks.
  lemma {:induction false} EndedFits(w: Course, k: nat, n: nat)
    requires k <= n <= |w.ticks| && PicksFit(w, k) && At(w, k).exit.Some?
    ensures PicksFit(w, n) && At(w, n) == At(w, k)
  {
    if k < n {
      EndedFits(w, k, n - 1);
    }
  }

  // ---- The method ----

  ghost function StateOf(sched: BlockScheduler, download: ActiveDownload): State
    reads sched, sched.blocks, download
  {
    State(sched.View(), download.receivers)
  }

  ghost predicate Serves(c: Setup, narHash: string, narSize: nat, download: ActiveDownload)
    reads download
  {
    download.h == c.h && download.info == c.info && download.narHash == narHash && download.narSize == narSize && download.Valid()
  }

  // A panic while recording a reply yields no result at all.
  method DownloadBlocksFromPeers(
      h: Hasher, narHash: string, narSize: nat, info: BlockInfo, handshakes: seq<Handshake>,
      requestTimeout: nat, stallTimeout: nat, maxInFlightConfig: nat,
      started: nat, ticks: seq<Tick>)
    returns (r: Option<Result<(Bytes, string), DownloadError>>, why: Exit, ghost w: Course)
    ensures w.c == Setup(h, info, Max(maxInFlightConfig, 1), stallTimeout) && w.offers == Offers(handshakes)
    ensures w.started == started && w.overall == started + OverallTimeoutSecs(requestTimeout, stallTimeout, narSize)
    ensures w.ticks == ticks && IsCourse(w)
    ensures why == ExitOf(w)
    ensures r.None? <==> why == Panicked
    ensures r.Some? ==> Outcome(w.c, narHash, narSize, End(w), r.value)
    ensures r.Some? && r.value.Ok? ==> IsVerifiedNar(h, narHash, narSize, r.value.value)
  {
    var maxInFlight := Max(maxInFlightConfig, 1);
    ghost var c := Setup(h, info, maxInFlight, stallTimeout);
    var download, sched := Begin(c, h, narHash, narSize, info, handshakes);
    var overallDeadline := started + OverallTimeoutSecs(requestTimeout, stallTimeout, narSize);
    var stallDeadline := started + stallTimeout;
    var dispatched, batches, first := sched.DispatchBlockRequests(started, maxInFlight);
    w := Course(c, Offers(handshakes), started, overallDeadline, first, ticks, []);
    var exit;
    exit, w := RunTurns(w, narHash, narSize, sched, download, ticks, overallDeadline, stallDeadline, stallTimeout, maxInFlight);
    why := if exit.None? then ReceiveFailed else exit.value;
    if why == Panicked {
      return None, why, w;
    }
    var result := Finish(c, download);
    if result.Ok? {
      ReturnedIsVerified(c, narHash, narSize, End(w), result.value.0, result.value.1);
    }
    r := Some(result);
  }

  method RunTurns(
      ghost begun: Course, ghost narHash: string, ghost narSize: nat, sched: BlockScheduler, download: ActiveDownload,
      ticks: seq<Tick>, overallDeadline: nat, firstDeadline: nat, stallTimeout: nat, maxInFlight: nat)
    returns (exit: Option<Exit>, ghost w: Course)
    requires begun.ticks == ticks && begun.picks == [] && PicksFit(begun, 0)
    requires Serves(begun.c, narHash, narSize, download) && StateOf(sched, download) == Begun(begun).st
    requires overallDeadline == begun.overall && firstDeadline == Begun(begun).stallAt
    requires stallTimeout == begun.c.timeout && maxInFlight == begun.c.maxInFlight
    modifies sched, sched.blocks, download
    ensures w == begun.(picks := w.picks) && IsCourse(w) && exit == At(w, |ticks|).exit
    ensures Serves(w.c, narHash, narSize, download)
    ensures exit != Some(Panicked) ==> StateOf(sched, download) == End(w)
  {
    w := begun;
    exit := None;
    var stallDeadline := firstDeadline;
    var k := 0;
    while k < |ticks| && exit.None?
      invariant k <= |ticks| && |w.picks| == k && w == begun.(picks := w.picks) && PicksFit(w, k)
      invariant Serves(w.c, narHash, narSize, download) && Follows(At(w, k), sched, download, exit, stallDeadline)
    {
      ghost var picks, l := [], At(w, k);
      exit, stallDeadline, picks := OneTurn(w.c, narHash, narSize, l, sched, download, ticks[k], overallDeadline, stallDeadline, stallTimeout, maxInFlight);
      w := PickTurn(w, k, picks);
      k := k + 1;
    }
    if exit.Some? {
      EndedFits(w, k, |ticks|);
    }
  }

  // The objects and variables are where the fold is.
  ghost predicate Follows(l: Loop, sched: BlockScheduler, download: ActiveDownload, exit: Option<Exit>, stallDeadline: nat)
    reads sched, sched.blocks, download
  {
    exit == l.exit && stallDeadline == l.stallAt && (exit != Some(Panicked) ==> StateOf(sched, download) == l.st)
  }

  // One pass of the loop body.
  method OneTurn(
      ghost c: Setup, ghost narHash: string, ghost narSize: nat, ghost l: Loop, sched: BlockScheduler, download: ActiveDownload,
      tick: Tick, overallDeadline: nat, stallDeadline: nat, stallTimeout: nat, maxInFlight: nat)
    returns (exit: Option<Exit>, newDeadline: nat, ghost picks: Picks)
    requires Serves(c, narHash, narSize, download) && Follows(l, sched, download, None, stallDeadline)
    requires stallTimeout == c.timeout && maxInFlight == c.maxInFlight
    modifies sched, sched.blocks, download
    ensures Serves(c, narHash, narSize, download)
    ensures PickedWell(c, overallDeadline, l, tick, picks)
    ensures Follows(Turn(c, overallDeadline, l, tick, picks), sched, download, exit, newDeadline)
  {
    newDeadline, picks := stallDeadline, [];
    if tick.atTop >= overallDeadline {
      return Some(TimedOut), newDeadline, picks;
    }
    var requeued := sched.RequeueExpiredBlocks(tick.atRequeue, stallTimeout);
    assert StateOf(sched, download) == Requeued(c, l.st, tick);
    var dispatched, batches;
    dispatched, batches, picks := sched.DispatchBlockRequests(tick.atDispatch, maxInFlight);
    ghost var st := Dispatched(c, l.st, tick, picks);
    assert StateOf(sched, download) == st;
    if tick.atStall > stallDeadline {
      return Some(Stalled), newDeadline, picks;
    }
    var inFlight := InFlightTotal(sched);
    var done := AllComplete(sched);
    if inFlight == 0 && !done {
      return Some(NoProviders), newDeadline, picks;
    }
    assert !Idle(st.sched);
    exit, newDeadline := Receive(c, narHash, narSize, st, sched, download, tick.notice, tick.atNotice, stallDeadline, stallTimeout);
  }

  method Receive(
      ghost c: Setup, ghost narHash: string, ghost narSize: nat, ghost st: State, sched: BlockScheduler, download: ActiveDownload,
      notice: Notice, now: nat, stallDeadline: nat, stallTimeout: nat)
    returns (exit: Option<Exit>, newDeadline: nat)
    requires Serves(c, narHash, narSize, download) && StateOf(sched, download) == st && stallTimeout == c.timeout
    modifies sched, sched.blocks, download
    ensures Serves(c, narHash, narSize, download)
    ensures Follows(Heard(c, st, stallDeadline, notice, now), sched, download, exit, newDeadline)
  {
    exit, newDeadline := None, stallDeadline;
    match notice {
      case BlocksFrom(peer, reply) =>
        var newlyAccepted, panicked := sched.RecordBlockResponse(download, peer, reply);
        if panicked {
          return Some(Panicked), newDeadline;
        }
        assert StateOf(sched, download) == Next(c, st, Answer(peer, reply));
        if newlyAccepted > 0 {
          newDeadline := now + stallTimeout;
        }
        var complete := download.IsComplete();
        if complete {
          exit := Some(AllReceived);
        }
      case RequestFailed(peer) =>
        var requeued := sched.RequeueInFlightBlocksForPeer(peer);
      case RecvError =>
        exit := Some(ReceiveFailed);
      case _ =>
    }
  }

  method Finish(ghost c: Setup, download: ActiveDownload) returns (r: Result<(Bytes, string), DownloadError>)
    requires download.Valid() && download.h == c.h && download.info == c.info
    ensures forall s :: Outcome(c, download.narHash, download.narSize, State(s, download.receivers), r)
  {
    var complete := download.IsComplete();
    if !complete {
      return Err(Incomplete);
    }
    var assembled := download.Assemble();
    match assembled {
      case Err(e) => r := Err(e);
      case Ok(nar) => r := Ok((nar, "sha256:" + Hex(download.h(nar))));
    }
    ghost var parts :| IsChoice(download.receivers, c.info.blockCount, parts) && assembled == Joined(c.h, download.narHash, download.narSize, parts);
    assert OutcomeOf(c, download.narHash, download.narSize, parts, r);
  }

  method Begin(ghost c: Setup, h: Hasher, narHash: string, narSize: nat, info: BlockInfo, handshakes: seq<Handshake>)
    returns (download: ActiveDownload, sched: BlockScheduler)
    requires c.h == h && c.info == info
    ensures fresh(download) && fresh(sched) && fresh(sched.blocks)
    ensures Serves(c, narHash, narSize, download) && StateOf(sched, download) == Initial(c, Offers(handshakes))
  {
    download := new ActiveDownload(h, narHash, narSize, info);
    var offered: map<PeerId, set<nat>> := map[];
    for k := 0 to |handshakes|
      invariant download.h == h && download.info == info && download.narHash == narHash && download.narSize == narSize
      invariant download.Valid() && fresh(download)
      invariant offered == Offers(handshakes[..k])
      invariant download.receivers == map p | p in offered :: seq(info.blockCount, _ => None)
    {
      assert handshakes[..k + 1][..k] == handshakes[..k];
      download.AddPeer(handshakes[k].peer);
      offered := offered[handshakes[k].peer := set i | i in handshakes[k].blocksAvailable];
    }
    assert handshakes[..|handshakes|] == handshakes;
    sched := new BlockScheduler(info.blockCount, offered);
  }

  // peer_states.values().map(|peer| peer.in_flight.len()).sum()
  method InFlightTotal(sched: BlockScheduler) returns (total: nat)
    ensures total == 0 <==> NothingCounted(sched.View())
  {
    total := 0;
    var rest := sched.peers.Keys;
    while rest != {}
      invariant rest <= sched.peers.Keys
      invariant total == 0 <==> forall p :: p in sched.peers.Keys - rest ==> sched.peers[p].inFlight == {}
      decreases rest
    {
      var p :| p in rest;
      total := total + |sched.peers[p].inFlight|;
      rest := rest - {p};
    }
  }

  method AllComplete(sched: BlockScheduler) returns (all: bool)
    ensures all <==> forall i :: 0 <= i < sched.blocks.Length ==> sched.blocks[i].Complete?
  {
    for i := 0 to sched.blocks.Length
      invariant forall j :: 0 <= j < i ==> sched.blocks[j].Complete?
    {
      if !sched.blocks[i].Complete? {
        return false;
      }
    }
    return true;
  }

  // Without any assumption on peers or payloads: data that is returned carries
  // the narinfo's hash, and its size when that is known.
  lemma ReturnedIsVerified(c: Setup, narHash: string, narSize: nat, end: State, nar: Bytes, text: string)
    requires Outcome(c, narHash, narSize, end, Ok((nar, text)))
    ensures IsVerifiedNar(c.h, narHash, narSize, (nar, text))
  {
    var parts :| IsChoice(end.receivers, c.info.blockCount, parts) && OutcomeOf(c, narHash, narSize, parts, Ok((nar, text)));
    AssembledIsVerified(c.h, narHash, narSize, parts, nar);
  }
}
