// The swarm's answer to one substitute request: the handshakes that were gathered,
// the geometry taken from the first of them, the block download, and the reward.

module SwarmDownload {
  import opened Common
  import opened Blocks
  import opened Ledger
  import opened PeerTables
  import opened Handshakes
  import opened Gathering
  import opened Serving
  import DownloadLoop
  import Invariants
  import LoopResults
  import LoneDownload
  import NixBase32
  import Relay
  import Substitute
  import SubstituteSession

  datatype SwarmConfig = SwarmConfig(gather: GatherConfig, blockSize: nat, requestTimeout: nat, stallTimeout: nat, maxInFlight: nat)

  // The narinfo's hash and size, and the clock and script of the block download.
  datatype Job = Job(h: Hasher, narHash: string, narSize: nat, started: nat, ticks: seq<DownloadLoop.Tick>, rewardAt: nat)

  function Enough(g: GatherConfig, r: Gathering): bool {
    |HandshakesOf(r)| >= if End(r.second).results != [] then 1 else g.minProviders
  }

  // Nothing to start from only when the size is unknown and nobody answered.
  function InfoFrom(handshakes: seq<PeerHandshake>, narSize: nat, blockSize: nat): Option<BlockInfo>
    requires blockSize > 0
  {
    if handshakes != [] then Some(DownloadBlockInfo(narSize, blockSize, handshakes[0].blockCount, handshakes[0].blockHashes))
    else if narSize > 0 then Some(FromFileSize(narSize, blockSize))
    else None
  }

  function Starts(s: SwarmConfig, j: Job, r: Gathering): bool
    requires s.blockSize > 0
  {
    Enough(s.gather, r) && InfoFrom(HandshakesOf(r), j.narSize, s.blockSize).Some?
  }

  // w is a course of the block download this gathering leads to.
  ghost predicate Downloads(s: SwarmConfig, j: Job, r: Gathering, w: DownloadLoop.Course)
    requires s.blockSize > 0
  {
    && Starts(s, j, r) && DownloadLoop.IsCourse(w)
    && w.c == Invariants.Setup(j.h, InfoFrom(HandshakesOf(r), j.narSize, s.blockSize).value, Max(s.maxInFlight, 1), s.stallTimeout)
    && w.offers == DownloadLoop.Offers(AsOffers(HandshakesOf(r)))
    && w.started == j.started && w.ticks == j.ticks
    && w.overall == j.started + DownloadLoop.OverallTimeoutSecs(s.requestTimeout, s.stallTimeout, j.narSize)
  }

  // The nar of an answer is what the download's ledger came to; a panic has none.
  ghost predicate Brings(j: Job, w: DownloadLoop.Course, a: Substitute.P2pAnswer) {
    && (a.panicked <==> DownloadLoop.ExitOf(w) == DownloadLoop.Panicked)
    && (a.panicked ==> a.nar.None?)
    && (!a.panicked ==> exists result :: Comes(j, w, a, result))
  }

  ghost predicate Comes(j: Job, w: DownloadLoop.Course, a: Substitute.P2pAnswer, result: Result<(Bytes, string), DownloadError>) {
    && DownloadLoop.Outcome(w.c, j.narHash, j.narSize, DownloadLoop.End(w), result)
    && a.nar == if result.Ok? then Some(result.value.0) else None
  }

  // Without enough handshakes there is no download, no nar and no panic.
  ghost predicate Answers(s: SwarmConfig, j: Job, r: Gathering, w: Option<DownloadLoop.Course>, a: Substitute.P2pAnswer)
    requires s.blockSize > 0
  {
    && (a.triedFallback <==> r.second.first != [])
    && (w.Some? <==> Starts(s, j, r))
    && if w.Some? then Downloads(s, j, r, w.value) && Brings(j, w.value, a) else !a.panicked && a.nar.None?
  }

  // Whoever gave a handshake is rewarded for a nar that came, and for nothing else.
  function Settled(j: Job, r: Gathering, a: Substitute.P2pAnswer): Tables {
    if a.nar.None? then r.end
    else
      var peers := PeersOf(HandshakesOf(r));
      r.end.(scores := Rewarded(r.end.scores, peers, |a.nar.value|, j.rewardAt), table := Activated(r.end.table, peers, j.rewardAt))
  }

  method TryP2pDownload(s: SwarmConfig, j: Job, x: Intake, rep: Reputation, conns: Connections)
    returns (a: Substitute.P2pAnswer, ghost connected: seq<PeerId>, ghost w: Option<DownloadLoop.Course>)
    requires s.blockSize > 0
    modifies rep, conns
    ensures var r := Gathered(s.gather, old(TablesOf(rep, conns)), x, connected);
            AreConnected(connected, r.mid.table) && Answers(s, j, r, w, a) && TablesOf(rep, conns) == Settled(j, r, a)
  {
    ghost var t := TablesOf(rep, conns);
    var handshakes, tried, fellBack, enough;
    handshakes, tried, fellBack, enough, connected := GatherHandshakes(s.gather, x, rep, conns);
    ghost var r := Gathered(s.gather, t, x, connected);
    w := None;
    a := Substitute.P2pAnswer(tried, false, None);
    var info := InfoFrom(handshakes, j.narSize, s.blockSize);
    if enough && info.Some? {
      var panicked, nar;
      panicked, nar, w := FetchBlocks(s, j, info.value, handshakes);
      a := Substitute.P2pAnswer(tried, panicked, nar);
      if nar.Some? {
        RewardProviders(PeersOf(handshakes), |nar.value|, rep, conns, j.rewardAt);
      }
      BringsSame(j, w.value, Substitute.P2pAnswer(false, panicked, nar), a);
    }
  }

  method FetchBlocks(s: SwarmConfig, j: Job, info: BlockInfo, handshakes: seq<PeerHandshake>)
    returns (panicked: bool, nar: Option<Bytes>, ghost w: Option<DownloadLoop.Course>)
    ensures w.Some? && DownloadLoop.IsCourse(w.value) && Brings(j, w.value, Substitute.P2pAnswer(false, panicked, nar))
    ensures w.value.c == Invariants.Setup(j.h, info, Max(s.maxInFlight, 1), s.stallTimeout)
    ensures w.value.offers == DownloadLoop.Offers(AsOffers(handshakes)) && w.value.started == j.started && w.value.ticks == j.ticks
    ensures w.value.overall == j.started + DownloadLoop.OverallTimeoutSecs(s.requestTimeout, s.stallTimeout, j.narSize)
  {
    ghost var course;
    var result, why;
    result, why, course := DownloadLoop.DownloadBlocksFromPeers(
      j.h, j.narHash, j.narSize, info, AsOffers(handshakes), s.requestTimeout, s.stallTimeout, s.maxInFlight, j.started, j.ticks);
    w := Some(course);
    panicked := result.None?;
    nar := if result.Some? && result.value.Ok? then Some(result.value.value.0) else None;
    if result.Some? {
      assert Comes(j, course, Substitute.P2pAnswer(false, panicked, nar), result.value);
    }
  }

  lemma BringsSame(j: Job, w: DownloadLoop.Course, a: Substitute.P2pAnswer, b: Substitute.P2pAnswer)
    requires Brings(j, w, a) && b.panicked == a.panicked && b.nar == a.nar
    ensures Brings(j, w, b)
  {
    if !a.panicked {
      var result :| Comes(j, w, a, result);
      assert Comes(j, w, b, result);
    }
  }

  // ---- What the answer can be ----

  // A swarm nar has the narinfo's hash, its size when that is known, and is the
  // nar a session may call sourced from the swarm.
  lemma SwarmNarIsVerified(s: SwarmConfig, j: Job, r: Gathering, w: Option<DownloadLoop.Course>, a: Substitute.P2pAnswer)
    requires s.blockSize > 0 && Answers(s, j, r, w, a) && a.nar.Some?
    ensures w.Some? && NarHashMatches(j.h, j.narHash, a.nar.value) && (j.narSize > 0 ==> |a.nar.value| == j.narSize)
    ensures DownloadLoop.Outcome(w.value.c, j.narHash, j.narSize, DownloadLoop.End(w.value),
                                 Ok((a.nar.value, "sha256:" + Hex(j.h(a.nar.value)))))
  {
    var result :| Comes(j, w.value, a, result);
    DownloadLoop.ReturnedIsVerified(w.value.c, j.narHash, j.narSize, DownloadLoop.End(w.value), result.value.0, result.value.1);
  }

  // The request panics exactly when a download was started and a peer of it, in time
  // to be heard, named a block that has no hash in the first handshake.
  lemma SwarmPanicsIff(s: SwarmConfig, j: Job, r: Gathering, w: Option<DownloadLoop.Course>, a: Substitute.P2pAnswer)
    requires s.blockSize > 0 && Answers(s, j, r, w, a)
    ensures a.panicked <==>
            w.Some? && exists k :: 0 <= k < |j.ticks| && LoopResults.Panics(LoopResults.PassAt(w.value, k), w.value.offers)
  {
    if w.Some? {
      LoopResults.ExitReasons(w.value);
    }
  }

  // With an honest first handshake there is no panic, and the nar comes exactly when
  // the download received everything.
  lemma HonestSwarmAnswer(s: SwarmConfig, j: Job, r: Gathering, w: Option<DownloadLoop.Course>, a: Substitute.P2pAnswer, data: Bytes, size: nat)
    requires s.blockSize > 0 && Answers(s, j, r, w, a) && Starts(s, j, r)
    requires HashesOf(j.h, InfoFrom(HandshakesOf(r), j.narSize, s.blockSize).value, data, size)
    requires LoopResults.HonestNotices(j.h, j.ticks, data, size)
    requires NarHashMatches(j.h, j.narHash, data) && (j.narSize == 0 || j.narSize == |data|)
    ensures !a.panicked && a.nar == if DownloadLoop.ExitOf(w.value) == DownloadLoop.AllReceived then Some(data) else None
  {
    var result: Result<(Bytes, string), DownloadError>;
    if a.panicked {
      NotPanicked(w.value, data, size);
    } else {
      result :| Comes(j, w.value, a, result);
      LoopResults.HonestOutcome(w.value, data, size, j.narHash, j.narSize, result);
    }
  }

  lemma NotPanicked(w: DownloadLoop.Course, data: Bytes, size: nat)
    requires DownloadLoop.IsCourse(w) && HashesOf(w.c.h, w.c.info, data, size)
    ensures DownloadLoop.ExitOf(w) != DownloadLoop.Panicked
  {
    LoneDownload.LongEnoughNeverPanics(w);
  }

  // So a request whose swarm answer comes from here, and whose HTTP answer from the
  // HTTP download, reports a mismatch exactly for an HTTP nar that was not verified.
  lemma SwarmMismatchIff(s: SwarmConfig, j: Job, r: Gathering, w: Option<DownloadLoop.Course>, mode: Relay.Mode, capacity: nat,
                         q: Substitute.Request, info: Substitute.Narinfo, expected: Bytes, x: SubstituteSession.HttpRun)
    requires s.blockSize > 0 && Answers(s, j, r, w, q.p2p) && Substitute.Known(q) == Some(info)
    requires NixBase32.Sha256Spec(info.narHash) == NixBase32.Decoded(expected) && j.narHash == Hex(expected) && j.narSize == info.narSize
    requires SubstituteSession.HttpResolved(j.h, expected, x)
    requires q.http.nar == if x.r.Ok? then Some((x.r.value.data, x.r.value.sourceUrl)) else None
    ensures var f := Substitute.Fetched(q, info);
            Substitute.Answered(j.h, mode, capacity, q).ending.WrongHash? <==>
              !f.panicked && f.nar.Some? && f.nar.value.source == Substitute.Http && !SubstituteSession.HttpVerified(x.r)
  {
    var c := if w.Some? then w.value.c else Invariants.Setup(j.h, FromFileSize(0, 1), 1, 0);
    var end := if w.Some? then DownloadLoop.End(w.value) else Invariants.Initial(c, map[]);
    var text := if q.p2p.nar.Some? then "sha256:" + Hex(j.h(q.p2p.nar.value)) else "";
    if q.p2p.nar.Some? {
      SwarmNarIsVerified(s, j, r, w, q.p2p);
    }
    SubstituteSession.MismatchIff(mode, capacity, q, info, expected, end, c, text, x);
  }
}
