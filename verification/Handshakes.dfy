// One round of collecting handshake replies from the chosen peers. Its script is
// its clock readings and notifications.

module Handshakes {
  import opened Common
  import opened PeerTables

  datatype PeerHandshake = PeerHandshake(peer: PeerId, blocksAvailable: seq<nat>, blockHashes: seq<Digest>, blockCount: nat)

  datatype Notice = Replied(handshake: PeerHandshake) | Other | Quiet | RecvError

  datatype Tick = Tick(atTop: nat, notice: Notice, atNotice: nat)

  const HANDSHAKE_DEADLINE_SECS: nat := 15
  const RETRY_AFTER_SECS: nat := 3
  const MAX_ATTEMPTS: nat := 3

  // Per waiting peer: attempts so far and when the last one was sent.
  type Pending = map<PeerId, (nat, nat)>

  function PeersOf(results: seq<PeerHandshake>): (peers: seq<PeerId>)
    ensures |peers| == |results| && forall k :: 0 <= k < |results| ==> peers[k] == results[k].peer
  {
    seq(|results|, k requires 0 <= k < |results| => results[k].peer)
  }

  // ---- One round as a fold over its script ----

  datatype Script = Script(first: seq<PeerId>, table: Table, started: nat, ticks: seq<Tick>)

  datatype Round = Round(pending: Pending, results: seq<PeerHandshake>, sent: multiset<PeerId>, table: Table, over: bool)

  function Contacted(table: Table, first: seq<PeerId>, now: nat): Table {
    if first == [] then table
    else WithAttempt(Contacted(table, first[..|first| - 1], now), first[|first| - 1], now)
  }

  function Begun(s: Script): Round {
    Round(map p | p in s.first :: (1, s.started), [], multiset(s.first), Contacted(s.table, s.first, s.started), false)
  }

  predicate IsDue(entry: (nat, nat), now: nat) {
    entry.0 < MAX_ATTEMPTS && now - entry.1 >= RETRY_AFTER_SECS
  }

  function DuePeers(pending: Pending, now: nat): set<PeerId> {
    set p | p in pending && IsDue(pending[p], now)
  }

  // Whoever is due is asked again; every other entry stays.
  function Retried(pending: Pending, now: nat): Pending {
    map p | p in pending :: if IsDue(pending[p], now) then (pending[p].0 + 1, now) else pending[p]
  }

  function Heard(r: Round, notice: Notice, now: nat): Round {
    match notice
    case Replied(h) =>
      if h.peer in r.pending then
        r.(pending := r.pending - {h.peer}, results := r.results + [h], table := WithConnection(r.table, h.peer, now))
      else r
    case Quiet => r.(pending := Retried(r.pending, now), sent := r.sent + multiset(DuePeers(r.pending, now)))
    case RecvError => r.(over := true)
    case Other => r
  }

  function Turn(r: Round, max: nat, deadline: nat, tick: Tick): Round {
    if r.over then r
    else if r.pending == map[] || |r.results| >= max || tick.atTop >= deadline then r.(over := true)
    else Heard(r, tick.notice, tick.atNotice)
  }

  function Deadline(s: Script): nat {
    s.started + HANDSHAKE_DEADLINE_SECS
  }

  function At(s: Script, k: nat): Round
    requires k <= |s.ticks|
  {
    if k == 0 then Begun(s) else Turn(At(s, k - 1), |s.first|, Deadline(s), s.ticks[k - 1])
  }

  function End(s: Script): Round {
    At(s, |s.ticks|)
  }

  lemma {:induction false} OverStays(s: Script, k: nat, n: nat)
    requires k <= n <= |s.ticks| && At(s, k).over
    ensures At(s, n) == At(s, k)
  {
    if k < n {
      OverStays(s, k, n - 1);
      OverOnce(s, n - 1);
    }
  }

  lemma OverOnce(s: Script, k: nat)
    requires k < |s.ticks| && At(s, k).over
    ensures At(s, k + 1) == At(s, k)
  {
  }

  // One failure for each peer that never answered, and for nobody else.
  function Punished(scores: Scores, waiting: set<PeerId>, now: nat): Scores {
    map p | p in scores.Keys + waiting ::
      if p in waiting then WithFailure(scores, p, now)[p] else scores[p]
  }

  // ---- The methods ----

  method SendHandshakes(first: seq<PeerId>, conns: Connections, now: nat) returns (pending: Pending, ghost sent: multiset<PeerId>)
    modifies conns
    ensures pending == (map p | p in first :: (1, now)) && sent == multiset(first)
    ensures conns.peers == Contacted(old(conns.peers), first, now)
  {
    pending, sent := map[], multiset{};
    assert first[..0] == [];
    for i := 0 to |first|
      invariant pending == map p | p in first[..i] :: (1, now)
      invariant sent == multiset(first[..i])
      invariant conns.peers == Contacted(old(conns.peers), first[..i], now)
    {
      assert first[..i + 1] == first[..i] + [first[i]] && first[..i + 1][..i] == first[..i];
      conns.RecordAttempt(first[i], now);
      sent := sent + multiset{first[i]};
      pending := pending[first[i] := (1, now)];
    }
    assert first[..|first|] == first;
  }

  // A quiet second: ask again whoever was last asked three seconds ago or more.
  method RetryPending(was: Pending, now: nat) returns (pending: Pending, ghost due: set<PeerId>)
    ensures pending == Retried(was, now) && due == DuePeers(was, now)
  {
    pending, due := was, {};
    var rest := pending.Keys;
    while rest != {}
      invariant pending.Keys == was.Keys && rest <= was.Keys
      invariant forall p :: p in was ==> pending[p] == if p in rest then was[p] else Retried(was, now)[p]
      invariant due == set p | p in DuePeers(was, now) && p !in rest
      decreases rest
    {
      var p :| p in rest;
      if pending[p].0 < MAX_ATTEMPTS && now - pending[p].1 >= RETRY_AFTER_SECS {
        pending := pending[p := (pending[p].0 + 1, now)];
        due := due + {p};
      }
      rest := rest - {p};
    }
    MapsEqual(pending, Retried(was, now));
  }

  method PunishWaiting(waiting: set<PeerId>, rep: Reputation, now: nat)
    modifies rep
    ensures rep.peers == Punished(old(rep.peers), waiting, now)
  {
    var rest := waiting;
    MapsEqual(rep.peers, Punished(rep.peers, {}, now));
    while rest != {}
      invariant rest <= waiting && rep.peers == Punished(old(rep.peers), waiting - rest, now)
      decreases rest
    {
      var p :| p in rest;
      PunishOneMore(old(rep.peers), waiting - rest, p, now);
      rep.RecordFailure(p, now);
      assert waiting - rest + {p} == waiting - (rest - {p});
      rest := rest - {p};
    }
    assert waiting - {} == waiting;
  }

  lemma PunishOneMore(scores: Scores, done: set<PeerId>, p: PeerId, now: nat)
    requires p !in done
    ensures WithFailure(Punished(scores, done, now), p, now) == Punished(scores, done + {p}, now)
  {
    MapsEqual(WithFailure(Punished(scores, done, now), p, now), Punished(scores, done + {p}, now));
  }

  // One pass of the loop body.
  method OneTurn(was: Pending, before: seq<PeerHandshake>, ghost asked: multiset<PeerId>, conns: Connections, tick: Tick, ghost max: nat, deadline: nat)
    returns (pending: Pending, results: seq<PeerHandshake>, ghost sent: multiset<PeerId>, over: bool)
    requires was != map[] && |before| < max
    modifies conns
    ensures Round(pending, results, sent, conns.peers, over) == Turn(Round(was, before, asked, old(conns.peers), false), max, deadline, tick)
  {
    pending, results, sent, over := was, before, asked, false;
    if tick.atTop >= deadline {
      over := true;
    } else {
      match tick.notice {
        case Replied(h) =>
          if h.peer in pending {
            conns.OnConnected(h.peer, tick.atNotice);
            results, pending := results + [h], pending - {h.peer};
          }
        case Quiet =>
          ghost var due;
          pending, due := RetryPending(pending, tick.atNotice);
          sent := sent + multiset(due);
        case RecvError =>
          over := true;
        case Other =>
      }
    }
  }

  method HandshakeWithProviders(providers: seq<PeerId>, maxPeers: nat, rep: Reputation, conns: Connections, started: nat, ticks: seq<Tick>, endAt: nat)
    returns (results: seq<PeerHandshake>, ghost sent: multiset<PeerId>, ghost s: Script)
    modifies rep, conns
    ensures s == Script(Taken(providers, maxPeers), old(conns.peers), started, ticks)
    ensures results == End(s).results && sent == End(s).sent && conns.peers == End(s).table
    ensures rep.peers == Punished(old(rep.peers), End(s).pending.Keys, endAt)
  {
    var max := Min(|providers|, maxPeers);
    var first := providers[..max];
    s := Script(first, conns.peers, started, ticks);
    var pending;
    pending, sent := SendHandshakes(first, conns, started);
    results := [];
    var deadline := started + HANDSHAKE_DEADLINE_SECS;
    var k, over := 0, false;
    while k < |ticks| && !over && pending != map[] && |results| < max
      invariant k <= |ticks| && rep.peers == old(rep.peers)
      invariant At(s, k) == Round(pending, results, sent, conns.peers, over)
    {
      pending, results, sent, over := OneTurn(pending, results, sent, conns, ticks[k], max, deadline);
      k := k + 1;
    }
    LoopEnds(s, k, Round(pending, results, sent, conns.peers, over));
    PunishWaiting(pending.Keys, rep, endAt);
  }

  predicate SameOutcome(a: Round, b: Round) {
    a == b.(over := a.over)
  }

  lemma LoopEnds(s: Script, k: nat, r: Round)
    requires k <= |s.ticks| && At(s, k) == r
    requires k == |s.ticks| || r.over || r.pending == map[] || |r.results| >= |s.first|
    ensures SameOutcome(End(s), r)
  {
    if k < |s.ticks| {
      if r.over {
        OverStays(s, k, |s.ticks|);
      } else {
        OverStays(s, k + 1, |s.ticks|);
      }
    }
  }

  // ---- What a round did ----

  // Everybody contacted either waits or has answered, and answered once.
  ghost predicate Accounted(first: seq<PeerId>, r: Round) {
    && Distinct(PeersOf(r.results))
    && (forall p :: p in first <==> p in r.pending || p in PeersOf(r.results))
    && (forall p :: p in r.pending ==> p !in PeersOf(r.results))
  }

  // Every peer was sent its first requests and at most two retries.
  ghost predicate SentFits(first: seq<PeerId>, r: Round) {
    && (forall p :: p in r.pending ==> p in first && 1 <= r.pending[p].0 <= MAX_ATTEMPTS && r.sent[p] == multiset(first)[p] + r.pending[p].0 - 1)
    && (forall p :: p in first ==> multiset(first)[p] <= r.sent[p] <= multiset(first)[p] + MAX_ATTEMPTS - 1)
    && (forall p :: p !in first ==> r.sent[p] == 0)
  }

  lemma HeardAccounts(first: seq<PeerId>, r: Round, notice: Notice, now: nat)
    requires Accounted(first, r)
    ensures Accounted(first, Heard(r, notice, now))
  {
    if notice.Replied? && notice.handshake.peer in r.pending {
      assert PeersOf(r.results + [notice.handshake]) == PeersOf(r.results) + [notice.handshake.peer];
    }
  }

  lemma HeardSends(first: seq<PeerId>, r: Round, notice: Notice, now: nat)
    requires SentFits(first, r)
    ensures SentFits(first, Heard(r, notice, now))
  {
  }

  lemma TurnAccounts(first: seq<PeerId>, r: Round, max: nat, deadline: nat, tick: Tick)
    requires Accounted(first, r)
    ensures Accounted(first, Turn(r, max, deadline, tick))
  {
    HeardAccounts(first, r, tick.notice, tick.atNotice);
  }

  lemma BegunAccounts(s: Script)
    ensures Accounted(s.first, Begun(s))
  {
    assert PeersOf([]) == [];
  }

  lemma {:induction false} RoundAccounts(s: Script, k: nat)
    requires k <= |s.ticks|
    ensures Accounted(s.first, At(s, k))
  {
    if k > 0 {
      RoundAccounts(s, k - 1);
      TurnAccounts(s.first, At(s, k - 1), |s.first|, Deadline(s), s.ticks[k - 1]);
    } else {
      BegunAccounts(s);
    }
  }

  lemma TurnSends(first: seq<PeerId>, r: Round, max: nat, deadline: nat, tick: Tick)
    requires SentFits(first, r)
    ensures SentFits(first, Turn(r, max, deadline, tick))
  {
    HeardSends(first, r, tick.notice, tick.atNotice);
  }

  // Nobody is asked less than once or more than two times more than at first.
  lemma {:induction false} RoundSends(s: Script, k: nat)
    requires k <= |s.ticks|
    ensures SentFits(s.first, At(s, k))
  {
    if k > 0 {
      RoundSends(s, k - 1);
      TurnSends(s.first, At(s, k - 1), |s.first|, Deadline(s), s.ticks[k - 1]);
    }
  }

  // A round is over everywhere only when its deadline passed or receiving failed,
  // or when nobody is left to wait for.
  predicate Live(s: Script, k: nat)
    requires k <= |s.ticks|
  {
    forall j :: 0 <= j < k ==> s.ticks[j].atTop < Deadline(s) && !s.ticks[j].notice.RecvError?
  }

  // The notification of this tick comes before the deadline and any receive error.
  predicate Reached(s: Script, k: nat) {
    k < |s.ticks| && Live(s, k) && s.ticks[k].atTop < Deadline(s)
  }

  predicate ReplyFrom(s: Script, k: nat, p: PeerId) {
    Reached(s, k) && s.ticks[k].notice.Replied? && s.ticks[k].notice.handshake.peer == p
  }

  predicate HasReply(s: Script, k: nat, p: PeerId) {
    exists j :: 0 <= j < k && ReplyFrom(s, j, p)
  }

  function Members(a: seq<PeerId>): (m: set<PeerId>)
    ensures |m| <= |a| && (Distinct(a) ==> |m| == |a|)
    ensures forall p :: p in m <==> p in a
  {
    if a == [] then {}
    else
      assert a == a[..|a| - 1] + [a[|a| - 1]];
      Members(a[..|a| - 1]) + {a[|a| - 1]}
  }

  // While somebody waits, there is room for his answer.
  lemma RoomWhileWaiting(first: seq<PeerId>, r: Round, p: PeerId)
    requires Accounted(first, r) && p in r.pending
    ensures |r.results| < |first|
  {
    var answered, all := Members(PeersOf(r.results)), Members(first);
    assert answered <= all - {p};
    SubsetCard(answered, all - {p});
  }

  ghost predicate OverMeans(s: Script, k: nat)
    requires k <= |s.ticks|
  {
    At(s, k).over ==> At(s, k).pending == map[] || !Live(s, k)
  }

  lemma OverMeansNext(s: Script, k: nat)
    requires k < |s.ticks| && OverMeans(s, k)
    ensures OverMeans(s, k + 1)
  {
    var r := At(s, k);
    RoundAccounts(s, k);
    assert Live(s, k + 1) ==> Live(s, k) && s.ticks[k].atTop < Deadline(s) && !s.ticks[k].notice.RecvError?;
    if r.pending != map[] {
      var p :| p in r.pending;
      RoomWhileWaiting(s.first, r, p);
    }
  }

  lemma {:induction false} OverOnlyThen(s: Script, k: nat)
    requires k <= |s.ticks|
    ensures OverMeans(s, k)
  {
    if k > 0 {
      OverOnlyThen(s, k - 1);
      OverMeansNext(s, k - 1);
    }
  }

  // While p waits and the script is live, its reply is heard.
  lemma ReplyIsHeard(s: Script, k: nat, p: PeerId)
    requires ReplyFrom(s, k, p) && p in At(s, k).pending
    ensures At(s, k + 1) == Heard(At(s, k), s.ticks[k].notice, s.ticks[k].atNotice)
  {
    OverOnlyThen(s, k);
    RoundAccounts(s, k);
    RoomWhileWaiting(s.first, At(s, k), p);
  }

  // A result comes from a reply that was reached.
  lemma HeardIsReached(s: Script, k: nat)
    requires k < |s.ticks| && At(s, k + 1).results != At(s, k).results
    ensures s.ticks[k].notice.Replied? && s.ticks[k].notice.handshake.peer in At(s, k).pending
    ensures At(s, k + 1).results == At(s, k).results + [s.ticks[k].notice.handshake]
    ensures ReplyFrom(s, k, s.ticks[k].notice.handshake.peer)
  {
    NotOverIsLive(s, k);
  }

  ghost predicate LiveUnlessOver(s: Script, k: nat)
    requires k <= |s.ticks|
  {
    At(s, k).over || Live(s, k)
  }

  lemma {:induction false} NotOverIsLive(s: Script, k: nat)
    requires k <= |s.ticks|
    ensures LiveUnlessOver(s, k)
  {
    if k > 0 {
      NotOverIsLive(s, k - 1);
      NotOverNext(s, k - 1);
    }
  }

  lemma NotOverNext(s: Script, k: nat)
    requires k < |s.ticks| && LiveUnlessOver(s, k)
    ensures LiveUnlessOver(s, k + 1)
  {
  }

  ghost predicate AnsweredBy(s: Script, k: nat, p: PeerId)
    requires k <= |s.ticks|
  {
    p in PeersOf(At(s, k).results) <==> p in s.first && HasReply(s, k, p)
  }

  lemma AnsweredNext(s: Script, k: nat, p: PeerId)
    requires k < |s.ticks| && AnsweredBy(s, k, p)
    ensures AnsweredBy(s, k + 1, p)
  {
    RoundAccounts(s, k);
    assert HasReply(s, k + 1, p) <==> HasReply(s, k, p) || ReplyFrom(s, k, p);
    var r, n := At(s, k), At(s, k + 1);
    if ReplyFrom(s, k, p) && p in r.pending {
      ReplyIsHeard(s, k, p);
    }
    if n.results != r.results {
      HeardIsReached(s, k);
      assert PeersOf(n.results) == PeersOf(r.results) + [s.ticks[k].notice.handshake.peer];
    }
  }

  lemma {:induction false} AnsweredAt(s: Script, k: nat, p: PeerId)
    requires k <= |s.ticks|
    ensures AnsweredBy(s, k, p)
  {
    if k > 0 {
      AnsweredAt(s, k - 1, p);
      AnsweredNext(s, k - 1, p);
    } else {
      assert !HasReply(s, 0, p);
    }
  }

  // A contacted peer is among the results exactly when a reply of his arrives
  // before the deadline and before a receive error.
  lemma AnsweredIff(s: Script, p: PeerId)
    ensures p in PeersOf(End(s).results) <==> p in s.first && HasReply(s, |s.ticks|, p)
  {
    AnsweredAt(s, |s.ticks|, p);
  }

  // It is his first reply that counts.
  predicate FirstReply(s: Script, k: nat, h: PeerHandshake) {
    ReplyFrom(s, k, h.peer) && s.ticks[k].notice == Replied(h) && !HasReply(s, k, h.peer)
  }

  predicate CameFirst(s: Script, k: nat, h: PeerHandshake) {
    exists j :: 0 <= j < k && FirstReply(s, j, h)
  }

  ghost predicate FromFirstReplies(s: Script, k: nat)
    requires k <= |s.ticks|
  {
    forall h :: h in At(s, k).results ==> CameFirst(s, k, h)
  }

  lemma {:induction false} FirstReplyCounts(s: Script, k: nat)
    requires k <= |s.ticks|
    ensures FromFirstReplies(s, k)
  {
    if k > 0 {
      FirstReplyCounts(s, k - 1);
      FirstRepliesNext(s, k - 1);
    }
  }

  lemma FirstRepliesNext(s: Script, k: nat)
    requires k < |s.ticks| && FromFirstReplies(s, k)
    ensures FromFirstReplies(s, k + 1)
  {
    if At(s, k + 1).results != At(s, k).results {
      HeardIsReached(s, k);
      NewIsFirst(s, k, s.ticks[k].notice.handshake);
    }
    forall h | h in At(s, k).results
      ensures CameFirst(s, k + 1, h)
    {
      assert CameFirst(s, k, h);
    }
  }

  lemma NewIsFirst(s: Script, k: nat, h: PeerHandshake)
    requires ReplyFrom(s, k, h.peer) && s.ticks[k].notice == Replied(h) && h.peer in At(s, k).pending
    ensures CameFirst(s, k + 1, h)
  {
    RoundAccounts(s, k);
    AnsweredAt(s, k, h.peer);
    assert FirstReply(s, k, h);
  }

  // Who answered is connected, with his attempts reset; who was only asked has
  // his attempts counted; nobody else's entry changes.
  ghost predicate TableFits(s: Script, r: Round) {
    forall p ::
      if p in PeersOf(r.results) then p in r.table && r.table[p].retryCount == 0 && r.table[p].connected
      else if p in s.first then
        p in r.table && r.table[p] == StateIn(s.table, p, s.started).(
          retryCount := StateIn(s.table, p, s.started).retryCount + multiset(s.first)[p], lastAttempt := s.started)
      else (p in r.table <==> p in s.table) && (p in s.table ==> r.table[p] == s.table[p])
  }

  lemma {:induction false} ContactedIs(table: Table, first: seq<PeerId>, now: nat, p: PeerId)
    ensures if p in first then
              p in Contacted(table, first, now) && Contacted(table, first, now)[p] == StateIn(table, p, now).(
                retryCount := StateIn(table, p, now).retryCount + multiset(first)[p], lastAttempt := now)
            else
              (p in Contacted(table, first, now) <==> p in table) && (p in table ==> Contacted(table, first, now)[p] == table[p])
  {
    if first != [] {
      var n := |first| - 1;
      ContactedIs(table, first[..n], now, p);
      assert first == first[..n] + [first[n]];
      assert multiset(first) == multiset(first[..n]) + multiset{first[n]};
    }
  }

  lemma {:induction false} TableIs(s: Script, k: nat)
    requires k <= |s.ticks|
    ensures TableFits(s, At(s, k))
  {
    if k > 0 {
      TableIs(s, k - 1);
      TableNext(s, At(s, k - 1), |s.first|, Deadline(s), s.ticks[k - 1]);
    } else {
      forall p {
        ContactedIs(s.table, s.first, s.started, p);
      }
    }
  }

  lemma TableNext(s: Script, r: Round, max: nat, deadline: nat, tick: Tick)
    requires TableFits(s, r)
    ensures TableFits(s, Turn(r, max, deadline, tick))
  {
    if tick.notice.Replied? {
      assert PeersOf(r.results + [tick.notice.handshake]) == PeersOf(r.results) + [tick.notice.handshake.peer];
    }
  }

  // What a contacted peer's score gains from the round.
  lemma PunishedIff(s: Script, scores: Scores, now: nat, p: PeerId)
    ensures ScoreIn(Punished(scores, End(s).pending.Keys, now), p, now).failed
         == ScoreIn(scores, p, now).failed + (if p in s.first && !HasReply(s, |s.ticks|, p) then 1 else 0)
  {
    RoundAccounts(s, |s.ticks|);
    AnsweredIff(s, p);
  }
}
