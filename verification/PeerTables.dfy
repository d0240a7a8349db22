// Whom to ask: peer lists, reputation, connection backoff, and the selection that
// combines them. Scores are abstract numbers; clock readings are inputs.

module PeerTables {
  import opened Common
  import opened StableSort

  // ---- Peer lists ----

  // The first occurrence of every peer, in order.
  function FirstOccurrences(peers: seq<PeerId>): (r: seq<PeerId>)
    ensures Distinct(r)
    ensures forall p :: p in r <==> p in peers
  {
    if peers == [] then []
    else
      var front, last := FirstOccurrences(peers[..|peers| - 1]), peers[|peers| - 1];
      assert peers == peers[..|peers| - 1] + [last];
      if last in front then front else front + [last]
  }

  function MergeProviderLists(left: seq<PeerId>, right: seq<PeerId>): seq<PeerId> {
    FirstOccurrences(left + right)
  }

  lemma {:induction false} FirstOccurrencesStay(left: seq<PeerId>, right: seq<PeerId>)
    requires Distinct(left)
    ensures left <= FirstOccurrences(left + right)
    decreases |left| + |right|
  {
    var all := left + right;
    if right != [] {
      assert all[..|all| - 1] == left + right[..|right| - 1];
      FirstOccurrencesStay(left, right[..|right| - 1]);
    } else {
      assert all == left;
      FirstOccurrencesAreAll(left);
    }
  }

  lemma {:induction false} FirstOccurrencesAreAll(peers: seq<PeerId>)
    requires Distinct(peers)
    ensures FirstOccurrences(peers) == peers
  {
    if peers != [] {
      FirstOccurrencesAreAll(peers[..|peers| - 1]);
    }
  }

  lemma MergeKeepsFirst(left: seq<PeerId>, right: seq<PeerId>)
    ensures Distinct(MergeProviderLists(left, right))
    ensures forall p :: p in MergeProviderLists(left, right) <==> p in left || p in right
    ensures Distinct(left) ==> left <= MergeProviderLists(left, right)
  {
    if Distinct(left) {
      FirstOccurrencesStay(left, right);
    }
  }

  function ExcludePeers(peers: seq<PeerId>, exclude: seq<PeerId>): (r: seq<PeerId>)
    ensures forall p :: p in r <==> p in peers && p !in exclude
    ensures Distinct(peers) ==> Distinct(r)
  {
    if peers == [] then []
    else
      var front, last := ExcludePeers(peers[..|peers| - 1], exclude), peers[|peers| - 1];
      assert peers == peers[..|peers| - 1] + [last];
      if last in exclude then front else front + [last]
  }

  // ---- Reputation ----

  datatype PeerScore = PeerScore(completed: nat, failed: nat, bytesServed: nat, lastSeen: nat)

  type Scores = map<PeerId, PeerScore>

  function ScoreIn(scores: Scores, p: PeerId, now: nat): PeerScore {
    if p in scores then scores[p] else PeerScore(0, 0, 0, now)
  }

  function Failed(scores: Scores, p: PeerId): nat {
    if p in scores then scores[p].failed else 0
  }

  // The entry of p is there, and every other entry is as it was.
  ghost predicate OnlyChanged<T>(before: map<PeerId, T>, after: map<PeerId, T>, p: PeerId) {
    after.Keys == before.Keys + {p} && forall q :: q in before && q != p ==> after[q] == before[q]
  }

  function WithFailure(scores: Scores, p: PeerId, now: nat): Scores {
    var s := ScoreIn(scores, p, now);
    scores[p := s.(failed := s.failed + 1, lastSeen := now)]
  }

  function WithSuccess(scores: Scores, p: PeerId, bytes: nat, now: nat): Scores {
    var s := ScoreIn(scores, p, now);
    scores[p := s.(completed := s.completed + 1, bytesServed := s.bytesServed + bytes, lastSeen := now)]
  }

  predicate Banned(scores: Scores, banThreshold: nat, p: PeerId) {
    p in scores && scores[p].failed >= banThreshold
  }

  class Reputation {
    const banThreshold: nat
    var peers: Scores

    constructor (banThreshold: nat)
      ensures this.banThreshold == banThreshold && peers == map[]
    {
      this.banThreshold, peers := banThreshold, map[];
    }

    method RecordFailure(p: PeerId, now: nat)
      modifies this
      ensures OnlyChanged(old(peers), peers, p)
      ensures peers[p].failed == Failed(old(peers), p) + 1 && peers[p].lastSeen == now
      ensures p in old(peers) ==> peers[p].completed == old(peers)[p].completed && peers[p].bytesServed == old(peers)[p].bytesServed
      ensures p !in old(peers) ==> peers[p].completed == 0 && peers[p].bytesServed == 0
      ensures peers == WithFailure(old(peers), p, now)
    {
      var entry := ScoreIn(peers, p, now);
      peers := peers[p := entry.(failed := entry.failed + 1, lastSeen := now)];
    }

    method RecordSuccess(p: PeerId, bytes: nat, now: nat)
      modifies this
      ensures OnlyChanged(old(peers), peers, p)
      ensures peers[p].failed == Failed(old(peers), p) && peers[p].lastSeen == now
      ensures p in old(peers) ==> peers[p].completed == old(peers)[p].completed + 1 && peers[p].bytesServed == old(peers)[p].bytesServed + bytes
      ensures p !in old(peers) ==> peers[p].completed == 1 && peers[p].bytesServed == bytes
      ensures peers == WithSuccess(old(peers), p, bytes, now)
    {
      var entry := ScoreIn(peers, p, now);
      peers := peers[p := entry.(completed := entry.completed + 1, bytesServed := entry.bytesServed + bytes, lastSeen := now)];
    }
  }

  function Unbanned(scores: Scores, banThreshold: nat, providers: seq<PeerId>): (r: seq<PeerId>)
    ensures forall p :: p in r <==> p in providers && !Banned(scores, banThreshold, p)
    ensures Distinct(providers) ==> Distinct(r)
    ensures |r| <= |providers|
  {
    if providers == [] then []
    else
      var front, last := Unbanned(scores, banThreshold, providers[..|providers| - 1]), providers[|providers| - 1];
      assert providers == providers[..|providers| - 1] + [last];
      if Banned(scores, banThreshold, last) then front else front + [last]
  }

  // best_peers: the unbanned ones, best score first, at most max of them.
  function BestPeers(scores: Scores, banThreshold: nat, score: PeerId -> int, providers: seq<PeerId>, max: nat): seq<PeerId> {
    var ranked := Descending(score, Unbanned(scores, banThreshold, providers));
    ranked[..Min(max, |ranked|)]
  }

  // ---- Connections ----

  datatype PeerState = PeerState(retryCount: nat, lastAttempt: nat, lastActive: nat, connected: bool)

  type Table = map<PeerId, PeerState>

  datatype ConnectionConfig = ConnectionConfig(maxRetries: nat, backoffBase: nat, maxPeers: nat)

  predicate BackoffExpired(config: ConnectionConfig, s: PeerState, now: nat) {
    now - s.lastAttempt >= config.backoffBase * Pow2(Min(s.retryCount, 6))
  }

  predicate CanConnect(config: ConnectionConfig, table: Table, p: PeerId, now: nat) {
    |table| < config.maxPeers && (p in table ==> table[p].retryCount < config.maxRetries || BackoffExpired(config, table[p], now))
  }

  function StateIn(table: Table, p: PeerId, now: nat): PeerState {
    if p in table then table[p] else PeerState(0, now, now, false)
  }

  function WithAttempt(table: Table, p: PeerId, now: nat): Table {
    var s := StateIn(table, p, now);
    table[p := s.(retryCount := s.retryCount + 1, lastAttempt := now)]
  }

  function WithConnection(table: Table, p: PeerId, now: nat): Table {
    table[p := StateIn(table, p, now).(retryCount := 0, lastActive := now, connected := true)]
  }

  function WithActivity(table: Table, p: PeerId, now: nat): Table {
    table[p := StateIn(table, p, now).(lastActive := now)]
  }

  class Connections {
    const config: ConnectionConfig
    var peers: Table

    constructor (config: ConnectionConfig)
      ensures this.config == config && peers == map[]
    {
      this.config, peers := config, map[];
    }

    method RecordAttempt(p: PeerId, now: nat)
      modifies this
      ensures OnlyChanged(old(peers), peers, p) && peers[p].lastAttempt == now
      ensures p in old(peers) ==>
                && peers[p].retryCount == old(peers)[p].retryCount + 1
                && peers[p].lastActive == old(peers)[p].lastActive && peers[p].connected == old(peers)[p].connected
      ensures p !in old(peers) ==> peers[p].retryCount == 1 && peers[p].lastActive == now && !peers[p].connected
      ensures peers == WithAttempt(old(peers), p, now)
    {
      var entry := StateIn(peers, p, now);
      peers := peers[p := entry.(retryCount := entry.retryCount + 1, lastAttempt := now)];
    }

    method OnConnected(p: PeerId, now: nat)
      modifies this
      ensures OnlyChanged(old(peers), peers, p)
      ensures peers[p].retryCount == 0 && peers[p].lastActive == now && peers[p].connected
      ensures peers[p].lastAttempt == if p in old(peers) then old(peers)[p].lastAttempt else now
      ensures peers == WithConnection(old(peers), p, now)
    {
      var entry := StateIn(peers, p, now);
      peers := peers[p := entry.(retryCount := 0, lastActive := now, connected := true)];
    }

    method OnActive(p: PeerId, now: nat)
      modifies this
      ensures OnlyChanged(old(peers), peers, p) && peers[p].lastActive == now
      ensures p in old(peers) ==>
                && peers[p].retryCount == old(peers)[p].retryCount
                && peers[p].lastAttempt == old(peers)[p].lastAttempt && peers[p].connected == old(peers)[p].connected
      ensures p !in old(peers) ==> peers[p].retryCount == 0 && peers[p].lastAttempt == now && !peers[p].connected
      ensures peers == WithActivity(old(peers), p, now)
    {
      var entry := StateIn(peers, p, now);
      peers := peers[p := entry.(lastActive := now)];
    }
  }

  // ---- Rewarding the peers of a download that succeeded ----

  function Rewarded(scores: Scores, peers: seq<PeerId>, bytes: nat, now: nat): Scores {
    if peers == [] then scores
    else WithSuccess(Rewarded(scores, peers[..|peers| - 1], bytes, now), peers[|peers| - 1], bytes, now)
  }

  function Activated(table: Table, peers: seq<PeerId>, now: nat): Table {
    if peers == [] then table
    else WithActivity(Activated(table, peers[..|peers| - 1], now), peers[|peers| - 1], now)
  }

  method RewardProviders(peers: seq<PeerId>, bytes: nat, rep: Reputation, conns: Connections, now: nat)
    modifies rep, conns
    ensures rep.peers == Rewarded(old(rep.peers), peers, bytes, now)
    ensures conns.peers == Activated(old(conns.peers), peers, now)
  {
    for i := 0 to |peers|
      invariant rep.peers == Rewarded(old(rep.peers), peers[..i], bytes, now)
      invariant conns.peers == Activated(old(conns.peers), peers[..i], now)
    {
      assert peers[..i + 1][..i] == peers[..i];
      rep.RecordSuccess(peers[i], bytes, now);
      conns.OnActive(peers[i], now);
    }
    assert peers[..|peers|] == peers;
  }

  // For a list without duplicates: one success and the bytes for each of them and
  // for nobody else, so nobody is banned or unbanned by it.
  lemma {:induction false} RewardIsOnceEach(scores: Scores, banThreshold: nat, peers: seq<PeerId>, bytes: nat, now: nat, p: PeerId)
    requires Distinct(peers)
    ensures p in peers ==>
              var s := ScoreIn(scores, p, now);
              p in Rewarded(scores, peers, bytes, now) &&
              Rewarded(scores, peers, bytes, now)[p] == s.(completed := s.completed + 1, bytesServed := s.bytesServed + bytes, lastSeen := now)
    ensures p !in peers ==>
              (p in Rewarded(scores, peers, bytes, now) <==> p in scores)
              && (p in scores ==> Rewarded(scores, peers, bytes, now)[p] == scores[p])
    ensures banThreshold > 0 ==> (Banned(Rewarded(scores, peers, bytes, now), banThreshold, p) <==> Banned(scores, banThreshold, p))
  {
    if peers != [] {
      var n := |peers| - 1;
      RewardIsOnceEach(scores, banThreshold, peers[..n], bytes, now, p);
      assert p in peers[..n] ==> p != peers[n];
    }
  }

  // ---- Selection ----

  // The tables of both objects.
  datatype Tables = Tables(scores: Scores, banThreshold: nat, table: Table, config: ConnectionConfig)

  ghost function TablesOf(rep: Reputation, conns: Connections): Tables
    reads rep, conns
  {
    Tables(rep.peers, rep.banThreshold, conns.peers, conns.config)
  }

  // May be asked at this instant.
  predicate Eligible(t: Tables, p: PeerId, now: nat) {
    !Banned(t.scores, t.banThreshold, p) && CanConnect(t.config, t.table, p, now)
  }

  function Dialable(t: Tables, peers: seq<PeerId>, now: nat): (r: seq<PeerId>)
    ensures forall p :: p in r <==> p in peers && CanConnect(t.config, t.table, p, now)
    ensures Distinct(peers) ==> Distinct(r)
    ensures |r| <= |peers|
  {
    if peers == [] then []
    else
      var front, last := Dialable(t, peers[..|peers| - 1], now), peers[|peers| - 1];
      assert peers == peers[..|peers| - 1] + [last];
      if CanConnect(t.config, t.table, last, now) then front + [last] else front
  }

  function Taken(peers: seq<PeerId>, max: nat): seq<PeerId> {
    peers[..Min(max, |peers|)]
  }

  function Ranking(t: Tables, score: PeerId -> int, providers: seq<PeerId>): seq<PeerId> {
    BestPeers(t.scores, t.banThreshold, score, providers, |providers|)
  }

  // Who is chosen, best first.
  function Selected(t: Tables, score: PeerId -> int, providers: seq<PeerId>, max: nat, now: nat): seq<PeerId> {
    Taken(Dialable(t, Ranking(t, score, providers), now), max)
  }

  method SelectProviderCandidates(rep: Reputation, conns: Connections, score: PeerId -> int, providers: seq<PeerId>, max: nat, now: nat)
    returns (selected: seq<PeerId>, skipped: nat)
    ensures selected == Selected(TablesOf(rep, conns), score, providers, max, now)
  {
    var ranked := BestPeers(rep.peers, rep.banThreshold, score, providers, |providers|);
    ghost var t := TablesOf(rep, conns);
    selected, skipped := [], 0;
    assert ranked[..0] == [];
    for i := 0 to |ranked|
      invariant selected == Dialable(t, ranked[..i], now) && |selected| <= max
    {
      if |selected| >= max {
        EnoughDialable(t, ranked, i, max, now);
        return;
      }
      DialableStep(t, ranked, i, now);
      if CanConnect(conns.config, conns.peers, ranked[i], now) {
        selected := selected + [ranked[i]];
      } else {
        skipped := skipped + 1;
      }
    }
    assert ranked[..|ranked|] == ranked;
  }

  lemma DialableStep(t: Tables, peers: seq<PeerId>, i: nat, now: nat)
    requires i < |peers|
    ensures Dialable(t, peers[..i + 1], now)
         == Dialable(t, peers[..i], now) + (if CanConnect(t.config, t.table, peers[i], now) then [peers[i]] else [])
  {
    assert peers[..i + 1][..i] == peers[..i];
  }

  lemma EnoughDialable(t: Tables, peers: seq<PeerId>, i: nat, max: nat, now: nat)
    requires i <= |peers| && |Dialable(t, peers[..i], now)| == max
    ensures Taken(Dialable(t, peers, now), max) == Dialable(t, peers[..i], now)
  {
    DialableExtends(t, peers, i, now);
  }

  lemma {:induction false} DialableExtends(t: Tables, peers: seq<PeerId>, i: nat, now: nat)
    requires i <= |peers|
    ensures Dialable(t, peers[..i], now) <= Dialable(t, peers, now)
    decreases |peers|
  {
    if i == |peers| {
      assert peers[..i] == peers;
    } else {
      assert peers[..|peers| - 1][..i] == peers[..i];
      DialableExtends(t, peers[..|peers| - 1], i, now);
    }
  }

  lemma {:induction false} DialableKeepsOrder(t: Tables, score: PeerId -> int, peers: seq<PeerId>, now: nat)
    requires IsDescending(score, peers)
    ensures IsDescending(score, Dialable(t, peers, now))
  {
    if peers != [] {
      var front := Dialable(t, peers[..|peers| - 1], now);
      DialableKeepsOrder(t, score, peers[..|peers| - 1], now);
      forall i | 0 <= i < |front|
        ensures score(front[i]) >= score(peers[|peers| - 1])
      {
        assert front[i] in peers[..|peers| - 1];
      }
    }
  }

  lemma RankingIsSorted(t: Tables, score: PeerId -> int, providers: seq<PeerId>)
    ensures var ranked := Ranking(t, score, providers);
            && IsDescending(score, ranked) && (Distinct(providers) ==> Distinct(ranked))
            && (forall p :: p in ranked <==> p in providers && !Banned(t.scores, t.banThreshold, p))
  {
    var unbanned := Unbanned(t.scores, t.banThreshold, providers);
    var ranked := Descending(score, unbanned);
    assert Ranking(t, score, providers) == ranked;
    SortIsPermutation(score, unbanned);
    DescendingIsSorted(score, unbanned);
    if Distinct(providers) {
      SortKeepsDistinct(score, unbanned);
    }
    forall p
      ensures p in ranked <==> p in unbanned
    {
      assert p in ranked <==> p in multiset(ranked);
    }
  }

  // Everyone chosen may be asked, nobody twice, and nobody is passed over for a
  // peer with a lower score.
  lemma SelectionIsBest(t: Tables, score: PeerId -> int, providers: seq<PeerId>, max: nat, now: nat)
    ensures var r := Selected(t, score, providers, max, now);
            && |r| <= max && (Distinct(providers) ==> Distinct(r))
            && (forall p :: p in r ==> p in providers && Eligible(t, p, now))
            && (forall p :: p in providers && p !in r && Eligible(t, p, now) ==>
                  |r| == max && forall k :: 0 <= k < |r| ==> score(r[k]) >= score(p))
  {
    var ranked := Ranking(t, score, providers);
    RankingIsSorted(t, score, providers);
    var dialable := Dialable(t, ranked, now);
    DialableKeepsOrder(t, score, ranked, now);
    var r := Selected(t, score, providers, max, now);
    assert forall j :: 0 <= j < |r| ==> r[j] == dialable[j];
    forall p | p in providers && p !in r && Eligible(t, p, now)
      ensures |r| == max && forall k :: 0 <= k < |r| ==> score(r[k]) >= score(p)
    {
      var j :| 0 <= j < |dialable| && dialable[j] == p;
      assert j >= |r|;
    }
  }

  // With room for everybody, exactly the eligible providers are chosen.
  lemma RoomForAll(t: Tables, score: PeerId -> int, providers: seq<PeerId>, max: nat, now: nat)
    requires |providers| <= max
    ensures forall p :: p in Selected(t, score, providers, max, now) <==> p in providers && Eligible(t, p, now)
  {
    RankingIsSorted(t, score, providers);
    var dialable := Dialable(t, Ranking(t, score, providers), now);
    assert Selected(t, score, providers, max, now) == dialable;
  }
}
