// The handshakes a download starts with: selection, the first round, and the
// fallback round after it.

module Gathering {
  import opened Common
  import opened PeerTables
  import opened Handshakes
  import DownloadLoop

  datatype GatherConfig = GatherConfig(minProviders: nat, maxPeers: nat, mayRefresh: bool)

  // Scores and clock of a selection, and the script of the round after it.
  datatype Stage = Stage(score: PeerId -> int, selectAt: nat, startAt: nat, ticks: seq<Tick>, endAt: nat)

  // What discovery, the configuration and the network bring in.
  datatype Intake = Intake(discovered: seq<PeerId>, refreshed: seq<PeerId>, bootstrap: seq<PeerId>, first: Stage, refresh: Stage, fallback: Stage)

  // A round with nobody to ask does nothing, so a round that is skipped is one.
  datatype Gathering = Gathering(first: Script, mid: Tables, second: Script, end: Tables)

  // ---- Both rounds, on values ----

  function ChosenProviders(g: GatherConfig, t: Tables, x: Intake): seq<PeerId> {
    var chosen := Selected(t, x.first.score, x.discovered, g.maxPeers, x.first.selectAt);
    if |chosen| < g.minProviders && g.mayRefresh then
      Selected(t, x.refresh.score, MergeProviderLists(x.discovered, x.refreshed), g.maxPeers, x.refresh.selectAt)
    else chosen
  }

  function FirstContacts(g: GatherConfig, chosen: seq<PeerId>): seq<PeerId> {
    if |chosen| >= g.minProviders then chosen else []
  }

  function RoundOf(t: Tables, contacts: seq<PeerId>, max: nat, stage: Stage): Script {
    Script(Taken(contacts, max), t.table, stage.startAt, stage.ticks)
  }

  function AfterRound(t: Tables, s: Script, endAt: nat): Tables {
    t.(scores := Punished(t.scores, End(s).pending.Keys, endAt), table := End(s).table)
  }

  // The pool of the fallback: selected, connected and bootstrap peers, without
  // those that have answered.
  function Others(chosen: seq<PeerId>, connected: seq<PeerId>, bootstrap: seq<PeerId>, answered: seq<PeerId>): seq<PeerId> {
    ExcludePeers(MergeProviderLists(chosen, MergeProviderLists(connected, bootstrap)), answered)
  }

  function FallbackContacts(g: GatherConfig, t: Tables, others: seq<PeerId>, answers: nat, stage: Stage): seq<PeerId> {
    if answers < g.minProviders then Selected(t, stage.score, others, g.maxPeers, stage.selectAt) else []
  }

  function Gathered(g: GatherConfig, t: Tables, x: Intake, connected: seq<PeerId>): Gathering {
    var chosen := ChosenProviders(g, t, x);
    var first := RoundOf(t, FirstContacts(g, chosen), g.maxPeers, x.first);
    var mid := AfterRound(t, first, x.first.endAt);
    var answered := PeersOf(End(first).results);
    var others := Others(chosen, connected, x.bootstrap, answered);
    var second := RoundOf(mid, FallbackContacts(g, mid, others, |answered|, x.fallback), g.maxPeers, x.fallback);
    Gathering(first, mid, second, AfterRound(mid, second, x.fallback.endAt))
  }

  function HandshakesOf(r: Gathering): seq<PeerHandshake> {
    End(r.first).results + End(r.second).results
  }

  predicate AreConnected(peers: seq<PeerId>, table: Table) {
    Distinct(peers) && (forall p :: p in peers ==> p in table && table[p].connected) && (forall p :: p in table && table[p].connected ==> p in peers)
  }

  lemma EmptyRound(s: Script)
    requires s.first == []
    ensures End(s).results == [] && End(s).pending == map[] && End(s).table == s.table
  {
    if |s.ticks| > 0 {
      OverStays(s, 1, |s.ticks|);
    }
  }

  lemma SkippedRound(t: Tables, stage: Stage, max: nat)
    ensures End(RoundOf(t, [], max, stage)).results == [] && AfterRound(t, RoundOf(t, [], max, stage), stage.endAt) == t
  {
    var s := RoundOf(t, [], max, stage);
    EmptyRound(s);
    MapsEqual(Punished(t.scores, {}, stage.endAt), t.scores);
  }

  // ---- The methods ----

  method ConnectedPeers(conns: Connections) returns (peers: seq<PeerId>)
    ensures AreConnected(peers, conns.peers)
  {
    peers := [];
    var rest := conns.peers.Keys;
    while rest != {}
      invariant rest <= conns.peers.Keys && Distinct(peers)
      invariant forall p :: p in peers <==> p in conns.peers && conns.peers[p].connected && p !in rest
      decreases rest
    {
      var p :| p in rest;
      if conns.peers[p].connected {
        peers := peers + [p];
      }
      rest := rest - {p};
    }
  }

  method SelectProviders(g: GatherConfig, x: Intake, rep: Reputation, conns: Connections) returns (chosen: seq<PeerId>)
    ensures chosen == ChosenProviders(g, TablesOf(rep, conns), x)
  {
    var skipped;
    chosen, skipped := SelectProviderCandidates(rep, conns, x.first.score, x.discovered, g.maxPeers, x.first.selectAt);
    if |chosen| < g.minProviders && g.mayRefresh {
      var merged := MergeProviderLists(x.discovered, x.refreshed);
      chosen, skipped := SelectProviderCandidates(rep, conns, x.refresh.score, merged, g.maxPeers, x.refresh.selectAt);
    }
  }

  // One round with these contacts, which may be nobody.
  method RunRound(contacts: seq<PeerId>, max: nat, stage: Stage, rep: Reputation, conns: Connections) returns (results: seq<PeerHandshake>)
    modifies rep, conns
    ensures var s := RoundOf(old(TablesOf(rep, conns)), contacts, max, stage);
            results == End(s).results && TablesOf(rep, conns) == AfterRound(old(TablesOf(rep, conns)), s, stage.endAt)
  {
    ghost var sent, s;
    results, sent, s := HandshakeWithProviders(contacts, max, rep, conns, stage.startAt, stage.ticks, stage.endAt);
  }

  // The fallback asks connected and bootstrap peers, and again the selected ones
  // that stayed silent, but nobody who has answered.
  method FallbackRound(g: GatherConfig, x: Intake, chosen: seq<PeerId>, answered: seq<PeerHandshake>, rep: Reputation, conns: Connections)
    returns (more: seq<PeerHandshake>, tried: bool, ghost connected: seq<PeerId>)
    requires |answered| < g.minProviders
    modifies rep, conns
    ensures AreConnected(connected, old(conns.peers))
    ensures var t := old(TablesOf(rep, conns));
            var others := Others(chosen, connected, x.bootstrap, PeersOf(answered));
            var s := RoundOf(t, FallbackContacts(g, t, others, |answered|, x.fallback), g.maxPeers, x.fallback);
            && more == End(s).results && TablesOf(rep, conns) == AfterRound(t, s, x.fallback.endAt)
            && (tried <==> s.first != [])
  {
    ghost var t := TablesOf(rep, conns);
    var peers := ConnectedPeers(conns);
    connected := peers;
    var pool := MergeProviderLists(chosen, MergeProviderLists(peers, x.bootstrap));
    var others := ExcludePeers(pool, PeersOf(answered));
    var candidates, skipped := SelectProviderCandidates(rep, conns, x.fallback.score, others, g.maxPeers, x.fallback.selectAt);
    more, tried := [], candidates != [];
    if tried {
      more := RunRound(candidates, g.maxPeers, x.fallback, rep, conns);
    } else {
      SkippedRound(t, x.fallback, g.maxPeers);
    }
  }

  method GatherHandshakes(g: GatherConfig, x: Intake, rep: Reputation, conns: Connections)
    returns (handshakes: seq<PeerHandshake>, tried: bool, fellBack: bool, enough: bool, ghost connected: seq<PeerId>)
    modifies rep, conns
    ensures var r := Gathered(g, old(TablesOf(rep, conns)), x, connected);
            && handshakes == HandshakesOf(r) && TablesOf(rep, conns) == r.end
            && (tried <==> r.second.first != []) && (fellBack <==> End(r.second).results != [])
            && AreConnected(connected, r.mid.table)
    ensures enough <==> |handshakes| >= (if fellBack then 1 else g.minProviders)
  {
    ghost var t := TablesOf(rep, conns);
    var chosen := SelectProviders(g, x, rep, conns);
    var first := [];
    if |chosen| >= g.minProviders {
      first := RunRound(chosen, g.maxPeers, x.first, rep, conns);
    } else {
      SkippedRound(t, x.first, g.maxPeers);
    }
    ghost var mid := TablesOf(rep, conns);
    handshakes, tried, fellBack := first, false, false;
    if |first| < g.minProviders {
      var more;
      more, tried, connected := FallbackRound(g, x, chosen, first, rep, conns);
      if more != [] {
        fellBack := true;
        handshakes := first + more;
      } else {
        assert first + [] == first;
      }
    } else {
      var peers := ConnectedPeers(conns);
      connected := peers;
      SkippedRound(mid, x.fallback, g.maxPeers);
      assert first + [] == first;
    }
    enough := |handshakes| >= if fellBack then 1 else g.minProviders;
  }

  // ---- What both rounds did ----

  // However the two rounds went, no peer is in the list twice.
  lemma NobodyTwice(g: GatherConfig, t: Tables, x: Intake, connected: seq<PeerId>)
    ensures Distinct(PeersOf(HandshakesOf(Gathered(g, t, x, connected))))
    ensures |HandshakesOf(Gathered(g, t, x, connected))| <= 2 * g.maxPeers
  {
    var r := Gathered(g, t, x, connected);
    ResultsFit(r.first);
    ResultsFit(r.second);
    FallbackContactsAre(g, t, x, connected);
    JoinDistinct(End(r.first).results, End(r.second).results, r.second.first);
  }

  lemma JoinDistinct(a: seq<PeerHandshake>, b: seq<PeerHandshake>, contacts: seq<PeerId>)
    requires Distinct(PeersOf(a)) && Distinct(PeersOf(b))
    requires forall p :: p in PeersOf(b) ==> p in contacts
    requires forall p :: p in contacts ==> p !in PeersOf(a)
    ensures Distinct(PeersOf(a + b))
  {
    assert PeersOf(a + b) == PeersOf(a) + PeersOf(b);
    assert forall j :: 0 <= j < |b| ==> PeersOf(b)[j] in PeersOf(b);
    assert forall i :: 0 <= i < |a| ==> PeersOf(a)[i] in PeersOf(a);
  }

  lemma ResultsFit(s: Script)
    ensures |End(s).results| <= |s.first|
    ensures Distinct(PeersOf(End(s).results)) && forall p :: p in PeersOf(End(s).results) ==> p in s.first
  {
    RoundAccounts(s, |s.ticks|);
    var answered := PeersOf(End(s).results);
    SubsetCard(Members(answered), Members(s.first));
  }

  // Whoever is contacted may be asked at that moment, and the fallback leaves out
  // those that have answered.
  lemma ContactsAreEligible(g: GatherConfig, t: Tables, x: Intake, connected: seq<PeerId>)
    ensures var r := Gathered(g, t, x, connected);
            && (forall p :: p in r.first.first ==>
                  (p in x.discovered && Eligible(t, p, x.first.selectAt))
                  || ((p in x.discovered || p in x.refreshed) && Eligible(t, p, x.refresh.selectAt)))
            && (forall p :: p in r.second.first ==>
                  Eligible(r.mid, p, x.fallback.selectAt) && p !in PeersOf(End(r.first).results))
  {
    SelectionIsBest(t, x.first.score, x.discovered, g.maxPeers, x.first.selectAt);
    var merged := MergeProviderLists(x.discovered, x.refreshed);
    MergeKeepsFirst(x.discovered, x.refreshed);
    SelectionIsBest(t, x.refresh.score, merged, g.maxPeers, x.refresh.selectAt);
    FallbackContactsAre(g, t, x, connected);
  }

  lemma FallbackContactsAre(g: GatherConfig, t: Tables, x: Intake, connected: seq<PeerId>)
    ensures var r := Gathered(g, t, x, connected);
            && |r.first.first| <= g.maxPeers && |r.second.first| <= g.maxPeers
            && (forall p :: p in r.second.first ==>
                  Eligible(r.mid, p, x.fallback.selectAt) && p !in PeersOf(End(r.first).results))
  {
    var r := Gathered(g, t, x, connected);
    var answered := PeersOf(End(r.first).results);
    var others := Others(ChosenProviders(g, t, x), connected, x.bootstrap, answered);
    SelectionIsBest(r.mid, x.fallback.score, others, g.maxPeers, x.fallback.selectAt);
  }

  predicate Silent(s: Script, p: PeerId) {
    p in s.first && !HasReply(s, |s.ticks|, p)
  }

  // A peer's failures grow by one for each round it was asked in and stayed silent.
  lemma FailuresAdded(g: GatherConfig, t: Tables, x: Intake, connected: seq<PeerId>, p: PeerId)
    ensures var r := Gathered(g, t, x, connected);
            Failed(r.end.scores, p) == Failed(t.scores, p) + (if Silent(r.first, p) then 1 else 0) + (if Silent(r.second, p) then 1 else 0)
  {
    var r := Gathered(g, t, x, connected);
    PunishedIff(r.first, t.scores, x.first.endAt, p);
    PunishedIff(r.second, r.mid.scores, x.fallback.endAt, p);
  }

  // The fallback's choice after the first round.
  function ChosenAgain(g: GatherConfig, t: Tables, x: Intake, connected: seq<PeerId>): seq<PeerId> {
    var r := Gathered(g, t, x, connected);
    var others := Others(ChosenProviders(g, t, x), connected, x.bootstrap, PeersOf(End(r.first).results));
    Selected(r.mid, x.fallback.score, others, g.maxPeers, x.fallback.selectAt)
  }

  lemma AskedAgainIff(g: GatherConfig, t: Tables, x: Intake, connected: seq<PeerId>, p: PeerId)
    ensures var r := Gathered(g, t, x, connected);
            p in r.second.first <==> |End(r.first).results| < g.minProviders && p in ChosenAgain(g, t, x, connected)
  {
    var r := Gathered(g, t, x, connected);
    var others := Others(ChosenProviders(g, t, x), connected, x.bootstrap, PeersOf(End(r.first).results));
    ContactsAre(g, r.mid, others, |End(r.first).results|, x.fallback);
  }

  lemma ContactsAre(g: GatherConfig, t: Tables, others: seq<PeerId>, answers: nat, stage: Stage)
    ensures RoundOf(t, FallbackContacts(g, t, others, answers, stage), g.maxPeers, stage).first
         == if answers < g.minProviders then Selected(t, stage.score, others, g.maxPeers, stage.selectAt) else []
  {
    var again := Selected(t, stage.score, others, g.maxPeers, stage.selectAt);
    assert |again| <= g.maxPeers && Taken(again, g.maxPeers) == again;
  }

  // One peer can be punished twice in one gathering: exactly when it is silent in
  // the first round, too few answered, the fallback selects it again, and it is
  // silent again.
  lemma PunishedTwiceIff(g: GatherConfig, t: Tables, x: Intake, connected: seq<PeerId>, p: PeerId)
    ensures var r := Gathered(g, t, x, connected);
            Failed(r.end.scores, p) == Failed(t.scores, p) + 2 <==>
              && Silent(r.first, p) && |End(r.first).results| < g.minProviders
              && p in ChosenAgain(g, t, x, connected) && !HasReply(r.second, |r.second.ticks|, p)
  {
    FailuresAdded(g, t, x, connected, p);
    AskedAgainIff(g, t, x, connected, p);
  }

  // Asking p again is allowed, on the tables before the round that p stayed silent
  // in: one more failure does not ban it, the new entries leave room in the
  // connection table, and with the attempts just made it is below the retry limit
  // or its backoff is over.
  predicate StillWelcome(t: Tables, s: Script, p: PeerId, now: nat) {
    && Failed(t.scores, p) + 1 < t.banThreshold
    && |t.table.Keys + Members(s.first)| < t.config.maxPeers
    && var attempts := StateIn(t.table, p, s.started).retryCount + multiset(s.first)[p];
       attempts < t.config.maxRetries || now - s.started >= t.config.backoffBase * Pow2(Min(attempts, 6))
  }

  lemma EligibleAgainIff(t: Tables, s: Script, endAt: nat, p: PeerId, now: nat)
    requires s.table == t.table && Silent(s, p)
    ensures Eligible(AfterRound(t, s, endAt), p, now) <==> StillWelcome(t, s, p, now)
  {
    PunishedIff(s, t.scores, endAt, p);
    SilentEntry(s, p);
    TableKeysAre(s);
    WelcomeMeans(t, AfterRound(t, s, endAt), s, p, now);
  }

  lemma WelcomeMeans(t: Tables, end: Tables, s: Script, p: PeerId, now: nat)
    requires end.banThreshold == t.banThreshold && end.config == t.config && s.table == t.table
    requires p in end.scores && end.scores[p].failed == Failed(t.scores, p) + 1
    requires |end.table| == |t.table.Keys + Members(s.first)|
    requires p in end.table && end.table[p].lastAttempt == s.started
    requires end.table[p].retryCount == StateIn(t.table, p, s.started).retryCount + multiset(s.first)[p]
    ensures Eligible(end, p, now) <==> StillWelcome(t, s, p, now)
  {
  }

  lemma SilentEntry(s: Script, p: PeerId)
    requires Silent(s, p)
    ensures p in End(s).table && End(s).table[p] == StateIn(s.table, p, s.started).(
              retryCount := StateIn(s.table, p, s.started).retryCount + multiset(s.first)[p], lastAttempt := s.started)
  {
    AnsweredIff(s, p);
    TableIs(s, |s.ticks|);
  }

  lemma KeyIs(s: Script, p: PeerId)
    ensures p in End(s).table <==> p in s.table || p in s.first
  {
    AnsweredIff(s, p);
    TableIs(s, |s.ticks|);
  }

  lemma TableKeysAre(s: Script)
    ensures |End(s).table| == |s.table.Keys + Members(s.first)|
  {
    forall p
      ensures p in End(s).table.Keys <==> p in s.table.Keys + Members(s.first)
    {
      KeyIs(s, p);
    }
    assert End(s).table.Keys == s.table.Keys + Members(s.first);
  }

  // When the fallback has room for its whole pool, a silent peer is asked again
  // exactly when one more failure does not ban it and its attempts leave it dialable.
  lemma SilentIsAskedAgainIff(g: GatherConfig, t: Tables, x: Intake, connected: seq<PeerId>, p: PeerId)
    requires var r := Gathered(g, t, x, connected);
             && Silent(r.first, p) && |End(r.first).results| < g.minProviders
             && |Others(ChosenProviders(g, t, x), connected, x.bootstrap, PeersOf(End(r.first).results))| <= g.maxPeers
    ensures var r := Gathered(g, t, x, connected);
            p in r.second.first <==> StillWelcome(t, r.first, p, x.fallback.selectAt)
  {
    var r := Gathered(g, t, x, connected);
    var chosen, answered := ChosenProviders(g, t, x), PeersOf(End(r.first).results);
    var others := Others(chosen, connected, x.bootstrap, answered);
    AskedAgainIff(g, t, x, connected, p);
    RoomForAll(r.mid, x.fallback.score, others, g.maxPeers, x.fallback.selectAt);
    MergeKeepsFirst(chosen, MergeProviderLists(connected, x.bootstrap));
    AnsweredIff(r.first, p);
    assert p in chosen;
    EligibleAgainIff(t, r.first, x.first.endAt, p, x.fallback.selectAt);
  }

  // ---- A provider on its own that never answers ----

  // The only peer anybody knows, and it is eligible.
  predicate OnlyProvider(g: GatherConfig, t: Tables, x: Intake, p: PeerId) {
    && g.minProviders == 1 && g.maxPeers >= 1
    && x.discovered == [p] && x.bootstrap == [] && Eligible(t, p, x.first.selectAt)
  }

  lemma OnlyOne(r: seq<PeerId>, p: PeerId)
    requires Distinct(r) && forall q :: q in r ==> q == p
    ensures r == if p in r then [p] else []
  {
    assert Members(r) <= {p};
    SubsetCard(Members(r), {p});
    assert p !in r ==> Members(r) == {};
  }

  lemma LoneIsSelectedIff(t: Tables, score: PeerId -> int, p: PeerId, max: nat, now: nat)
    requires max >= 1
    ensures Selected(t, score, [p], max, now) == if Eligible(t, p, now) then [p] else []
  {
    RoomForAll(t, score, [p], max, now);
    SelectionIsBest(t, score, [p], max, now);
    var r := Selected(t, score, [p], max, now);
    assert Distinct([p]);
    OnlyOne(r, p);
  }

  lemma LoneRound(t: Tables, p: PeerId, max: nat, stage: Stage)
    requires max >= 1
    ensures RoundOf(t, [p], max, stage) == Script([p], t.table, stage.startAt, stage.ticks)
  {
    var one: seq<PeerId> := [p];
    assert Taken(one, max) == one;
  }

  lemma LoneSilence(s: Script, p: PeerId)
    requires s.first == [p] && Silent(s, p)
    ensures End(s).results == []
  {
    ResultsFit(s);
    AnsweredIff(s, p);
    var answered := PeersOf(End(s).results);
    OnlyOne(answered, p);
  }

  lemma LoneOthers(p: PeerId)
    ensures Others([p], [], [], []) == [p]
  {
    var none: seq<PeerId> := [];
    var one: seq<PeerId> := [p];
    assert none + none == none && one + none == one;
    FirstOccurrencesAreAll(none);
    FirstOccurrencesAreAll(one);
    ExcludeNobody(one);
  }

  lemma GatheredIs(g: GatherConfig, t: Tables, x: Intake, chosen: seq<PeerId>, first: Script, mid: Tables, others: seq<PeerId>, second: Script)
    requires ChosenProviders(g, t, x) == chosen && RoundOf(t, FirstContacts(g, chosen), g.maxPeers, x.first) == first
    requires AfterRound(t, first, x.first.endAt) == mid && End(first).results == []
    requires Others(chosen, [], x.bootstrap, []) == others
    requires RoundOf(mid, FallbackContacts(g, mid, others, 0, x.fallback), g.maxPeers, x.fallback) == second
    ensures Gathered(g, t, x, []) == Gathering(first, mid, second, AfterRound(mid, second, x.fallback.endAt))
  {
    assert PeersOf([]) == [];
  }

  lemma LoneFallback(g: GatherConfig, mid: Tables, stage: Stage, p: PeerId)
    requires g.minProviders == 1 && g.maxPeers >= 1
    ensures RoundOf(mid, FallbackContacts(g, mid, [p], 0, stage), g.maxPeers, stage).first
         == if Eligible(mid, p, stage.selectAt) then [p] else []
  {
    LoneIsSelectedIff(mid, stage.score, p, g.maxPeers, stage.selectAt);
    var contacts := FallbackContacts(g, mid, [p], 0, stage);
    assert Taken(contacts, g.maxPeers) == contacts;
  }

  lemma LoneGathering(g: GatherConfig, t: Tables, x: Intake, p: PeerId, first: Script, mid: Tables)
    requires OnlyProvider(g, t, x, p)
    requires first == Script([p], t.table, x.first.startAt, x.first.ticks) && Silent(first, p)
    requires mid == AfterRound(t, first, x.first.endAt)
    ensures var r := Gathered(g, t, x, []);
            && r.first == first && r.mid == mid
            && r.second.first == (if Eligible(mid, p, x.fallback.selectAt) then [p] else [])
  {
    LoneIsSelectedIff(t, x.first.score, p, g.maxPeers, x.first.selectAt);
    LoneRound(t, p, g.maxPeers, x.first);
    LoneSilence(first, p);
    LoneOthers(p);
    var contacts := FallbackContacts(g, mid, [p], 0, x.fallback);
    LoneFallback(g, mid, x.fallback, p);
    GatheredIs(g, t, x, [p], first, mid, [p], RoundOf(mid, contacts, g.maxPeers, x.fallback));
  }

  // It is punished a second time exactly when its first failure and attempt leave
  // it unbanned and dialable.
  predicate WelcomeAlone(t: Tables, x: Intake, p: PeerId) {
    && Failed(t.scores, p) + 1 < t.banThreshold
    && |t.table.Keys + {p}| < t.config.maxPeers
    && var attempts := StateIn(t.table, p, x.first.startAt).retryCount + 1;
       attempts < t.config.maxRetries || x.fallback.selectAt - x.first.startAt >= t.config.backoffBase * Pow2(Min(attempts, 6))
  }

  lemma LoneWelcome(t: Tables, x: Intake, p: PeerId, s: Script)
    requires s.first == [p] && s.started == x.first.startAt
    ensures StillWelcome(t, s, p, x.fallback.selectAt) <==> WelcomeAlone(t, x, p)
  {
    assert Members(s.first) == {p};
    assert multiset(s.first)[p] == 1;
  }

  lemma LoneProviderPunished(g: GatherConfig, t: Tables, x: Intake, p: PeerId)
    requires OnlyProvider(g, t, x, p)
    requires var r := Gathered(g, t, x, []);
             Silent(Script([p], t.table, x.first.startAt, x.first.ticks), p) && !HasReply(r.second, |r.second.ticks|, p)
    ensures var r := Gathered(g, t, x, []);
            Failed(r.end.scores, p) == Failed(t.scores, p) + (if WelcomeAlone(t, x, p) then 2 else 1)
  {
    var first := Script([p], t.table, x.first.startAt, x.first.ticks);
    LoneGathering(g, t, x, p, first, AfterRound(t, first, x.first.endAt));
    EligibleAgainIff(t, first, x.first.endAt, p, x.fallback.selectAt);
    LoneWelcome(t, x, p, first);
    FailuresAdded(g, t, x, [], p);
  }

  // With empty tables and the program's limits, it is.
  lemma NewcomerPunishedTwice(g: GatherConfig, t: Tables, x: Intake, p: PeerId)
    requires g.minProviders == 1 && g.maxPeers >= 1 && x.discovered == [p] && x.bootstrap == []
    requires t.scores == map[] && t.table == map[] && t.banThreshold >= 2 && t.config.maxRetries >= 2 && t.config.maxPeers >= 2
    requires x.first.ticks == [] && x.fallback.ticks == []
    ensures Failed(Gathered(g, t, x, []).end.scores, p) == 2
  {
    LoneProviderPunished(g, t, x, p);
  }

  lemma {:induction false} ExcludeNobody(peers: seq<PeerId>)
    ensures ExcludePeers(peers, []) == peers
  {
    if peers != [] {
      ExcludeNobody(peers[..|peers| - 1]);
      assert peers[..|peers| - 1] + [peers[|peers| - 1]] == peers;
    }
  }

  // ---- What the download makes of the list ----

  function AsOffers(results: seq<PeerHandshake>): (r: seq<DownloadLoop.Handshake>)
    ensures |r| == |results| && forall k :: 0 <= k < |r| ==> r[k] == DownloadLoop.Handshake(results[k].peer, results[k].blocksAvailable)
  {
    seq(|results|, k requires 0 <= k < |results| => DownloadLoop.Handshake(results[k].peer, results[k].blocksAvailable))
  }

  function Offered(h: PeerHandshake): set<nat> {
    set i | i in h.blocksAvailable
  }

  predicate OfferKept(results: seq<PeerHandshake>, k: nat)
    requires k < |results|
  {
    var offers := DownloadLoop.Offers(AsOffers(results));
    results[k].peer in offers && offers[results[k].peer] == Offered(results[k])
  }

  predicate SameOffers(results: seq<PeerHandshake>) {
    forall i, j :: 0 <= i < j < |results| && results[i].peer == results[j].peer ==> Offered(results[i]) == Offered(results[j])
  }

  // A peer's state is that of its last handshake in the list.
  lemma {:induction false} LastOfferCounts(results: seq<PeerHandshake>, k: nat) returns (l: nat)
    requires k < |results|
    ensures k <= l < |results| && results[l].peer == results[k].peer
    ensures results[k].peer in DownloadLoop.Offers(AsOffers(results))
    ensures DownloadLoop.Offers(AsOffers(results))[results[k].peer] == Offered(results[l])
  {
    var n := |results| - 1;
    var all := AsOffers(results);
    assert all[..n] == AsOffers(results[..n]);
    if results[n].peer == results[k].peer {
      l := n;
    } else {
      l := LastOfferCounts(results[..n], k);
    }
  }

  // So a download starts with every handshake's own offer exactly when no peer is
  // listed with two different offers, as in the list gathered above.
  lemma OffersAreKeptIff(results: seq<PeerHandshake>)
    ensures (forall k :: 0 <= k < |results| ==> OfferKept(results, k))
       <==> SameOffers(results)
    ensures Distinct(PeersOf(results)) ==> forall k :: 0 <= k < |results| ==> OfferKept(results, k)
  {
    if forall k :: 0 <= k < |results| ==> OfferKept(results, k) {
      forall i, j | 0 <= i < j < |results| && results[i].peer == results[j].peer
        ensures Offered(results[i]) == Offered(results[j])
      {
        assert OfferKept(results, i) && OfferKept(results, j);
      }
    }
    if SameOffers(results) {
      forall k | 0 <= k < |results|
        ensures OfferKept(results, k)
      {
        var l := LastOfferCounts(results, k);
      }
    }
    assert forall k :: 0 <= k < |results| ==> PeersOf(results)[k] == results[k].peer;
  }
}
