// The dashboard's account of transfers, kept up to date event by event, and its
// bounded event history.

module Transfers {
  import opened Common

  datatype PeerStats = PeerStats(blocks: nat, bytes: nat, lastIndices: seq<nat>)

  datatype TransferStats = TransferStats(
    storePath: Option<string>, narSize: Option<nat>, source: Option<string>,
    blocksReceived: nat, bytesReceived: nat, blocksServed: nat,
    downloadPeers: map<string, PeerStats>, servingPeers: map<string, PeerStats>, phasesMs: map<string, nat>)

  const NO_STATS: TransferStats := TransferStats(None, None, None, 0, 0, 0, map[], map[], map[])

  datatype Event =
    | DownloadStarted(nar: string, storePath: string, narSize: nat)
    | BlockReceived(nar: string, peer: string, indices: seq<nat>, bytes: nat)
    | TransferPhase(nar: string, phase: string, elapsedMs: nat)
    | BlockServed(nar: string, peer: string, indices: seq<nat>)
    | DownloadSucceeded(nar: string, storePath: string, size: nat, from: string)
    | OtherEvent

  // ---- Sums over peers ----

  ghost function Sum(m: map<string, nat>): nat
    decreases |m|
  {
    if m == map[] then 0
    else
      var k :| k in m;
      m[k] + Sum(m - {k})
  }

  lemma {:induction false} SumWithout(m: map<string, nat>, k: string)
    requires k in m
    ensures Sum(m) == m[k] + Sum(m - {k})
    decreases |m|
  {
    var j :| j in m && Sum(m) == m[j] + Sum(m - {j});
    if j != k {
      SumWithout(m - {j}, k);
      SumWithout(m - {k}, j);
      assert m - {j} - {k} == m - {k} - {j};
    }
  }

  lemma SumPut(m: map<string, nat>, k: string, v: nat)
    ensures Sum(m[k := v]) == v + Sum(m - {k})
  {
    SumWithout(m[k := v], k);
    assert m[k := v] - {k} == m - {k};
  }

  ghost function BlocksOf(peers: map<string, PeerStats>): map<string, nat> {
    map p | p in peers :: peers[p].blocks
  }

  ghost function BytesOf(peers: map<string, PeerStats>): map<string, nat> {
    map p | p in peers :: peers[p].bytes
  }

  // ---- The fold ----

  function WithPeer(peers: map<string, PeerStats>, peer: string, indices: seq<nat>, bytes: nat): map<string, PeerStats> {
    var was := if peer in peers then peers[peer] else PeerStats(0, 0, []);
    peers[peer := PeerStats(was.blocks + |indices|, was.bytes + bytes, indices)]
  }

  lemma WithPeerAdds(peers: map<string, PeerStats>, peer: string, indices: seq<nat>, bytes: nat)
    ensures Sum(BlocksOf(WithPeer(peers, peer, indices, bytes))) == Sum(BlocksOf(peers)) + |indices|
    ensures Sum(BytesOf(WithPeer(peers, peer, indices, bytes))) == Sum(BytesOf(peers)) + bytes
  {
    var next := WithPeer(peers, peer, indices, bytes);
    var blocks, sizes := BlocksOf(peers), BytesOf(peers);
    assert BlocksOf(next) == blocks[peer := next[peer].blocks];
    assert BytesOf(next) == sizes[peer := next[peer].bytes];
    SumPut(blocks, peer, next[peer].blocks);
    SumPut(sizes, peer, next[peer].bytes);
    if peer in peers {
      SumWithout(blocks, peer);
      SumWithout(sizes, peer);
    } else {
      assert blocks - {peer} == blocks && sizes - {peer} == sizes;
    }
  }

  // What the log itself says about one nar, independent of any account kept.
  function ReceivedBlocks(log: seq<Event>, nar: string): nat {
    if log == [] then 0
    else
      var e := log[|log| - 1];
      ReceivedBlocks(log[..|log| - 1], nar) + (if e.BlockReceived? && e.nar == nar then |e.indices| else 0)
  }

  function ReceivedBytes(log: seq<Event>, nar: string): nat {
    if log == [] then 0
    else
      var e := log[|log| - 1];
      ReceivedBytes(log[..|log| - 1], nar) + (if e.BlockReceived? && e.nar == nar then e.bytes else 0)
  }

  function ServedBlocks(log: seq<Event>, nar: string): nat {
    if log == [] then 0
    else
      var e := log[|log| - 1];
      ServedBlocks(log[..|log| - 1], nar) + (if e.BlockServed? && e.nar == nar then |e.indices| else 0)
  }

  // Who sent blocks of a nar, and to whom some were served.
  ghost predicate Sent(log: seq<Event>, nar: string, peer: string) {
    exists k :: 0 <= k < |log| && log[k].BlockReceived? && log[k].nar == nar && log[k].peer == peer
  }

  ghost predicate WasServed(log: seq<Event>, nar: string, peer: string) {
    exists k :: 0 <= k < |log| && log[k].BlockServed? && log[k].nar == nar && log[k].peer == peer && log[k].indices != []
  }

  // The account of one nar agrees with the log, and its totals with its peers.
  ghost predicate Balanced(log: seq<Event>, nar: string, t: TransferStats) {
    && t.blocksReceived == ReceivedBlocks(log, nar) == Sum(BlocksOf(t.downloadPeers))
    && t.bytesReceived == ReceivedBytes(log, nar) == Sum(BytesOf(t.downloadPeers))
    && t.blocksServed == ServedBlocks(log, nar) == Sum(BlocksOf(t.servingPeers))
  }

  // Exactly the peers of the log are listed.
  ghost predicate PeersListed(log: seq<Event>, nar: string, t: TransferStats) {
    && (forall p :: p in t.downloadPeers <==> Sent(log, nar, p))
    && (forall p :: p in t.servingPeers <==> WasServed(log, nar, p))
  }

  function Stats(registry: map<string, TransferStats>, nar: string): TransferStats {
    if nar in registry then registry[nar] else NO_STATS
  }

  // What one event does to the account of the nar it names.
  function Counted(t: TransferStats, e: Event): TransferStats {
    match e
    case DownloadStarted(_, storePath, narSize) => t.(storePath := Some(storePath), narSize := Some(narSize))
    case BlockReceived(_, peer, indices, bytes) =>
      t.(blocksReceived := t.blocksReceived + |indices|, bytesReceived := t.bytesReceived + bytes,
         downloadPeers := WithPeer(t.downloadPeers, peer, indices, bytes))
    case TransferPhase(_, phase, elapsedMs) => t.(phasesMs := t.phasesMs[phase := elapsedMs])
    case BlockServed(_, peer, indices) =>
      t.(blocksServed := t.blocksServed + |indices|, servingPeers := WithPeer(t.servingPeers, peer, indices, 0))
    case DownloadSucceeded(_, storePath, size, from) => t.(storePath := Some(storePath), narSize := Some(size), source := Some(from))
    case OtherEvent => t
  }

  predicate IsCounted(e: Event) {
    !e.OtherEvent? && !(e.BlockServed? && e.indices == [])
  }

  function Observed(registry: map<string, TransferStats>, e: Event): map<string, TransferStats> {
    if IsCounted(e) then registry[e.nar := Counted(Stats(registry, e.nar), e)] else registry
  }

  ghost predicate Fits(log: seq<Event>, nar: string, t: TransferStats) {
    Balanced(log, nar, t) && PeersListed(log, nar, t)
  }

  lemma OthersUntouched(log: seq<Event>, e: Event, nar: string, t: TransferStats)
    requires Fits(log, nar, t) && (IsCounted(e) ==> e.nar != nar)
    ensures Fits(log + [e], nar, t)
  {
    LogExtends(log, e, nar);
  }

  lemma CountedFits(log: seq<Event>, e: Event, t: TransferStats)
    requires IsCounted(e) && Fits(log, e.nar, t)
    ensures Fits(log + [e], e.nar, Counted(t, e))
  {
    LogExtends(log, e, e.nar);
    CountedBalances(log, e, t);
  }

  // The sums over the peers grow as the log's do.
  lemma CountedBalances(log: seq<Event>, e: Event, t: TransferStats)
    requires IsCounted(e) && Balanced(log, e.nar, t)
    requires ReceivedBlocks(log + [e], e.nar) == ReceivedBlocks(log, e.nar) + (if e.BlockReceived? then |e.indices| else 0)
    requires ReceivedBytes(log + [e], e.nar) == ReceivedBytes(log, e.nar) + (if e.BlockReceived? then e.bytes else 0)
    requires ServedBlocks(log + [e], e.nar) == ServedBlocks(log, e.nar) + (if e.BlockServed? then |e.indices| else 0)
    ensures Balanced(log + [e], e.nar, Counted(t, e))
  {
    if e.BlockReceived? {
      WithPeerAdds(t.downloadPeers, e.peer, e.indices, e.bytes);
    } else if e.BlockServed? {
      WithPeerAdds(t.servingPeers, e.peer, e.indices, 0);
    }
  }

  // One more event keeps every account true.
  lemma EventKeepsAccounts(log: seq<Event>, registry: map<string, TransferStats>, e: Event)
    requires forall nar :: Fits(log, nar, Stats(registry, nar))
    ensures forall nar :: Fits(log + [e], nar, Stats(Observed(registry, e), nar))
  {
    forall nar
      ensures Fits(log + [e], nar, Stats(Observed(registry, e), nar))
    {
      if IsCounted(e) && e.nar == nar {
        CountedFits(log, e, Stats(registry, nar));
      } else {
        OthersUntouched(log, e, nar, Stats(registry, nar));
      }
    }
  }

  // The registry a whole log leads to, from an empty one.
  function RegistryOf(log: seq<Event>): map<string, TransferStats> {
    if log == [] then map[] else Observed(RegistryOf(log[..|log| - 1]), log[|log| - 1])
  }

  lemma NoAccounts(nar: string)
    ensures Fits([], nar, NO_STATS)
  {
    assert BlocksOf(map[]) == map[] && BytesOf(map[]) == map[];
  }

  // After any log of events, for every nar, the totals are the sums over the peers
  // and what the log says, and exactly the log's peers are listed.
  lemma {:induction false} AccountsStayTrue(log: seq<Event>)
    ensures forall nar :: Fits(log, nar, Stats(RegistryOf(log), nar))
  {
    if log == [] {
      forall nar
        ensures Fits(log, nar, Stats(map[], nar))
      {
        NoAccounts(nar);
      }
    } else {
      var n := |log| - 1;
      AccountsStayTrue(log[..n]);
      EventKeepsAccounts(log[..n], RegistryOf(log[..n]), log[n]);
      assert log == log[..n] + [log[n]];
    }
  }

  class TransferRegistry {
    var registry: map<string, TransferStats>
    ghost var log: seq<Event>

    // The registry is the one the log leads to.
    ghost predicate Valid()
      reads this
    {
      registry == RegistryOf(log)
    }

    constructor ()
      ensures Valid() && log == [] && registry == map[]
    {
      registry, log := map[], [];
    }

    method Apply(event: Event)
      modifies this`registry
      ensures registry == Observed(old(registry), event)
    {
      match event {
        case DownloadStarted(nar, storePath, narSize) =>
          registry := registry[nar := Stats(registry, nar).(storePath := Some(storePath), narSize := Some(narSize))];
        case BlockReceived(nar, peer, indices, bytes) =>
          var t := Stats(registry, nar);
          registry := registry[nar := t.(
            blocksReceived := t.blocksReceived + |indices|,
            bytesReceived := t.bytesReceived + bytes,
            downloadPeers := WithPeer(t.downloadPeers, peer, indices, bytes))];
        case TransferPhase(nar, phase, elapsedMs) =>
          var t := Stats(registry, nar);
          registry := registry[nar := t.(phasesMs := t.phasesMs[phase := elapsedMs])];
        case BlockServed(nar, peer, indices) =>
          if indices != [] {
            var t := Stats(registry, nar);
            registry := registry[nar := t.(
              blocksServed := t.blocksServed + |indices|,
              servingPeers := WithPeer(t.servingPeers, peer, indices, 0))];
          }
        case DownloadSucceeded(nar, storePath, size, from) =>
          registry := registry[nar := Stats(registry, nar).(storePath := Some(storePath), narSize := Some(size), source := Some(from))];
        case OtherEvent =>
      }
    }

    // One turn of the loop that follows the event bus.
    method Observe(event: Event)
      requires Valid()
      modifies this
      ensures Valid() && log == old(log) + [event] && registry == Observed(old(registry), event)
      ensures forall nar :: Fits(log, nar, Stats(registry, nar))
    {
      Apply(event);
      log := log + [event];
      assert log[..|log| - 1] == old(log);
      AccountsStayTrue(log);
    }
  }

  lemma LogExtends(log: seq<Event>, e: Event, nar: string)
    ensures ReceivedBlocks(log + [e], nar) == ReceivedBlocks(log, nar) + (if e.BlockReceived? && e.nar == nar then |e.indices| else 0)
    ensures ReceivedBytes(log + [e], nar) == ReceivedBytes(log, nar) + (if e.BlockReceived? && e.nar == nar then e.bytes else 0)
    ensures ServedBlocks(log + [e], nar) == ServedBlocks(log, nar) + (if e.BlockServed? && e.nar == nar then |e.indices| else 0)
    ensures forall p :: Sent(log + [e], nar, p) <==> Sent(log, nar, p) || (e.BlockReceived? && e.nar == nar && e.peer == p)
    ensures forall p :: WasServed(log + [e], nar, p) <==> WasServed(log, nar, p) || (e.BlockServed? && e.nar == nar && e.peer == p && e.indices != [])
  {
    var all := log + [e];
    assert all[..|log|] == log && all[|log|] == e;
    forall p {
      SenderExtends(log, e, nar, p);
    }
  }

  lemma SenderExtends(log: seq<Event>, e: Event, nar: string, p: string)
    ensures Sent(log + [e], nar, p) <==> Sent(log, nar, p) || (e.BlockReceived? && e.nar == nar && e.peer == p)
    ensures WasServed(log + [e], nar, p) <==> WasServed(log, nar, p) || (e.BlockServed? && e.nar == nar && e.peer == p && e.indices != [])
  {
    var all := log + [e];
    assert all[|log|] == e;
    assert forall k :: 0 <= k < |log| ==> all[k] == log[k];
  }

  // ---- The event history ----

  const EVENT_HISTORY_LIMIT: nat := 500

  datatype Recorded = Recorded(id: nat, timestampMs: nat, event: Event)

  // The last events of a log, numbered by their place in it.
  function LastOf(log: seq<(Event, nat)>, limit: nat): (r: seq<Recorded>)
    ensures |r| == Min(|log|, limit)
  {
    var skipped := |log| - Min(|log|, limit);
    seq(|log| - skipped, k requires 0 <= k < |log| - skipped => Recorded(skipped + k, log[skipped + k].1, log[skipped + k].0))
  }

  class EventHistory {
    var nextId: nat
    var entries: seq<Recorded>
    ghost var log: seq<(Event, nat)>

    // Exactly the last 500 events, or all of them, with consecutive ids.
    ghost predicate Valid()
      reads this
    {
      nextId == |log| && entries == LastOf(log, EVENT_HISTORY_LIMIT)
    }

    constructor ()
      ensures Valid() && log == []
    {
      nextId, entries, log := 0, [], [];
    }

    method Record(event: Event, timestampMs: nat)
      requires Valid()
      modifies this
      ensures Valid() && log == old(log) + [(event, timestampMs)]
    {
      var id := nextId;
      nextId := nextId + 1;
      entries := entries + [Recorded(id, timestampMs, event)];
      log := log + [(event, timestampMs)];
      assert entries == LastOf(log, Min(|log|, EVENT_HISTORY_LIMIT + 1));
      while |entries| > EVENT_HISTORY_LIMIT
        invariant nextId == |log| == |old(log)| + 1 && log == old(log) + [(event, timestampMs)]
        invariant |entries| >= Min(|log|, EVENT_HISTORY_LIMIT) && entries == LastOf(log, |entries|)
      {
        assert LastOf(log, |entries|)[1..] == LastOf(log, |entries| - 1);
        entries := entries[1..];
      }
    }
  }
}
