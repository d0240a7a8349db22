// Which offers lead a download into a dead end. A complete block is counted at one
// peer at most, so every holder of the missing block needs a cap's worth of blocks
// of its own; when everybody offers everything, that is the whole condition.

module DeadEndOffers {
  import opened Common
  import opened Ledger
  import opened Scheduler
  import opened Invariants
  import opened DispatchQuality
  import opened DownloadLoop
  import opened LoopResults
  import opened StaleSlots
  import opened Serving
  import opened DeadEnds
  import Blocks

  // ---- A block is counted at one peer at most ----

  ghost predicate CountedOnce(s: Sched) {
    forall p, q, i :: p in s.peers && q in s.peers && i in s.peers[p].inFlight && i in s.peers[q].inFlight ==> p == q
  }

  ghost predicate CountsShrink(s: Sched, t: Sched) {
    t.peers.Keys <= s.peers.Keys && forall p :: p in t.peers ==> t.peers[p].inFlight <= s.peers[p].inFlight
  }

  lemma ShrinkingStaysOnce(s: Sched, t: Sched)
    requires CountedOnce(s) && CountsShrink(s, t)
    ensures CountedOnce(t)
  {
  }

  lemma RoundStaysOnce(s: Sched, maxInFlight: nat, now: nat, picks: Picks)
    requires SchedInv(s, maxInFlight) && IsDispatch(s, maxInFlight, now, picks) && CountedOnce(s)
    ensures CountedOnce(AfterPicks(s, picks, now))
  {
    var t := AfterPicks(s, picks, now);
    forall p, q, i | p in t.peers && q in t.peers && i in t.peers[p].inFlight && i in t.peers[q].inFlight
      ensures p == q
    {
      if i in Given(picks, p) {
        GivenIsNew(s, maxInFlight, now, picks, p, i, q);
      } else if i in Given(picks, q) {
        GivenIsNew(s, maxInFlight, now, picks, q, i, p);
      }
    }
  }

  lemma GivenIsNew(s: Sched, maxInFlight: nat, now: nat, picks: Picks, p: PeerId, i: nat, q: PeerId)
    requires SchedInv(s, maxInFlight) && IsDispatch(s, maxInFlight, now, picks) && i in Given(picks, p) && q in s.peers
    ensures i !in s.peers[q].inFlight && (i in Given(picks, q) ==> q == p)
  {
    PickedArePending(s, maxInFlight, now, picks);
    assert i in Assigned(picks);
    PendingIsUncounted(s, maxInFlight, i, q);
  }

  lemma StepStaysOnce(c: Setup, st: State, step: Step)
    requires Inv(c, st) && Enabled(c, st, step) && CountedOnce(st.sched)
    ensures CountedOnce(Next(c, st, step).sched)
  {
    if step.Dispatch? {
      RoundStaysOnce(st.sched, c.maxInFlight, step.now, step.picks);
    } else {
      ShrinkingStaysOnce(st.sched, Next(c, st, step).sched);
    }
  }

  lemma {:induction false} RunStaysOnce(c: Setup, offers: map<PeerId, set<nat>>, steps: seq<Step>)
    requires Legal(c, Initial(c, offers), steps)
    ensures CountedOnce(After(c, Initial(c, offers), steps).sched)
  {
    if steps != [] {
      var front := steps[..|steps| - 1];
      RunStaysOnce(c, offers, front);
      InitialInv(c, offers);
      RunKeeps(c, Initial(c, offers), front);
      StepStaysOnce(c, After(c, Initial(c, offers), front), steps[|steps| - 1]);
    }
  }

  lemma CourseStaysOnce(w: Course, k: nat)
    requires IsCourse(w) && k <= |w.ticks|
    ensures CountedOnce(At(w, k).st.sched)
  {
    CourseFits(w, |w.ticks|, k);
    CourseIsRun(w, k);
    RunStaysOnce(w.c, w.offers, RunOf(w, k));
  }

  // ---- What a dead end takes ----

  function Holders(offers: map<PeerId, set<nat>>, i: nat): set<PeerId> {
    set p | p in offers && i in offers[p]
  }

  // A cap's worth of other blocks from the offer of every holder of block i, no
  // block for two of them.
  ghost predicate Packs(offers: map<PeerId, set<nat>>, cap: nat, n: nat, i: nat, taken: map<PeerId, set<nat>>) {
    && (forall p :: p in Holders(offers, i) ==> p in taken && |taken[p]| == cap && taken[p] <= offers[p] * Indices(n) - {i})
    && (forall p, q :: p in Holders(offers, i) && q in Holders(offers, i) && p != q ==> taken[p] !! taken[q])
  }

  // Any download that dead-ends for want of block i.
  lemma DeadEndPacks(w: Course, i: nat, p: PeerId)
    requires IsCourse(w) && Frozen(w.c, End(w)) && MissingAt(End(w).sched, i, p)
    ensures exists taken :: Packs(w.offers, w.c.maxInFlight, w.c.info.blockCount, i, taken)
    ensures p in Holders(w.offers, i) && i < w.c.info.blockCount
  {
    CourseOffers(w, |w.ticks|);
    CourseStaysOnce(w, |w.ticks|);
    StaleSlotsPack(w.c, End(w), w.offers, i);
  }

  function CountedAt(s: Sched): map<PeerId, set<nat>> {
    map p | p in s.peers :: s.peers[p].inFlight
  }

  lemma StaleSlotsPack(c: Setup, st: State, offers: map<PeerId, set<nat>>, i: nat)
    requires Frozen(c, st) && CountedOnce(st.sched) && SameOffers(Initial(c, offers).sched, st.sched)
    requires i < |st.sched.blocks| && st.sched.blocks[i].Pending?
    ensures Packs(offers, c.maxInFlight, c.info.blockCount, i, CountedAt(st.sched))
  {
    var taken := CountedAt(st.sched);
    forall p | p in Holders(offers, i)
      ensures p in taken && |taken[p]| == c.maxInFlight && taken[p] <= offers[p] * Indices(c.info.blockCount) - {i}
    {
      assert p in Initial(c, offers).sched.peers;
      PendingIsUncounted(st.sched, c.maxInFlight, i, p);
    }
    forall p, q | p in Holders(offers, i) && q in Holders(offers, i) && p != q
      ensures taken[p] !! taken[q]
    {
      assert p in Initial(c, offers).sched.peers && q in Initial(c, offers).sched.peers;
    }
  }

  function TakenBy(taken: map<PeerId, set<nat>>, peers: set<PeerId>): set<nat> {
    set p, i | p in peers && p in taken && i in taken[p] :: i
  }

  lemma TakenWith(taken: map<PeerId, set<nat>>, rest: set<PeerId>, p: PeerId)
    requires p in taken
    ensures TakenBy(taken, rest + {p}) == taken[p] + TakenBy(taken, rest)
  {
    forall i: nat
      ensures i in TakenBy(taken, rest + {p}) <==> i in taken[p] || i in TakenBy(taken, rest)
    {
      assert p in rest + {p};
    }
  }

  lemma CapsWith(rest: set<PeerId>, p: PeerId, cap: nat)
    requires p !in rest
    ensures |rest + {p}| * cap == |rest| * cap + cap
  {
  }

  lemma TakenApart(taken: map<PeerId, set<nat>>, rest: set<PeerId>, p: PeerId)
    requires p in taken && forall q :: q in rest ==> q in taken && taken[p] !! taken[q]
    ensures taken[p] !! TakenBy(taken, rest)
  {
  }

  lemma {:induction false} PackedCard(taken: map<PeerId, set<nat>>, cap: nat, peers: set<PeerId>)
    requires forall p :: p in peers ==> p in taken && |taken[p]| == cap
    requires forall p, q :: p in peers && q in peers && p != q ==> taken[p] !! taken[q]
    ensures |TakenBy(taken, peers)| == |peers| * cap
    decreases |peers|
  {
    if peers == {} {
      assert TakenBy(taken, peers) == {};
    } else {
      var p :| p in peers;
      PackedCard(taken, cap, peers - {p});
      OneMorePacked(taken, cap, peers - {p}, p);
      assert peers - {p} + {p} == peers;
    }
  }

  lemma OneMorePacked(taken: map<PeerId, set<nat>>, cap: nat, rest: set<PeerId>, p: PeerId)
    requires p !in rest && p in taken && |taken[p]| == cap && |TakenBy(taken, rest)| == |rest| * cap
    requires forall q :: q in rest ==> q in taken && taken[p] !! taken[q]
    ensures |TakenBy(taken, rest + {p})| == |rest + {p}| * cap
  {
    TakenWith(taken, rest, p);
    TakenApart(taken, rest, p);
    DisjointCard(taken[p], TakenBy(taken, rest));
    CapsWith(rest, p, cap);
  }

  // So the holders' caps together fall short of the blocks.
  lemma PackingFits(offers: map<PeerId, set<nat>>, cap: nat, n: nat, i: nat, taken: map<PeerId, set<nat>>)
    requires Packs(offers, cap, n, i, taken) && i < n
    ensures |Holders(offers, i)| * cap < n
  {
    var holders := Holders(offers, i);
    PackedCard(taken, cap, holders);
    assert TakenBy(taken, holders) <= Indices(n) - {i};
    SubsetCard(TakenBy(taken, holders), Indices(n) - {i});
    SplitCard(Indices(n), {i});
  }

  lemma DeadEndNeedsHolders(w: Course, i: nat, p: PeerId)
    requires DeadEnded(w) && MissingAt(End(w).sched, i, p)
    ensures |w.offers.Keys| >= 2 && |Holders(w.offers, i)| * w.c.maxInFlight < w.c.info.blockCount
  {
    DeadEndNeeds(w);
    DeadEndPacks(w, i, p);
    var taken :| Packs(w.offers, w.c.maxInFlight, w.c.info.blockCount, i, taken);
    PackingFits(w.offers, w.c.maxInFlight, w.c.info.blockCount, i, taken);
  }

  // ---- The order of the blocks counts too ----

  // Only p offers block i, and offers nothing before it.
  ghost predicate FirstOfSole(s: Sched, p: PeerId, i: nat) {
    && p in s.peers && i < |s.blocks| && i in s.peers[p].available
    && (forall q :: q in s.peers && i in s.peers[q].available ==> q == p)
    && (forall j :: 0 <= j < i ==> j !in s.peers[p].available)
  }

  ghost predicate HasRoomFor(s: Sched, p: PeerId, i: nat, cap: nat) {
    p in s.peers && i < |s.blocks| && (s.blocks[i].Pending? ==> |s.peers[p].inFlight| < cap)
  }

  // A round asks p for it before anything else.
  lemma RoundAsksFirst(s: Sched, cap: nat, now: nat, picks: Picks, p: PeerId, i: nat)
    requires IsDispatch(s, cap, now, picks) && FirstOfSole(s, p, i) && HasRoomFor(s, p, i, cap)
    ensures HasRoomFor(AfterPicks(s, picks, now), p, i, cap)
  {
    if s.blocks[i].Pending? {
      var start := picks[..i];
      GreedyPrefix(s, cap, now, picks, i);
      NothingYet(s, cap, now, start, p);
      var a := AfterPicks(s, start, now);
      assert a.blocks[i] == s.blocks[i] && ValidPick(a, i, cap, picks[i]);
      assert Eligible(a, i, cap, p);
    } else {
      PickedArePending(s, cap, now, picks);
      assert i !in Assigned(picks);
    }
  }

  // What returns the block to pending frees its slot.
  lemma ReturnFreesSlot(s: Sched, t: Sched, p: PeerId, i: nat, cap: nat)
    requires SchedInv(s, cap) && FirstOfSole(s, p, i) && HasRoomFor(s, p, i, cap) && CountsShrink(s, t) && p in t.peers && |t.blocks| == |s.blocks|
    requires s.blocks[i].InFlight? && t.blocks[i].Pending? ==> i !in t.peers[p].inFlight
    requires s.blocks[i].Complete? ==> !t.blocks[i].Pending?
    ensures HasRoomFor(t, p, i, cap)
  {
    SubsetCard(t.peers[p].inFlight, s.peers[p].inFlight);
    if s.blocks[i].InFlight? && t.blocks[i].Pending? {
      assert Flying(s, i, s.blocks[i].peer);
      OverFull(t.peers[p].inFlight, s.peers[p].inFlight, i);
    }
  }

  ghost predicate SameBoard(s: Sched, t: Sched) {
    SameOffers(s, t) && |t.blocks| == |s.blocks|
  }

  lemma StepsKeepBoard(c: Setup, st: State, step: Step)
    ensures SameBoard(st.sched, Next(c, st, step).sched)
    ensures !step.Dispatch? ==> CountsShrink(st.sched, Next(c, st, step).sched)
  {
  }

  lemma BoardKeepsSole(s: Sched, t: Sched, p: PeerId, i: nat)
    requires FirstOfSole(s, p, i) && SameBoard(s, t)
    ensures FirstOfSole(t, p, i)
  {
  }

  lemma StepKeepsRoom(c: Setup, st: State, step: Step, p: PeerId, i: nat)
    requires Inv(c, st) && Enabled(c, st, step) && FirstOfSole(st.sched, p, i) && HasRoomFor(st.sched, p, i, c.maxInFlight)
    ensures FirstOfSole(Next(c, st, step).sched, p, i) && HasRoomFor(Next(c, st, step).sched, p, i, c.maxInFlight)
  {
    StepsKeepBoard(c, st, step);
    BoardKeepsSole(st.sched, Next(c, st, step).sched, p, i);
    if step.Dispatch? {
      RoundAsksFirst(st.sched, c.maxInFlight, step.now, step.picks, p, i);
    } else {
      OtherStepKeepsRoom(c, st, step, p, i, Next(c, st, step));
    }
  }

  lemma OtherStepKeepsRoom(c: Setup, st: State, step: Step, p: PeerId, i: nat, end: State)
    requires Inv(c, st) && Enabled(c, st, step) && FirstOfSole(st.sched, p, i) && HasRoomFor(st.sched, p, i, c.maxInFlight)
    requires end == Next(c, st, step) && CountsShrink(st.sched, end.sched) && SameBoard(st.sched, end.sched)
    ensures HasRoomFor(end.sched, p, i, c.maxInFlight)
  {
    StepKeeps(c, st, step);
    if st.sched.blocks[i].Complete? {
      CompleteIsFinal(c, st, step, i);
    }
    if end.sched.blocks[i].Pending? {
      PendingIsUncounted(end.sched, c.maxInFlight, i, p);
    }
    ReturnFreesSlot(st.sched, end.sched, p, i, c.maxInFlight);
  }

  lemma {:induction false} RunKeepsRoom(c: Setup, offers: map<PeerId, set<nat>>, steps: seq<Step>, p: PeerId, i: nat)
    requires Legal(c, Initial(c, offers), steps) && c.maxInFlight >= 1 && FirstOfSole(Initial(c, offers).sched, p, i)
    ensures FirstOfSole(After(c, Initial(c, offers), steps).sched, p, i)
    ensures HasRoomFor(After(c, Initial(c, offers), steps).sched, p, i, c.maxInFlight)
  {
    if steps != [] {
      var front := steps[..|steps| - 1];
      RunKeepsRoom(c, offers, front, p, i);
      InitialInv(c, offers);
      RunKeeps(c, Initial(c, offers), front);
      StepKeepsRoom(c, After(c, Initial(c, offers), front), steps[|steps| - 1], p, i);
    }
  }

  // So the packing above is not enough: no download dead-ends for want of the first
  // block of the only peer that has it.
  lemma FirstOfSoleNeverLacks(w: Course, p: PeerId, i: nat)
    requires IsCourse(w) && w.c.maxInFlight >= 1 && i < w.c.info.blockCount && Holders(w.offers, i) == {p}
    requires forall j :: 0 <= j < i ==> j !in w.offers[p]
    ensures !(Frozen(w.c, End(w)) && MissingAt(End(w).sched, i, p))
  {
    SoleAtFirst(w.c, w.offers, p, i);
    CourseFits(w, |w.ticks|, |w.ticks|);
    CourseIsRun(w, |w.ticks|);
    RunKeepsRoom(w.c, w.offers, RunOf(w, |w.ticks|), p, i);
  }

  lemma SoleAtFirst(c: Setup, offers: map<PeerId, set<nat>>, p: PeerId, i: nat)
    requires i < c.info.blockCount && Holders(offers, i) == {p} && p in offers && forall j :: 0 <= j < i ==> j !in offers[p]
    ensures FirstOfSole(Initial(c, offers).sched, p, i)
  {
    forall q | q in offers && i in offers[q]
      ensures q == p
    {
      assert q in Holders(offers, i);
    }
    assert p in Holders(offers, i);
  }

  // Peer 0 has blocks 0 and 1, peer 1 has block 1, one request a peer.
  lemma PackingIsNotEnough()
    ensures Packs(map[0 := {0, 1}, 1 := {1}], 1, 2, 0, map[0 := {1}])
    ensures forall w: Course :: IsCourse(w) && w.c.maxInFlight == 1 && w.c.info.blockCount == 2 && w.offers == map[0 := {0, 1}, 1 := {1}] ==> !DeadEnded(w)
  {
    var offers: map<PeerId, set<nat>> := map[0 := {0, 1}, 1 := {1}];
    assert Holders(offers, 0) == {0};
    assert {1} <= offers[0] * Indices(2) - {0};
    forall w: Course | IsCourse(w) && w.c.maxInFlight == 1 && w.c.info.blockCount == 2 && w.offers == offers
      ensures !DeadEnded(w)
    {
      if DeadEnded(w) {
        NoDeadEndHere(w, offers);
      }
    }
  }

  lemma NoDeadEndHere(w: Course, offers: map<PeerId, set<nat>>)
    requires w.c.maxInFlight == 1 && w.c.info.blockCount == 2 && w.offers == offers && offers == map[0 := {0, 1}, 1 := {1}]
    ensures !DeadEnded(w)
  {
    if DeadEnded(w) {
      LacksFirst(w, offers);
      FirstOfSoleNeverLacks(w, 0, 0);
    }
  }

  lemma LacksFirst(w: Course, offers: map<PeerId, set<nat>>)
    requires w.c.maxInFlight == 1 && w.c.info.blockCount == 2 && w.offers == offers && offers == map[0 := {0, 1}, 1 := {1}]
    requires DeadEnded(w)
    ensures Holders(offers, 0) == {0} && MissingAt(End(w).sched, 0, 0)
  {
    var i, p :| MissingAt(End(w).sched, i, p);
    NeedsFewHolders(w, i, p);
    HoldersHere(offers);
    if i == 0 {
      assert p == 0;
    }
  }

  lemma HoldersHere(offers: map<PeerId, set<nat>>)
    requires offers == map[0 := {0, 1}, 1 := {1}]
    ensures Holders(offers, 0) == {0} && Holders(offers, 1) == {0, 1} && |Holders(offers, 1)| == 2
  {
    assert Holders(offers, 1) == {0, 1};
  }

  lemma NeedsFewHolders(w: Course, i: nat, p: PeerId)
    requires DeadEnded(w) && MissingAt(End(w).sched, i, p)
    ensures p in Holders(w.offers, i) && i < w.c.info.blockCount && |Holders(w.offers, i)| * w.c.maxInFlight < w.c.info.blockCount
  {
    DeadEndPacks(w, i, p);
    DeadEndNeedsHolders(w, i, p);
  }

  // ---- When everybody offers everything ----

  // Every peer offers every block, and a complete block is counted at some peer.
  ghost predicate AllSeed(c: Setup, st: State) {
    && Inv(c, st)
    && (forall p, i :: p in st.sched.peers && 0 <= i < c.info.blockCount ==> i in st.sched.peers[p].available)
    && (forall i :: 0 <= i < c.info.blockCount && st.sched.blocks[i].Complete? ==> CountedSomewhere(st.sched, i))
  }

  ghost predicate CountedSomewhere(s: Sched, i: nat) {
    exists p :: p in s.peers && i in s.peers[p].inFlight
  }

  ghost predicate AllFull(c: Setup, s: Sched) {
    forall p :: p in s.peers ==> |s.peers[p].inFlight| == c.maxInFlight
  }

  ghost predicate SomePending(s: Sched) {
    exists i :: 0 <= i < |s.blocks| && s.blocks[i].Pending?
  }

  ghost predicate FlyOnlyAt(s: Sched, q: PeerId) {
    forall i :: 0 <= i < |s.blocks| && s.blocks[i].InFlight? ==> s.blocks[i].peer == q
  }

  lemma SeedsAtFirst(c: Setup, offers: map<PeerId, set<nat>>)
    requires forall p :: p in offers ==> Indices(c.info.blockCount) <= offers[p]
    ensures AllSeed(c, Initial(c, offers)) && Initial(c, offers).sched.peers.Keys == offers.Keys
  {
    InitialInv(c, offers);
  }

  lemma ExpiryKeepsSeeds(c: Setup, st: State, now: nat, mid: State)
    requires AllSeed(c, st) && mid == Next(c, st, Expire(now))
    ensures AllSeed(c, mid) && mid.sched.peers.Keys == st.sched.peers.Keys
  {
    StepKeeps(c, st, Expire(now));
    forall i | 0 <= i < c.info.blockCount && mid.sched.blocks[i].Complete?
      ensures CountedSomewhere(mid.sched, i)
    {
      var p :| p in st.sched.peers && i in st.sched.peers[p].inFlight;
      assert i in mid.sched.peers[p].inFlight;
    }
  }

  lemma RoundKeepsSeeds(c: Setup, st: State, now: nat, picks: Picks, round: State)
    requires AllSeed(c, st) && IsDispatch(st.sched, c.maxInFlight, now, picks) && round == Next(c, st, Dispatch(now, picks))
    ensures AllSeed(c, round) && round.sched.peers.Keys == st.sched.peers.Keys
  {
    StepKeeps(c, st, Dispatch(now, picks));
    PickedArePending(st.sched, c.maxInFlight, now, picks);
    forall i | 0 <= i < c.info.blockCount && round.sched.blocks[i].Complete?
      ensures CountedSomewhere(round.sched, i)
    {
      var p :| p in st.sched.peers && i in st.sched.peers[p].inFlight;
      assert i in round.sched.peers[p].inFlight;
    }
  }

  lemma {:induction false} TakenWithin(taken: map<PeerId, set<nat>>, cap: nat, peers: set<PeerId>)
    requires forall p :: p in peers ==> p in taken && |taken[p]| <= cap
    ensures |TakenBy(taken, peers)| <= |peers| * cap
    decreases |peers|
  {
    if peers == {} {
      assert TakenBy(taken, peers) == {};
    } else {
      var p :| p in peers;
      TakenWithin(taken, cap, peers - {p});
      OneMoreTaken(taken, cap, peers - {p}, p);
      assert peers - {p} + {p} == peers;
    }
  }

  lemma OneMoreTaken(taken: map<PeerId, set<nat>>, cap: nat, rest: set<PeerId>, p: PeerId)
    requires p !in rest && p in taken && |taken[p]| <= cap && |TakenBy(taken, rest)| <= |rest| * cap
    ensures |TakenBy(taken, rest + {p})| <= |rest + {p}| * cap
  {
    var a, b := taken[p], TakenBy(taken, rest);
    TakenWith(taken, rest, p);
    assert a + b == a + (b - a);
    DisjointCard(a, b - a);
    SubsetCard(b - a, b);
    CapsWith(rest, p, cap);
  }

  // With fewer slots in all than blocks, one block is neither flying nor complete.
  lemma TooFewSlotsForAll(c: Setup, st: State)
    requires AllSeed(c, st) && |st.sched.peers.Keys| * c.maxInFlight < c.info.blockCount
    ensures SomePending(st.sched)
  {
    var taken, peers := CountedAt(st.sched), st.sched.peers.Keys;
    TakenWithin(taken, c.maxInFlight, peers);
    var i := OneLeft(TakenBy(taken, peers), c.info.blockCount);
    if !st.sched.blocks[i].Pending? {
      NotPendingIsTaken(c, st, i);
    }
  }

  lemma NotPendingIsTaken(c: Setup, st: State, i: nat)
    requires AllSeed(c, st) && i < c.info.blockCount && !st.sched.blocks[i].Pending?
    ensures i in TakenBy(CountedAt(st.sched), st.sched.peers.Keys)
  {
    NotPendingIsCounted(c, st, i);
    var p :| p in st.sched.peers && i in st.sched.peers[p].inFlight;
    CountedIsTaken(st.sched, p, i);
  }

  lemma CountedIsTaken(s: Sched, p: PeerId, i: nat)
    requires p in s.peers && i in s.peers[p].inFlight
    ensures i in TakenBy(CountedAt(s), s.peers.Keys)
  {
    assert p in CountedAt(s) && i in CountedAt(s)[p];
  }

  lemma NotPendingIsCounted(c: Setup, st: State, i: nat)
    requires AllSeed(c, st) && i < c.info.blockCount && !st.sched.blocks[i].Pending?
    ensures CountedSomewhere(st.sched, i)
  {
    if st.sched.blocks[i].InFlight? {
      assert Flying(st.sched, i, st.sched.blocks[i].peer);
    }
  }

  // Then every round fills everybody.
  lemma RoundFillsSeeds(c: Setup, st: State, now: nat, picks: Picks, round: State)
    requires AllSeed(c, st) && IsDispatch(st.sched, c.maxInFlight, now, picks) && round == Next(c, st, Dispatch(now, picks))
    requires |st.sched.peers.Keys| * c.maxInFlight < c.info.blockCount
    ensures AllSeed(c, round) && round.sched.peers.Keys == st.sched.peers.Keys && AllFull(c, round.sched) && SomePending(round.sched)
  {
    RoundKeepsSeeds(c, st, now, picks, round);
    TooFewSlotsForAll(c, round);
    var i :| 0 <= i < |round.sched.blocks| && round.sched.blocks[i].Pending?;
    forall p | p in round.sched.peers
      ensures |round.sched.peers[p].inFlight| == c.maxInFlight
    {
      RoundIsMaximal(st.sched, c.maxInFlight, now, picks, i, p);
    }
  }

  // ---- One peer sends what the others were asked for ----

  function FlyingElsewhere(s: Sched, q: PeerId): set<nat> {
    set i | 0 <= i < |s.blocks| && s.blocks[i].InFlight? && s.blocks[i].peer != q
  }

  lemma GiftOfFlights(c: Setup, st: State, q: PeerId, data: Bytes, size: nat, batch: seq<nat>, reply: Reply)
    requires AllSeed(c, st) && HashesOf(c.h, c.info, data, size) && q in st.sched.peers
    requires batch == Ascending(FlyingElsewhere(st.sched, q), c.info.blockCount) && reply == GenuineBlocks(data, size, batch)
    ensures ReceiversAfter(c.h, c.info, st.receivers, q, reply).1 == batch
    ensures ReplyIndices(reply) == Elements(batch) == FlyingElsewhere(st.sched, q)
    ensures !Aborts(c.info, st.receivers, q, reply)
  {
    AscendingIsAll(FlyingElsewhere(st.sched, q), c.info.blockCount);
    forall k | 0 <= k < |batch|
      ensures batch[k] < c.info.blockCount && st.receivers[q][batch[k]].None?
    {
      FlyingIsNew(c, st, batch[k], q);
    }
    ChunksFit(c, data, size);
    GiftIsAccepted(c, st, q, data, size, batch);
    BatchAnswersAll(data, size, batch);
    EnoughHashes(c, st, q, reply);
  }

  lemma ChunksFit(c: Setup, data: Bytes, size: nat)
    requires HashesOf(c.h, c.info, data, size)
    ensures c.info.blockCount == |Blocks.Chunks(data, size)|
  {
  }

  lemma FlyingIsNew(c: Setup, st: State, i: nat, q: PeerId)
    requires Inv(c, st) && i < |st.sched.blocks| && st.sched.blocks[i].InFlight? && q in st.receivers
    ensures i < |st.receivers[q]| && st.receivers[q][i].None?
  {
    assert !Held(st.receivers, i);
    assert !Holds(st.receivers, q, i);
  }

  // No slot is freed by it, and what still flies is at that peer.
  lemma GiftKeepsSlots(c: Setup, st: State, q: PeerId, batch: seq<nat>, reply: Reply, t: Sched)
    requires SchedInv(st.sched, c.maxInFlight) && q in st.sched.peers && t == AfterReply(st.sched, q, reply, batch)
    requires ReplyIndices(reply) == Elements(batch) == FlyingElsewhere(st.sched, q)
    ensures t.peers.Keys == st.sched.peers.Keys
    ensures forall p :: p in t.peers ==> t.peers[p].inFlight == st.sched.peers[p].inFlight && t.peers[p].available == st.sched.peers[p].available
  {
    forall i | i in st.sched.peers[q].inFlight
      ensures i !in FlyingElsewhere(st.sched, q)
    {
      assert Flying(st.sched, i, q) || st.sched.blocks[i].Complete?;
    }
    assert st.sched.peers[q].inFlight - ReplyIndices(reply) == st.sched.peers[q].inFlight;
  }

  lemma GiftEndsFlights(s: Sched, q: PeerId, batch: seq<nat>, reply: Reply, t: Sched)
    requires t == AfterReply(s, q, reply, batch)
    requires ReplyIndices(reply) == Elements(batch) == FlyingElsewhere(s, q)
    ensures |t.blocks| == |s.blocks|
    ensures forall i :: 0 <= i < |s.blocks| ==> t.blocks[i] == if i in FlyingElsewhere(s, q) then Complete else s.blocks[i]
  {
    forall i | 0 <= i < |s.blocks|
      ensures t.blocks[i] == if i in FlyingElsewhere(s, q) then Complete else s.blocks[i]
    {
      assert i in batch <==> i in Elements(batch);
    }
  }

  lemma GiftKeepsSeeds(c: Setup, st: State, q: PeerId, data: Bytes, size: nat, reply: Reply, end: State)
    requires AllSeed(c, st) && HashesOf(c.h, c.info, data, size) && q in st.sched.peers && SomePending(st.sched) && AllFull(c, st.sched)
    requires reply == GenuineBlocks(data, size, Ascending(FlyingElsewhere(st.sched, q), c.info.blockCount))
    requires end == Next(c, st, Answer(q, reply))
    ensures !Aborts(c.info, st.receivers, q, reply) && AllSeed(c, end) && GiftLeaves(c, st, q, end)
  {
    var batch := Ascending(FlyingElsewhere(st.sched, q), c.info.blockCount);
    GiftOfFlights(c, st, q, data, size, batch, reply);
    StepKeeps(c, st, Answer(q, reply));
    AfterGift(c, st, q, batch, reply, end);
  }

  lemma AfterGift(c: Setup, st: State, q: PeerId, batch: seq<nat>, reply: Reply, end: State)
    requires AllSeed(c, st) && Inv(c, end) && q in st.sched.peers && SomePending(st.sched) && AllFull(c, st.sched)
    requires end.sched == AfterReply(st.sched, q, reply, batch)
    requires ReplyIndices(reply) == Elements(batch) == FlyingElsewhere(st.sched, q)
    ensures AllSeed(c, end) && GiftLeaves(c, st, q, end)
  {
    GiftKeepsSlots(c, st, q, batch, reply, end.sched);
    GiftEndsFlights(st.sched, q, batch, reply, end.sched);
    SeedsAfterGift(c, st, end, q);
    LeavesAfterGift(c, st, end, q);
  }

  // Slots as before, a block pending, and what still flies flew at q before.
  ghost predicate GiftLeaves(c: Setup, st: State, q: PeerId, end: State) {
    && end.sched.peers.Keys == st.sched.peers.Keys && AllFull(c, end.sched) && SomePending(end.sched)
    && forall i :: 0 <= i < |end.sched.blocks| && end.sched.blocks[i].InFlight? ==>
         i < |st.sched.blocks| && st.sched.blocks[i].InFlight? && end.sched.blocks[i].peer == st.sched.blocks[i].peer == q
  }

  lemma LeavesAfterGift(c: Setup, st: State, end: State, q: PeerId)
    requires AllFull(c, st.sched) && SomePending(st.sched) && end.sched.peers.Keys == st.sched.peers.Keys && |end.sched.blocks| == |st.sched.blocks|
    requires forall p :: p in end.sched.peers ==> end.sched.peers[p].inFlight == st.sched.peers[p].inFlight
    requires forall i :: 0 <= i < |st.sched.blocks| ==> end.sched.blocks[i] == if i in FlyingElsewhere(st.sched, q) then Complete else st.sched.blocks[i]
    ensures GiftLeaves(c, st, q, end)
  {
    var i :| 0 <= i < |st.sched.blocks| && st.sched.blocks[i].Pending?;
    assert end.sched.blocks[i].Pending?;
  }

  lemma SeedsAfterGift(c: Setup, st: State, end: State, q: PeerId)
    requires AllSeed(c, st) && Inv(c, end) && end.sched.peers.Keys == st.sched.peers.Keys
    requires forall p :: p in end.sched.peers ==> end.sched.peers[p].inFlight == st.sched.peers[p].inFlight && end.sched.peers[p].available == st.sched.peers[p].available
    requires forall i :: 0 <= i < |st.sched.blocks| ==> end.sched.blocks[i] == if i in FlyingElsewhere(st.sched, q) then Complete else st.sched.blocks[i]
    ensures AllSeed(c, end)
  {
    forall i | 0 <= i < c.info.blockCount && end.sched.blocks[i].Complete?
      ensures CountedSomewhere(end.sched, i)
    {
      NotPendingIsCounted(c, st, i);
      var p :| p in st.sched.peers && i in st.sched.peers[p].inFlight;
      assert i in end.sched.peers[p].inFlight;
    }
  }

  // ---- Two turns ----

  // Between turns at one instant: everybody is full, and what flies flies at q.
  ghost predicate FullAt(c: Setup, started: nat, l: Loop, peers: set<PeerId>) {
    && AllSeed(c, l.st) && l.st.sched.peers.Keys == peers && l.exit.None? && l.stallAt == started + c.timeout
  }

  // A turn that ends with q's gift of all that flies elsewhere.
  lemma GiftTurnFor(c: Setup, overall: nat, l: Loop, peers: set<PeerId>, started: nat, q: PeerId, data: Bytes, size: nat)
    returns (tick: Tick, picks: Picks, mid: State, round: State, n: Loop)
    requires FullAt(c, started, l, peers) && HashesOf(c.h, c.info, data, size) && q in peers && started < overall
    requires c.maxInFlight >= 1 && |peers| * c.maxInFlight < c.info.blockCount
    ensures PickedWell(c, overall, l, tick, picks) && Turn(c, overall, l, tick, picks) == n
    ensures FullAt(c, started, n, peers) && GiftLeaves(c, round, q, n.st) && AllFull(c, round.sched)
    ensures mid == Next(c, l.st, Expire(started)) && IsDispatch(mid.sched, c.maxInFlight, started, picks) && round == Next(c, mid, Dispatch(started, picks))
  {
    mid := Next(c, l.st, Expire(started));
    ExpiryKeepsSeeds(c, l.st, started, mid);
    picks := RoundExists(mid.sched, c.maxInFlight, started);
    round := Next(c, mid, Dispatch(started, picks));
    RoundFillsSeeds(c, mid, started, picks, round);
    var reply := GenuineBlocks(data, size, Ascending(FlyingElsewhere(round.sched, q), c.info.blockCount));
    var end := Next(c, round, Answer(q, reply));
    GiftKeepsSeeds(c, round, q, data, size, reply, end);
    tick, n := GiftAt(started, q, reply), Loop(end, started + c.timeout, None);
    GiftIsHeard(c, overall, l, tick, picks, mid, round, q, reply, end, started);
  }

  lemma GiftIsHeard(c: Setup, overall: nat, l: Loop, tick: Tick, picks: Picks, mid: State, round: State, q: PeerId, reply: Reply, end: State, started: nat)
    requires l.exit.None? && l.stallAt == started + c.timeout && started < overall && tick == GiftAt(started, q, reply)
    requires mid == Next(c, l.st, Expire(started)) && IsDispatch(mid.sched, c.maxInFlight, started, picks) && round == Next(c, mid, Dispatch(started, picks))
    requires !Aborts(c.info, round.receivers, q, reply) && end == Next(c, round, Answer(q, reply)) && q in round.sched.peers
    requires c.maxInFlight >= 1 && AllFull(c, round.sched) && Inv(c, end) && SomePending(end.sched)
    ensures PickedWell(c, overall, l, tick, picks) && Turn(c, overall, l, tick, picks) == Loop(end, started + c.timeout, None)
  {
    PendingIncomplete(c, end);
    assert |round.sched.peers[q].inFlight| >= 1;
    BusyIsNotIdle(round.sched, q);
    TurnHears(c, overall, l, tick, picks, round);
  }

  lemma PendingIncomplete(c: Setup, st: State)
    requires Inv(c, st) && SomePending(st.sched)
    ensures !LedgerComplete(st.receivers, c.info.blockCount)
  {
    CompleteTogether(c, st);
  }

  // When what flew before flew at r alone and everybody was full, a round sends
  // nothing but to r.
  lemma OnlyOneRefills(c: Setup, st: State, r: PeerId, now: nat, mid: State, picks: Picks, round: State)
    requires Inv(c, st) && FlyOnlyAt(st.sched, r) && AllFull(c, st.sched) && Inv(c, mid)
    requires mid == Next(c, st, Expire(now)) && IsDispatch(mid.sched, c.maxInFlight, now, picks) && round == Next(c, mid, Dispatch(now, picks))
    ensures FlyOnlyAt(round.sched, r)
  {
    StepKeeps(c, mid, Dispatch(now, picks));
    forall i | 0 <= i < |round.sched.blocks| && round.sched.blocks[i].InFlight?
      ensures round.sched.blocks[i].peer == r
    {
      if picks[i].Some? && picks[i].value != r {
        NoRoomBut(c, st, r, now, mid, picks, round, picks[i].value, i);
      }
    }
  }

  lemma NoRoomBut(c: Setup, st: State, r: PeerId, now: nat, mid: State, picks: Picks, round: State, p: PeerId, i: nat)
    requires Inv(c, mid) && Inv(c, round) && FlyOnlyAt(st.sched, r) && AllFull(c, st.sched) && p != r
    requires mid == Next(c, st, Expire(now)) && IsDispatch(mid.sched, c.maxInFlight, now, picks) && round == Next(c, mid, Dispatch(now, picks))
    ensures i < |picks| ==> picks[i] != Some(p)
  {
    if i < |picks| && picks[i] == Some(p) {
      PickedArePending(mid.sched, c.maxInFlight, now, picks);
      assert PickedFor(picks, i, p) && i in Given(picks, p) && i in Assigned(picks);
      KeepsFull(c, st, r, now, mid, p);
      PendingIsUncounted(mid.sched, c.maxInFlight, i, p);
      OverFull(mid.sched.peers[p].inFlight, round.sched.peers[p].inFlight, i);
    }
  }

  lemma KeepsFull(c: Setup, st: State, r: PeerId, now: nat, mid: State, p: PeerId)
    requires FlyOnlyAt(st.sched, r) && AllFull(c, st.sched) && p != r && p in mid.sched.peers && mid == Next(c, st, Expire(now))
    ensures |mid.sched.peers[p].inFlight| == c.maxInFlight
  {
    assert FlyingAt(st.sched, p) == {};
    assert mid.sched.peers[p].inFlight == st.sched.peers[p].inFlight;
  }

  lemma OverFull(before: set<nat>, after: set<nat>, i: nat)
    requires before <= after && i in after && i !in before
    ensures |after| > |before|
  {
    SubsetCard(before, after);
  }

  // The second turn, by another peer, leaves nothing flying.
  lemma SecondGiftFreezes(c: Setup, l: Loop, q: PeerId, r: PeerId, started: nat, mid: State, picks: Picks, round: State, n: Loop)
    requires Inv(c, l.st) && FlyOnlyAt(l.st.sched, r) && AllFull(c, l.st.sched) && q != r && q in n.st.sched.peers
    requires mid == Next(c, l.st, Expire(started)) && IsDispatch(mid.sched, c.maxInFlight, started, picks) && round == Next(c, mid, Dispatch(started, picks))
    requires AllSeed(c, n.st) && GiftLeaves(c, round, q, n.st) && c.maxInFlight >= 1
    ensures Frozen(c, n.st) && exists i :: MissingAt(n.st.sched, i, q)
  {
    StepKeeps(c, l.st, Expire(started));
    OnlyOneRefills(c, l.st, r, started, mid, picks, round);
    NothingFlies(c, round, q, r, n.st);
    FullIsFrozen(c, n.st, q);
  }

  lemma NothingFlies(c: Setup, round: State, q: PeerId, r: PeerId, end: State)
    requires FlyOnlyAt(round.sched, r) && GiftLeaves(c, round, q, end) && q != r
    ensures NoFlights(end.sched)
  {
  }

  lemma FullIsFrozen(c: Setup, st: State, q: PeerId)
    requires AllSeed(c, st) && AllFull(c, st.sched) && SomePending(st.sched) && NoFlights(st.sched) && q in st.sched.peers && c.maxInFlight >= 1
    ensures Frozen(c, st) && exists i :: MissingAt(st.sched, i, q)
  {
    var i :| 0 <= i < |st.sched.blocks| && st.sched.blocks[i].Pending?;
    assert MissingAt(st.sched, i, q);
    assert |st.sched.peers[q].inFlight| >= 1;
  }

  lemma FirstIsFull(c: Setup, offers: map<PeerId, set<nat>>, started: nat, first: Picks)
    requires forall p :: p in offers ==> Indices(c.info.blockCount) <= offers[p]
    requires IsDispatch(Initial(c, offers).sched, c.maxInFlight, started, first)
    ensures FullAt(c, started, SentOut(c, Initial(c, offers), started, first), offers.Keys)
  {
    SeedsAtFirst(c, offers);
    RoundKeepsSeeds(c, Initial(c, offers), started, first, Next(c, Initial(c, offers), Dispatch(started, first)));
  }

  lemma TwoGifts(c: Setup, overall: nat, l: Loop, peers: set<PeerId>, started: nat, q: PeerId, r: PeerId, data: Bytes, size: nat)
    returns (t0: Tick, p0: Picks, l1: Loop, t1: Tick, p1: Picks, l2: Loop)
    requires FullAt(c, started, l, peers) && HashesOf(c.h, c.info, data, size) && q in peers && r in peers && q != r && started < overall
    requires c.maxInFlight >= 1 && |peers| * c.maxInFlight < c.info.blockCount
    ensures Moves(c, overall, l, t0, p0, l1) && Moves(c, overall, l1, t1, p1, l2)
    ensures l2.exit.None? && Frozen(c, l2.st) && exists i :: MissingAt(l2.st.sched, i, r)
  {
    var mid, round;
    t0, p0, mid, round, l1 := GiftTurnFor(c, overall, l, peers, started, q, data, size);
    LeftAtOne(c, round, q, l1.st);
    t1, p1, mid, round, l2 := GiftTurnFor(c, overall, l1, peers, started, r, data, size);
    SecondGiftFreezes(c, l1, r, q, started, mid, p1, round, l2);
  }

  lemma LeftAtOne(c: Setup, round: State, q: PeerId, end: State)
    requires GiftLeaves(c, round, q, end)
    ensures FlyOnlyAt(end.sched, q) && AllFull(c, end.sched)
  {
  }

  lemma TwoTurnCourse(c: Setup, offers: map<PeerId, set<nat>>, started: nat, overall: nat, first: Picks, l: Loop,
                      t0: Tick, p0: Picks, l1: Loop, t1: Tick, p1: Picks, l2: Loop) returns (w: Course)
    requires IsDispatch(Initial(c, offers).sched, c.maxInFlight, started, first) && l == SentOut(c, Initial(c, offers), started, first)
    requires Moves(c, overall, l, t0, p0, l1) && Moves(c, overall, l1, t1, p1, l2)
    ensures w.c == c && w.offers == offers && w.started == started && w.overall == overall && |w.ticks| == 2 && Stands(w, 2, l2)
  {
    w := Course(c, offers, started, overall, first, [t0, t1], [p0, p1]);
    assert Stands(w, 0, l);
    Advance(w, 0, l, l1);
    Advance(w, 1, l1, l2);
  }

  ghost predicate CanDeadEndOn(c: Setup, started: nat, overall: nat, offers: map<PeerId, set<nat>>) {
    exists w: Course :: DeadEnded(w) && w.c == c && w.started == started && w.overall == overall && w.offers == offers
  }

  lemma SeedsDeadEnd(c: Setup, started: nat, overall: nat, offers: map<PeerId, set<nat>>, data: Bytes, size: nat) returns (w: Course)
    requires HashesOf(c.h, c.info, data, size) && c.maxInFlight >= 1 && started < overall
    requires forall p :: p in offers ==> Indices(c.info.blockCount) <= offers[p]
    requires |offers.Keys| >= 2 && |offers.Keys| * c.maxInFlight < c.info.blockCount
    ensures DeadEnded(w) && w.c == c && w.started == started && w.overall == overall && w.offers == offers
  {
    var q, r := TwoMembers(offers.Keys);
    var first := RoundExists(Initial(c, offers).sched, c.maxInFlight, started);
    FirstIsFull(c, offers, started, first);
    var l := SentOut(c, Initial(c, offers), started, first);
    var t0, p0, l1, t1, p1, l2 := TwoGifts(c, overall, l, offers.Keys, started, q, r, data, size);
    w := TwoTurnCourse(c, offers, started, overall, first, l, t0, p0, l1, t1, p1, l2);
    StandsDead(w, l2, r);
  }

  lemma StandsDead(w: Course, l: Loop, p: PeerId)
    requires Stands(w, |w.ticks|, l) && l.exit.None? && Frozen(w.c, l.st) && exists i :: MissingAt(l.st.sched, i, p)
    ensures DeadEnded(w)
  {
    var i :| MissingAt(l.st.sched, i, p);
    assert MissingAt(End(w).sched, i, p);
  }

  lemma SeedsNeed(w: Course)
    requires DeadEnded(w) && forall p :: p in w.offers ==> Indices(w.c.info.blockCount) <= w.offers[p]
    ensures |w.offers.Keys| >= 2 && |w.offers.Keys| * w.c.maxInFlight < w.c.info.blockCount
  {
    var i, p :| MissingAt(End(w).sched, i, p);
    DeadEndNeedsHolders(w, i, p);
    DeadEndPacks(w, i, p);
    EverybodyHolds(w.offers, w.c.info.blockCount, i);
  }

  lemma EverybodyHolds(offers: map<PeerId, set<nat>>, n: nat, i: nat)
    requires i < n && forall p :: p in offers ==> Indices(n) <= offers[p]
    ensures Holders(offers, i) == offers.Keys
  {
    assert i in Indices(n);
  }

  // Everybody offers everything: a dead end is possible exactly when there are two
  // peers and all the caps together fall short of the blocks.
  lemma SeedsDeadEndIff(c: Setup, started: nat, overall: nat, offers: map<PeerId, set<nat>>, data: Bytes, size: nat)
    requires HashesOf(c.h, c.info, data, size) && c.maxInFlight >= 1 && started < overall
    requires forall p :: p in offers ==> Indices(c.info.blockCount) <= offers[p]
    ensures CanDeadEndOn(c, started, overall, offers) <==> |offers.Keys| >= 2 && |offers.Keys| * c.maxInFlight < c.info.blockCount
  {
    if CanDeadEndOn(c, started, overall, offers) {
      var w: Course :| DeadEnded(w) && w.c == c && w.started == started && w.overall == overall && w.offers == offers;
      SeedsNeed(w);
    }
    if |offers.Keys| >= 2 && |offers.Keys| * c.maxInFlight < c.info.blockCount {
      var w := SeedsDeadEnd(c, started, overall, offers, data, size);
    }
  }
}
