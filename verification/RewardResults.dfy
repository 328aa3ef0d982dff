/**
 What a snapshot pays: from the first block of the snapshot, over any run inside it,
 to the result that its last block stores.
 */
module RewardResults {
  import opened Outcomes
  import opened Listings
  import opened Multisig
  import opened Committees
  import opened Subnets
  import opened SubnetLog
  import opened SubnetCore
  import opened Rewards
  import opened RewardMinima
  import opened RewardRuns
  import opened RewardSnapshots
  import opened RewardOffices

  /** A list of committees for each subnet. */
  type PerSubnet = SubnetId -> seq<Committee>

  ghost function ShareOver(lists: PerSubnet, k: Key): SubnetId -> int {
    (id: SubnetId) => OrZero(LeastOver(lists(id), k))
  }

  /** All minima over a list; only members of its first committee can have one. */
  ghost function AmountsOver(cs: seq<Committee>): map<Key, nat> {
    if cs == [] then map[]
    else map k | k in PubKeys(cs[0].validators) && LeastOver(cs, k).Some? :: LeastOver(cs, k).value
  }

  ghost function TotalOver(lists: PerSubnet): SubnetId -> int {
    (id: SubnetId) => MapSum(AmountsOver(lists(id)))
  }

  /** The amounts listed are all there are. */
  lemma AmountsOverAll(cs: seq<Committee>, k: Key)
    ensures k in AmountsOver(cs) <==> LeastOver(cs, k).Some?
    ensures k in AmountsOver(cs) ==> LeastOver(cs, k) == Some(AmountsOver(cs)[k])
  {
    if LeastOver(cs, k).Some? {
      assert IsLeast(cs, k, LeastOver(cs, k).value);
      assert HoldsAtLeast(cs[0], k, LeastOver(cs, k).value);
    }
  }

  ghost predicate SameAt(x: map<Key, nat>, y: map<Key, nat>, k: Key) {
    (k in x <==> k in y) && (k in x && k in y ==> x[k] == y[k])
  }

  lemma SameMaps(x: map<Key, nat>, y: map<Key, nat>)
    requires forall k :: SameAt(x, y, k)
    ensures x == y
  {
    assert forall k :: k in x ==> SameAt(x, y, k);
    assert forall k :: k in y ==> SameAt(x, y, k);
  }

  lemma SameMinimumAt(a: seq<Committee>, b: seq<Committee>, k: Key)
    requires LeastOver(a, k) == LeastOver(b, k)
    ensures SameAt(AmountsOver(a), AmountsOver(b), k)
  {
    AmountsOverAll(a, k);
    AmountsOverAll(b, k);
  }

  /** Lists with the same minima have the same total. */
  lemma SameMinimaSameTotal(a: PerSubnet, b: PerSubnet, id: SubnetId)
    requires forall k :: LeastOver(a(id), k) == LeastOver(b(id), k)
    ensures TotalOver(a)(id) == TotalOver(b)(id)
  {
    forall k
      ensures SameAt(AmountsOver(a(id)), AmountsOver(b(id)), k)
    {
      SameMinimumAt(a(id), b(id), k);
    }
    SameMaps(AmountsOver(a(id)), AmountsOver(b(id)));
  }

  /** Eager: all committees in office, read off the run. */
  function InOffice(w: World, evs: seq<MonitorEvent>): PerSubnet {
    (id: SubnetId) => Offices(w, evs, id)
  }

  /** What the tracker counts: the opening committee, and those of records whose number it had not seen. */
  function FromOpening(w: World, evs: seq<MonitorEvent>): PerSubnet {
    (id: SubnetId) => if Bootstrapped(w, id) then [Office(w, id)] + Counted(w, evs, id, OfficeNumber(w, id)) else []
  }

  // ---------------------------------------------------------------------
  // No committee of a run has a member twice

  lemma OfficeDistinct(w: World, id: SubnetId, now: nat)
    requires WorldOk(w, now) && Bootstrapped(w, id)
    ensures DistinctValidators(Office(w, id).validators)
  {
  }

  lemma RunStep(cfg: RewardConfig, snapshot: nat, w: World, evs: seq<MonitorEvent>, now: nat)
    requires ValidConfig(cfg) && WorldOk(w, now) && SnapshotRun(cfg, snapshot, w, evs, now) && evs != []
    ensures WorldOk(WorldAfter(w, evs[0]), HeightOf(evs[0]))
    ensures SnapshotRun(cfg, snapshot, WorldAfter(w, evs[0]), evs[1..], HeightOf(evs[0]))
  {
    NextWorld(w, evs[0], now);
  }

  lemma DistinctTogether(a: seq<Committee>, b: seq<Committee>)
    requires AllDistinct(a) && AllDistinct(b)
    ensures AllDistinct(a + b)
  {
  }

  /** The committee in office, if there is one. */
  function OfficeNow(w: World, id: SubnetId): seq<Committee> {
    if Bootstrapped(w, id) then [Office(w, id)] else []
  }

  lemma OfficeNowDistinct(w: World, id: SubnetId, now: nat)
    requires WorldOk(w, now)
    ensures AllDistinct(OfficeNow(w, id))
  {
    if Bootstrapped(w, id) {
      OfficeDistinct(w, id, now);
    }
  }

  lemma {:induction false} OfficesDistinct(cfg: RewardConfig, snapshot: nat, w: World, evs: seq<MonitorEvent>, id: SubnetId, now: nat)
    requires ValidConfig(cfg) && WorldOk(w, now) && SnapshotRun(cfg, snapshot, w, evs, now)
    ensures AllDistinct(Offices(w, evs, id))
    decreases |evs|
  {
    OfficeNowDistinct(w, id, now);
    if evs == [] {
      assert Offices(w, evs, id) == OfficeNow(w, id) + [];
    } else {
      var w' := WorldAfter(w, evs[0]);
      RunStep(cfg, snapshot, w, evs, now);
      OfficesDistinct(cfg, snapshot, w', evs[1..], id, HeightOf(evs[0]));
      assert Offices(w, evs, id) == OfficeNow(w, id) + Offices(w', evs[1..], id);
      DistinctTogether(OfficeNow(w, id), Offices(w', evs[1..], id));
    }
  }

  lemma OneDistinct(c: Committee)
    requires DistinctValidators(c.validators)
    ensures AllDistinct([c])
  {
  }

  lemma StoredDistinct(s: Subnet, n: nat, now: nat)
    requires Core(s, now) && n in s.committees
    ensures DistinctValidators(s.committees[n].validators)
  {
  }

  lemma TableDistinct(w: World, id: SubnetId, n: nat, now: nat)
    requires WorldOk(w, now) && id in w && n in w[id].subnet.committees
    ensures DistinctValidators(w[id].subnet.committees[n].validators)
  {
    assert TrackedOk(w[id], now);
    StoredDistinct(w[id].subnet, n, now);
  }

  lemma CountsDistinct(w: World, e: MonitorEvent, id: SubnetId, recent: nat, now: nat, counted: seq<Committee>)
    requires WorldOk(WorldAfter(w, e), now)
    requires var r := Counts(w, e, id, recent);
      counted == if r.None? then [] else [Step(w[id].subnet, e.event).committees[r.value.nextCommittee]]
    ensures AllDistinct(counted)
  {
    var r := Counts(w, e, id, recent);
    if r.Some? {
      assert id in WorldAfter(w, e) && WorldAfter(w, e)[id].subnet == Step(w[id].subnet, e.event);
      TableDistinct(WorldAfter(w, e), id, r.value.nextCommittee, now);
      OneDistinct(counted[0]);
    }
  }

  lemma FirstCounted(w: World, evs: seq<MonitorEvent>, id: SubnetId, recent: nat) returns (recent': nat, first: seq<Committee>)
    requires evs != [] && WorldOk(WorldAfter(w, evs[0]), HeightOf(evs[0]))
    ensures AllDistinct(first)
    ensures Counted(w, evs, id, recent) == first + Counted(WorldAfter(w, evs[0]), evs[1..], id, recent')
  {
    recent', first := CountedUnfold(w, evs, id, recent, []);
    CountsDistinct(w, evs[0], id, recent, HeightOf(evs[0]), first);
  }

  lemma {:induction false} CountedDistinct(cfg: RewardConfig, snapshot: nat, w: World, evs: seq<MonitorEvent>, id: SubnetId, recent: nat, now: nat)
    requires ValidConfig(cfg) && WorldOk(w, now) && SnapshotRun(cfg, snapshot, w, evs, now)
    ensures AllDistinct(Counted(w, evs, id, recent))
    decreases |evs|
  {
    if evs != [] {
      RunStep(cfg, snapshot, w, evs, now);
      var recent', first := FirstCounted(w, evs, id, recent);
      CountedDistinct(cfg, snapshot, WorldAfter(w, evs[0]), evs[1..], id, recent', HeightOf(evs[0]));
      DistinctTogether(first, Counted(WorldAfter(w, evs[0]), evs[1..], id, recent'));
    }
  }

  lemma FromOpeningDistinct(cfg: RewardConfig, snapshot: nat, w: World, evs: seq<MonitorEvent>, id: SubnetId, now: nat)
    requires ValidConfig(cfg) && WorldOk(w, now) && SnapshotRun(cfg, snapshot, w, evs, now)
    ensures AllDistinct(FromOpening(w, evs)(id))
  {
    if Bootstrapped(w, id) {
      OfficeDistinct(w, id, now);
      CountedDistinct(cfg, snapshot, w, evs, id, OfficeNumber(w, id), now);
    }
  }

  /** The subnets that were bootstrapped when the snapshot began and are not killed when it ends. */
  function PaidIds(w: World, w': World): set<SubnetId> {
    set id | id in w && Bootstrapped(w, id) && !IsKilled(w', id)
  }

  /**
   The result pays each key the sum, over these subnets, of its minimum over the subnet's
   list, and the total is the sum of all these minima.
   */
  ghost predicate PaysMinima(r: SnapshotResult, lists: PerSubnet, ids: seq<SubnetId>) {
    && (forall k :: Entry(r.rewards, k) == Sum(ids, ShareOver(lists, k)))
    && (forall k :: k in r.rewards <==> exists id :: id in ids && LeastOver(lists(id), k).Some?)
    && r.total == Sum(ids, TotalOver(lists))
  }

  // ---------------------------------------------------------------------
  // The first block

  /** In the present, the active subnets are those bootstrapped and not killed. */
  lemma ActiveNowExactly(t: Tracked, now: nat, to: nat)
    requires TrackedOk(t, now) && now <= to
    ensures Active(t, now, to) <==> t.subnet.state.Some? && !t.subnet.state.value.killed.Killed?
  {
  }

  lemma StartedAt(w: World, t: Tracker, snapshot: nat, from: nat, to: nat, id: SubnetId)
    requires (snapshot, id) !in t.candidates
    ensures var t' := Started(w, t, snapshot, from, to);
      && ((snapshot, id) in t'.candidates <==> id in w && Active(w[id], from, to))
      && ((snapshot, id) in t'.candidates ==> t'.candidates[(snapshot, id)] == RewardInfo(w[id].subnet.state.value.committeeNumber, None))
  {
  }

  lemma FirstRowOk(w: World, t: Tracker, snapshot: nat, id: SubnetId, now: nat)
    requires TrackedOkAt(w, id, now) && Bootstrapped(w, id)
    requires (snapshot, id) in t.candidates <==> !IsKilled(w, id)
    requires (snapshot, id) in t.candidates ==> t.candidates[(snapshot, id)] == RewardInfo(OfficeNumber(w, id), None)
    ensures RowOk(w, t, snapshot, id, OfficeNumber(w, id), [Office(w, id)])
  {
  }

  /** Opening a snapshot gives every bootstrapped subnet that is not killed its row. */
  lemma OpenedRow(cfg: RewardConfig, w: World, t: Tracker, snapshot: nat, id: SubnetId)
    requires ValidConfig(cfg) && WorldOk(w, Start(cfg, snapshot)) && (snapshot, id) !in t.candidates
    ensures Bootstrapped(w, id) ==>
      RowOk(w, Opened(cfg, w, t, Start(cfg, snapshot)), snapshot, id, OfficeNumber(w, id), [Office(w, id)])
    ensures !Bootstrapped(w, id) ==> (snapshot, id) !in Opened(cfg, w, t, Start(cfg, snapshot)).candidates
  {
    SnapshotsTile(cfg, Start(cfg, snapshot), snapshot);
    StartedAt(w, t, snapshot, Start(cfg, snapshot), End(cfg, snapshot), id);
    if id in w {
      ActiveNowExactly(w[id], Start(cfg, snapshot), End(cfg, snapshot));
    }
    if Bootstrapped(w, id) {
      FirstRowOk(w, Opened(cfg, w, t, Start(cfg, snapshot)), snapshot, id, Start(cfg, snapshot));
    }
  }

  // ---------------------------------------------------------------------
  // The rows at the end

  /** The row stands for the minima over the list. */
  ghost predicate RowStandsFor(m: Monitor, snapshot: nat, id: SubnetId, seen: seq<Committee>) {
    && Bootstrapped(m.world, id) && seen != []
    && ((snapshot, id) in m.tracker.candidates <==> !IsKilled(m.world, id))
    && ((snapshot, id) in m.tracker.candidates ==>
          && GoodRow(m.world, m.tracker, snapshot, id)
          && forall k :: Lookup(RowAmounts(m.world, m.tracker, snapshot, id).value, k) == MinOver(seen, k))
  }

  /** A row that is still there can be read, and gives the minima. */
  lemma RowReads(m: Monitor, snapshot: nat, id: SubnetId, recent: nat, seen: seq<Committee>)
    requires MonitorRowOk(m, snapshot, id, recent, seen)
    ensures RowStandsFor(m, snapshot, id, seen)
  {
    if (snapshot, id) in m.tracker.candidates {
      RowAmountsAre(m.world, id, m.tracker.candidates[(snapshot, id)], recent, seen);
    }
  }

  /** After the run: the row of a subnet that was bootstrapped stands for its minima; no other has one. */
  lemma RowAtEnd(cfg: RewardConfig, m0: Monitor, m1: Monitor, snapshot: nat, evs: seq<MonitorEvent>, id: SubnetId)
    requires ValidConfig(cfg) && WorldOk(m0.world, Start(cfg, snapshot)) && (snapshot, id) !in m0.tracker.candidates
    requires m1 == Monitor(m0.world, Opened(cfg, m0.world, m0.tracker, Start(cfg, snapshot)))
    requires SnapshotRun(cfg, snapshot, m1.world, evs, Start(cfg, snapshot))
    ensures var m2 := RunMonitor(cfg, m1, evs);
      && (Bootstrapped(m0.world, id) ==> RowStandsFor(m2, snapshot, id, FromOpening(m0.world, evs)(id)))
      && (!Bootstrapped(m0.world, id) ==> (snapshot, id) !in m2.tracker.candidates)
  {
    OpenedRow(cfg, m0.world, m0.tracker, snapshot, id);
    if Bootstrapped(m0.world, id) {
      var number, seen := OfficeNumber(m0.world, id), [Office(m0.world, id)];
      RowRun(cfg, m1, snapshot, id, evs, number, seen, Start(cfg, snapshot));
      RowReads(RunMonitor(cfg, m1, evs), snapshot, id, LastCounted(m1.world, evs, id, number), seen + Counted(m1.world, evs, id, number));
    } else {
      NoRowRun(cfg, m1, snapshot, id, evs, Start(cfg, snapshot));
    }
  }

  lemma PaidHaveRows(w: World, m: Monitor, snapshot: nat, id: SubnetId, seen: seq<Committee>)
    requires Bootstrapped(w, id) ==> RowStandsFor(m, snapshot, id, seen)
    requires !Bootstrapped(w, id) ==> (snapshot, id) !in m.tracker.candidates
    ensures id in PaidIds(w, m.world) <==> (snapshot, id) in m.tracker.candidates
  {
  }

  // ---------------------------------------------------------------------
  // The result

  /** The row of `id` holds exactly the minima over its list. */
  ghost predicate RowHolds(m: Monitor, snapshot: nat, lists: PerSubnet, id: SubnetId) {
    && GoodRow(m.world, m.tracker, snapshot, id)
    && forall k :: Lookup(RowAmounts(m.world, m.tracker, snapshot, id).value, k) == LeastOver(lists(id), k)
  }

  lemma RowHoldsLeast(m: Monitor, snapshot: nat, lists: PerSubnet, id: SubnetId)
    requires RowStandsFor(m, snapshot, id, lists(id)) && (snapshot, id) in m.tracker.candidates && AllDistinct(lists(id))
    ensures RowHolds(m, snapshot, lists, id)
  {
    forall k
      ensures Lookup(RowAmounts(m.world, m.tracker, snapshot, id).value, k) == LeastOver(lists(id), k)
    {
      LeastIsMinOver(lists(id), k);
    }
  }

  lemma RowTotalHolds(m: Monitor, snapshot: nat, lists: PerSubnet, id: SubnetId)
    requires RowHolds(m, snapshot, lists, id)
    ensures RowTotal(m.world, m.tracker, snapshot)(id) == TotalOver(lists)(id)
  {
    var a, all := RowAmounts(m.world, m.tracker, snapshot, id).value, AmountsOver(lists(id));
    forall k
      ensures Lookup(a, k) == if k in all then Some(all[k]) else None
    {
      AmountsOverAll(lists(id), k);
    }
    AmountSumIsMapSum(a, all);
  }

  lemma RewardOfKey(m: Monitor, snapshot: nat, lists: PerSubnet, rows: seq<SubnetId>, k: Key)
    requires forall id :: id in rows ==> RowHolds(m, snapshot, lists, id)
    ensures var rewards := Gather(m.world, m.tracker, snapshot, rows, map[]);
      && rewards.Some?
      && Entry(rewards.value, k) == Sum(rows, ShareOver(lists, k))
      && (k in rewards.value <==> exists id :: id in rows && LeastOver(lists(id), k).Some?)
  {
    GatherAt(m.world, m.tracker, snapshot, rows, map[], k);
    SumSame(rows, RowShare(m.world, m.tracker, snapshot, k), ShareOver(lists, k));
    forall id | id in rows
      ensures HasRow(m.world, m.tracker, snapshot, id, k) <==> LeastOver(lists(id), k).Some?
    {
      assert RowHolds(m, snapshot, lists, id);
    }
  }

  lemma FinishedPays(m: Monitor, snapshot: nat, lists: PerSubnet, rows: seq<SubnetId>)
    requires forall id :: id in rows ==> RowHolds(m, snapshot, lists, id)
    ensures var h := Finished(m.world, m.tracker, snapshot, rows);
      !h.failed && snapshot in h.tracker.results && PaysMinima(h.tracker.results[snapshot], lists, rows)
  {
    forall k
      ensures var rewards := Gather(m.world, m.tracker, snapshot, rows, map[]);
        && rewards.Some?
        && Entry(rewards.value, k) == Sum(rows, ShareOver(lists, k))
        && (k in rewards.value <==> exists id :: id in rows && LeastOver(lists(id), k).Some?)
    {
      RewardOfKey(m, snapshot, lists, rows, k);
    }
    FinishedTotal(m, snapshot, lists, rows);
  }

  /** The total is the sum of all minima over the lists. */
  lemma FinishedTotal(m: Monitor, snapshot: nat, lists: PerSubnet, rows: seq<SubnetId>)
    requires forall id :: id in rows ==> RowHolds(m, snapshot, lists, id)
    ensures var rewards := Gather(m.world, m.tracker, snapshot, rows, map[]);
      rewards.Some? && MapSum(rewards.value) == Sum(rows, TotalOver(lists))
  {
    GatherSum(m.world, m.tracker, snapshot, rows, map[]);
    forall id | id in rows
      ensures RowTotal(m.world, m.tracker, snapshot)(id) == TotalOver(lists)(id)
    {
      RowTotalHolds(m, snapshot, lists, id);
    }
    SumSame(rows, RowTotal(m.world, m.tracker, snapshot), TotalOver(lists));
  }

  /** It does not matter in which order the candidates are listed. */
  lemma PaysOrderFree(r: SnapshotResult, lists: PerSubnet, rows: seq<SubnetId>, ids: seq<SubnetId>, paid: set<SubnetId>)
    requires PaysMinima(r, lists, rows) && Lists(rows, paid) && Lists(ids, paid)
    ensures PaysMinima(r, lists, ids)
  {
    ListsMultiset(rows, ids, paid);
    forall k
      ensures Sum(rows, ShareOver(lists, k)) == Sum(ids, ShareOver(lists, k))
    {
      SumPermutation(rows, ids, ShareOver(lists, k));
    }
    SumPermutation(rows, ids, TotalOver(lists));
    assert forall id :: id in rows <==> id in ids by {
      assert forall id :: (id in rows <==> id in paid) && (id in ids <==> id in paid);
    }
  }

  /** Lists with the same minima are paid alike. */
  lemma PaysSame(r: SnapshotResult, a: PerSubnet, b: PerSubnet, ids: seq<SubnetId>)
    requires PaysMinima(r, a, ids) && forall id, k :: id in ids ==> LeastOver(a(id), k) == LeastOver(b(id), k)
    ensures PaysMinima(r, b, ids)
  {
    forall k
      ensures Sum(ids, ShareOver(a, k)) == Sum(ids, ShareOver(b, k))
    {
      SumSame(ids, ShareOver(a, k), ShareOver(b, k));
    }
    forall id | id in ids
      ensures TotalOver(a)(id) == TotalOver(b)(id)
    {
      SameMinimaSameTotal(a, b, id);
    }
    SumSame(ids, TotalOver(a), TotalOver(b));
  }

  /** Opening, running and finishing. */
  lemma FinishedCounts(cfg: RewardConfig, m0: Monitor, m1: Monitor, m2: Monitor, snapshot: nat, evs: seq<MonitorEvent>,
                       rows: seq<SubnetId>, ids: seq<SubnetId>)
    requires ValidConfig(cfg) && WorldOk(m0.world, Start(cfg, snapshot))
    requires forall id: SubnetId :: (snapshot, id) !in m0.tracker.candidates
    requires m1 == Monitor(m0.world, Opened(cfg, m0.world, m0.tracker, Start(cfg, snapshot)))
    requires SnapshotRun(cfg, snapshot, m1.world, evs, Start(cfg, snapshot)) && m2 == RunMonitor(cfg, m1, evs)
    requires Lists(rows, CandidateIds(m2.tracker, snapshot))
    requires Lists(ids, PaidIds(m0.world, m2.world))
    ensures var h := Finished(m2.world, m2.tracker, snapshot, rows);
      && !h.failed && snapshot in h.tracker.results
      && PaysMinima(h.tracker.results[snapshot], FromOpening(m0.world, evs), ids)
  {
    var paid, lists := PaidIds(m0.world, m2.world), FromOpening(m0.world, evs);
    forall id: SubnetId
      ensures id in CandidateIds(m2.tracker, snapshot) <==> id in paid
    {
      RowAtEnd(cfg, m0, m1, snapshot, evs, id);
      PaidHaveRows(m0.world, m2, snapshot, id, lists(id));
      CandidateIdIn(m2.tracker, snapshot, id);
    }
    assert CandidateIds(m2.tracker, snapshot) == paid;
    forall id | id in rows
      ensures RowHolds(m2, snapshot, lists, id)
    {
      assert id in paid;
      CandidateIdIn(m2.tracker, snapshot, id);
      RowAtEnd(cfg, m0, m1, snapshot, evs, id);
      FromOpeningDistinct(cfg, snapshot, m0.world, evs, id, Start(cfg, snapshot));
      RowHoldsLeast(m2, snapshot, lists, id);
    }
    FinishedPays(m2, snapshot, lists, rows);
    PaysOrderFree(Finished(m2.world, m2.tracker, snapshot, rows).tracker.results[snapshot], lists, rows, ids, paid);
  }

  lemma CandidateIdIn(t: Tracker, snapshot: nat, id: SubnetId)
    ensures id in CandidateIds(t, snapshot) <==> (snapshot, id) in t.candidates
  {
    if (snapshot, id) in t.candidates {
      var row := (snapshot, id);
      assert row in t.candidates && row.0 == snapshot && row.1 == id;
    }
  }

  /** The monitor once the first block of the snapshot has opened it. */
  function Open(cfg: RewardConfig, m: Monitor, snapshot: nat): Monitor
    requires ValidConfig(cfg)
  {
    m.(tracker := Opened(cfg, m.world, m.tracker, Start(cfg, snapshot)))
  }

  /** The hook of the snapshot's last block, which may be its first block too. */
  ghost function LastHook(cfg: RewardConfig, m: Monitor, snapshot: nat, evs: seq<MonitorEvent>,
                          first: seq<SubnetId>, rows: seq<SubnetId>): Hook
    requires ValidConfig(cfg)
  {
    if cfg.length == 1 then AfterBlock(cfg, m.world, m.tracker, Start(cfg, snapshot), rows)
    else
      var m2 := RunMonitor(cfg, Next(cfg, m, BlockEnd(Start(cfg, snapshot), first)), evs);
      AfterBlock(cfg, m2.world, m2.tracker, End(cfg, snapshot), rows)
  }

  /** The first block opens the snapshot and the last one finishes it. */
  lemma LastHookFinishes(cfg: RewardConfig, m: Monitor, snapshot: nat, evs: seq<MonitorEvent>,
                         first: seq<SubnetId>, rows: seq<SubnetId>)
    requires ValidConfig(cfg) && SnapshotRun(cfg, snapshot, m.world, evs, Start(cfg, snapshot))
    ensures var m2 := RunMonitor(cfg, Open(cfg, m, snapshot), evs);
      LastHook(cfg, m, snapshot, evs, first, rows) == Finished(m2.world, m2.tracker, snapshot, rows)
  {
    SnapshotsTile(cfg, Start(cfg, snapshot), snapshot);
    SnapshotsTile(cfg, End(cfg, snapshot), snapshot);
    if cfg.length == 1 {
      assert evs == [];
      assert RunMonitor(cfg, Open(cfg, m, snapshot), evs) == Open(cfg, m, snapshot);
    } else {
      assert Next(cfg, m, BlockEnd(Start(cfg, snapshot), first)) == Open(cfg, m, snapshot);
    }
  }

  /**
   What a snapshot pays, whatever messages its blocks carry and whatever happened before:
   each key gets the sum, over the subnets bootstrapped by the first block and not killed
   since, of its least collateral over the opening committee and the committees of the
   records whose number the tracker had not seen. The hook cannot fail.
   */
  lemma SnapshotPays(cfg: RewardConfig, m0: Monitor, snapshot: nat, evs: seq<MonitorEvent>,
                     first: seq<SubnetId>, rows: seq<SubnetId>, ids: seq<SubnetId>)
    requires ValidConfig(cfg) && WorldOk(m0.world, Start(cfg, snapshot))
    requires forall id: SubnetId :: (snapshot, id) !in m0.tracker.candidates
    requires SnapshotRun(cfg, snapshot, m0.world, evs, Start(cfg, snapshot))
    requires var m2 := RunMonitor(cfg, Open(cfg, m0, snapshot), evs);
      Lists(rows, CandidateIds(m2.tracker, snapshot)) && Lists(ids, PaidIds(m0.world, m2.world))
    ensures var h := LastHook(cfg, m0, snapshot, evs, first, rows);
      !h.failed && snapshot in h.tracker.results && PaysMinima(h.tracker.results[snapshot], FromOpening(m0.world, evs), ids)
  {
    var m1 := Open(cfg, m0, snapshot);
    FinishedCounts(cfg, m0, m1, RunMonitor(cfg, m1, evs), snapshot, evs, rows, ids);
    LastHookFinishes(cfg, m0, snapshot, evs, first, rows);
  }

  /** No paid subnet rotates between equal addresses inside the snapshot. */
  ghost predicate NumbersChain(w: World, evs: seq<MonitorEvent>, ids: seq<SubnetId>) {
    forall id :: id in ids ==> CollisionFreeFor(w, evs, id)
  }

  lemma CountedEqualsOffice(cfg: RewardConfig, m0: Monitor, m1: Monitor, snapshot: nat, evs: seq<MonitorEvent>, ids: seq<SubnetId>)
    requires ValidConfig(cfg) && m1.world == m0.world && WorldOk(m0.world, Start(cfg, snapshot))
    requires SnapshotRun(cfg, snapshot, m0.world, evs, Start(cfg, snapshot))
    requires NumbersChain(m0.world, evs, ids) && Lists(ids, PaidIds(m0.world, RunMonitor(cfg, m1, evs).world))
    ensures forall id, k :: id in ids ==> LeastOver(FromOpening(m0.world, evs)(id), k) == LeastOver(InOffice(m0.world, evs)(id), k)
  {
    WorldOfRun(cfg, m1, evs);
    forall id, k | id in ids
      ensures LeastOver(FromOpening(m0.world, evs)(id), k) == LeastOver(InOffice(m0.world, evs)(id), k)
    {
      assert id in PaidIds(m0.world, RunMonitor(cfg, m1, evs).world);
      CountedMinima(m0.world, evs, id, k);
      FromOpeningDistinct(cfg, snapshot, m0.world, evs, id, Start(cfg, snapshot));
      OfficesDistinct(cfg, snapshot, m0.world, evs, id, Start(cfg, snapshot));
      LeastIsMinOver(FromOpening(m0.world, evs)(id), k);
      LeastIsMinOver(InOffice(m0.world, evs)(id), k);
    }
  }

  /**
   Lazy equals eager. If no paid subnet rotates between equal addresses inside the
   snapshot, the result pays each key the sum of its least collateral over all committees
   in office from the end of the first block on; a key without a positive collateral in
   every one of them gets no entry from that subnet.
   */
  lemma LazyEqualsEager(cfg: RewardConfig, m0: Monitor, snapshot: nat, evs: seq<MonitorEvent>,
                        first: seq<SubnetId>, rows: seq<SubnetId>, ids: seq<SubnetId>)
    requires ValidConfig(cfg) && WorldOk(m0.world, Start(cfg, snapshot))
    requires forall id: SubnetId :: (snapshot, id) !in m0.tracker.candidates
    requires SnapshotRun(cfg, snapshot, m0.world, evs, Start(cfg, snapshot)) && NumbersChain(m0.world, evs, ids)
    requires var m2 := RunMonitor(cfg, Open(cfg, m0, snapshot), evs);
      Lists(rows, CandidateIds(m2.tracker, snapshot)) && Lists(ids, PaidIds(m0.world, m2.world))
    ensures var h := LastHook(cfg, m0, snapshot, evs, first, rows);
      !h.failed && snapshot in h.tracker.results && PaysMinima(h.tracker.results[snapshot], InOffice(m0.world, evs), ids)
  {
    SnapshotPays(cfg, m0, snapshot, evs, first, rows, ids);
    CountedEqualsOffice(cfg, m0, Open(cfg, m0, snapshot), snapshot, evs, ids);
    PaysSame(LastHook(cfg, m0, snapshot, evs, first, rows).tracker.results[snapshot],
             FromOpening(m0.world, evs), InOffice(m0.world, evs), ids);
  }

  /**
   After any run inside a snapshot, the hook of the next checkpoint finds every row that it
   reads and does not fail.
   */
  lemma HooksNeverFail(cfg: RewardConfig, m0: Monitor, snapshot: nat, evs: seq<MonitorEvent>, id: SubnetId, ev: Event)
    requires ValidConfig(cfg) && WorldOk(m0.world, Start(cfg, snapshot)) && (snapshot, id) !in m0.tracker.candidates
    requires SnapshotRun(cfg, snapshot, m0.world, evs, Start(cfg, snapshot))
    requires var m2 := RunMonitor(cfg, Open(cfg, m0, snapshot), evs);
      Inside(cfg, snapshot, Message(id, ev)) && GoodEvent(m2.world, Message(id, ev), LastEvent(evs, Start(cfg, snapshot)))
    ensures !HookFails(cfg, RunMonitor(cfg, Open(cfg, m0, snapshot), evs), id, ev)
  {
    var m1, now := Open(cfg, m0, snapshot), LastEvent(evs, Start(cfg, snapshot));
    var m2 := RunMonitor(cfg, m1, evs);
    OpenedRow(cfg, m0.world, m0.tracker, snapshot, id);
    WorldRun(cfg, m1, snapshot, evs, Start(cfg, snapshot));
    if Bootstrapped(m0.world, id) {
      var number, seen := OfficeNumber(m0.world, id), [Office(m0.world, id)];
      RowRun(cfg, m1, snapshot, id, evs, number, seen, Start(cfg, snapshot));
      HookSucceeds(cfg, m2, snapshot, id, ev, LastCounted(m1.world, evs, id, number), seen + Counted(m1.world, evs, id, number), now);
    } else {
      NoRowRun(cfg, m1, snapshot, id, evs, Start(cfg, snapshot));
      HookSucceeds(cfg, m2, snapshot, id, ev, 0, [], now);
    }
  }

  // ---------------------------------------------------------------------
  // From the beginning

  function Fresh(): Monitor {
    Monitor(map[], Tracker(map[], map[]))
  }

  ghost predicate GoodRun(w: World, evs: seq<MonitorEvent>, now: nat)
    decreases |evs|
  {
    evs == [] || (GoodEvent(w, evs[0], now) && GoodRun(WorldAfter(w, evs[0]), evs[1..], HeightOf(evs[0])))
  }

  /** Rows of a snapshot appear at the end of its first block and at no other time. */
  lemma NoEarlyRow(cfg: RewardConfig, m: Monitor, e: MonitorEvent, snapshot: nat, id: SubnetId)
    requires ValidConfig(cfg) && (snapshot, id) !in m.tracker.candidates
    requires e.BlockEnd? ==> HeightOf(e) != Start(cfg, snapshot)
    ensures (snapshot, id) !in Next(cfg, m, e).tracker.candidates
  {
    SnapshotsTile(cfg, HeightOf(e), snapshot);
  }

  ghost predicate NotOpened(cfg: RewardConfig, snapshot: nat, evs: seq<MonitorEvent>) {
    forall i :: 0 <= i < |evs| && evs[i].BlockEnd? ==> HeightOf(evs[i]) != Start(cfg, snapshot)
  }

  lemma {:induction false} NoEarlyRows(cfg: RewardConfig, m: Monitor, evs: seq<MonitorEvent>, snapshot: nat, id: SubnetId)
    requires ValidConfig(cfg) && (snapshot, id) !in m.tracker.candidates && NotOpened(cfg, snapshot, evs)
    ensures (snapshot, id) !in RunMonitor(cfg, m, evs).tracker.candidates
    decreases |evs|
  {
    if evs != [] {
      NoEarlyRow(cfg, m, evs[0], snapshot, id);
      NoEarlyRows(cfg, Next(cfg, m, evs[0]), evs[1..], snapshot, id);
    }
  }

  lemma FirstGoodEvent(cfg: RewardConfig, m: Monitor, evs: seq<MonitorEvent>, now: nat)
    requires ValidConfig(cfg) && WorldOk(m.world, now) && GoodRun(m.world, evs, now) && evs != []
    ensures WorldOk(Next(cfg, m, evs[0]).world, HeightOf(evs[0]))
    ensures GoodRun(Next(cfg, m, evs[0]).world, evs[1..], HeightOf(evs[0]))
    ensures RunMonitor(cfg, m, evs) == RunMonitor(cfg, Next(cfg, m, evs[0]), evs[1..])
  {
    assert GoodEvent(m.world, evs[0], now);
    NextWorld(m.world, evs[0], now);
    assert Next(cfg, m, evs[0]).world == WorldAfter(m.world, evs[0]);
  }

  lemma {:induction false} GoodRunWorld(cfg: RewardConfig, m: Monitor, evs: seq<MonitorEvent>, now: nat)
    requires ValidConfig(cfg) && WorldOk(m.world, now) && GoodRun(m.world, evs, now)
    ensures WorldOk(RunMonitor(cfg, m, evs).world, LastEvent(evs, now))
    decreases |evs|
  {
    if evs != [] {
      FirstGoodEvent(cfg, m, evs, now);
      LastEventTail(evs, now);
      GoodRunWorld(cfg, Next(cfg, m, evs[0]), evs[1..], HeightOf(evs[0]));
    }
  }

  lemma BeforeSnapshot(cfg: RewardConfig, earlier: seq<MonitorEvent>, m0: Monitor, snapshot: nat)
    requires ValidConfig(cfg)
    requires GoodRun(map[], earlier, 0) && LastEvent(earlier, 0) <= Start(cfg, snapshot) && NotOpened(cfg, snapshot, earlier)
    requires m0 == RunMonitor(cfg, Fresh(), earlier)
    ensures WorldOk(m0.world, Start(cfg, snapshot)) && forall id: SubnetId :: (snapshot, id) !in m0.tracker.candidates
  {
    assert WorldOk(Fresh().world, 0);
    GoodRunWorld(cfg, Fresh(), earlier, 0);
    WorldLater(m0.world, LastEvent(earlier, 0), Start(cfg, snapshot));
    forall id: SubnetId
      ensures (snapshot, id) !in m0.tracker.candidates
    {
      NoEarlyRows(cfg, Fresh(), earlier, snapshot, id);
    }
  }

  /**
   The same from an empty database: whatever run leads up to a snapshot's first block,
   collisions included, the snapshot pays what it counts, and the eager minima if no paid
   subnet rotates between equal addresses inside it.
   */
  lemma RewardsOverRuns(cfg: RewardConfig, earlier: seq<MonitorEvent>, m0: Monitor, snapshot: nat, evs: seq<MonitorEvent>,
                        first: seq<SubnetId>, rows: seq<SubnetId>, ids: seq<SubnetId>)
    requires ValidConfig(cfg)
    requires GoodRun(map[], earlier, 0) && LastEvent(earlier, 0) <= Start(cfg, snapshot) && NotOpened(cfg, snapshot, earlier)
    requires m0 == RunMonitor(cfg, Fresh(), earlier)
    requires SnapshotRun(cfg, snapshot, m0.world, evs, Start(cfg, snapshot))
    requires var m2 := RunMonitor(cfg, Open(cfg, m0, snapshot), evs);
      Lists(rows, CandidateIds(m2.tracker, snapshot)) && Lists(ids, PaidIds(m0.world, m2.world))
    ensures var h := LastHook(cfg, m0, snapshot, evs, first, rows);
      && !h.failed && snapshot in h.tracker.results
      && PaysMinima(h.tracker.results[snapshot], FromOpening(m0.world, evs), ids)
      && (NumbersChain(m0.world, evs, ids) ==> PaysMinima(h.tracker.results[snapshot], InOffice(m0.world, evs), ids))
  {
    BeforeSnapshot(cfg, earlier, m0, snapshot);
    SnapshotPays(cfg, m0, snapshot, evs, first, rows, ids);
    if NumbersChain(m0.world, evs, ids) {
      LazyEqualsEager(cfg, m0, snapshot, evs, first, rows, ids);
    }
  }
}
