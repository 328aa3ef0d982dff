/**
 Whole runs of a monitor: batches and fund messages in block order, with any other
 messages changing the subnet table in between. A rejected message changes nothing.
 */
module LedgerRuns {
  import opened Ledger
  import opened Listings
  import opened LedgerRefinement
  import opened LedgerMessages
  import opened LedgerSupply

  datatype Event =
    | BatchFound(batch: Batch, origin: Origin, listing: seq<SubnetId>)
    | FundFound(destination: SubnetId, amount: nat, recipient: Address, origin: Origin)
    | SubnetsChanged(subnets: map<SubnetId, SubnetSummary>)

  function Step(db: Db, ev: Event): Db {
    match ev
    case BatchFound(b, origin, listing) =>
      var r := SaveBatch(db, b, origin, listing);
      if r.Ok? then r.value else db
    case FundFound(d, amount, recipient, origin) =>
      var r := SaveFund(db, d, amount, recipient, origin);
      if r.Some? then r.value else db
    case SubnetsChanged(subnets) => db.(subnets := subnets)
  }

  function Run(db: Db, evs: seq<Event>): Db
    decreases |evs|
  {
    if evs == [] then db else Run(Step(db, evs[0]), evs[1..])
  }

  const EMPTY_DB := Db(map[], map[], map[])

  predicate AcceptsBatch(db: Db, ev: Event) {
    ev.BatchFound? && SaveBatch(db, ev.batch, ev.origin, ev.listing).Ok?
  }

  // ---------------------------------------------------------------------
  // Supply over runs

  ghost function StepIn(db: Db, ev: Event, t: Token, s: SubnetId): int {
    if AcceptsBatch(db, ev) && ev.batch.source != s then Given(ev.batch.transfers, t, s) else 0
  }

  ghost function StepOut(db: Db, ev: Event, t: Token, s: SubnetId): int {
    if AcceptsBatch(db, ev) && ev.batch.source == s then Taken(ev.batch.transfers, t) - Given(ev.batch.transfers, t, s) else 0
  }

  ghost function StepIssued(db: Db, ev: Event, t: Token): int {
    if AcceptsBatch(db, ev) then Registered(ev.batch, t) + Minted(ev.batch, t) else 0
  }

  ghost function StepDestroyed(db: Db, ev: Event, t: Token): int {
    if AcceptsBatch(db, ev) then Burned(ev.batch, t) else 0
  }

  /** Registrations and mints of the batches that the run accepts. */
  ghost function Issued(db: Db, evs: seq<Event>, t: Token): int
    decreases |evs|
  {
    if evs == [] then 0
    else
      StepIssued(db, evs[0], t) + Issued(Step(db, evs[0]), evs[1..], t)
  }

  ghost function Destroyed(db: Db, evs: seq<Event>, t: Token): int
    decreases |evs|
  {
    if evs == [] then 0
    else
      StepDestroyed(db, evs[0], t) + Destroyed(Step(db, evs[0]), evs[1..], t)
  }

  lemma {:induction false} IssuedNonNegative(db: Db, evs: seq<Event>, t: Token)
    ensures Issued(db, evs, t) >= 0
    decreases |evs|
  {
    if evs != [] {
      IssuedNonNegative(Step(db, evs[0]), evs[1..], t);
      if AcceptsBatch(db, evs[0]) {
        DeclaredNonNegative(evs[0].batch, t);
      }
    }
  }

  /** The message clamps no balance of the token. */
  ghost predicate StepFits(db: Db, ev: Event, t: Token) {
    AcceptsBatch(db, ev) ==> NoClamp(ev.batch, db.balances, t)
  }

  lemma StepSupply(db: Db, ev: Event, t: Token)
    ensures var before, after := Supply(db.balances, t), Supply(Step(db, ev).balances, t);
      var issued, destroyed := StepIssued(db, ev, t), StepDestroyed(db, ev, t);
      after + destroyed <= before + issued && (after + destroyed == before + issued <==> StepFits(db, ev, t))
  {
    if AcceptsBatch(db, ev) {
      BatchConservesExactly(ev.batch, db.balances, t);
    }
  }

  /** No accepted batch of the run clamps a balance of the token. */
  ghost predicate ClampFree(db: Db, evs: seq<Event>, t: Token)
    decreases |evs|
  {
    evs == [] || (StepFits(db, evs[0], t) && ClampFree(Step(db, evs[0]), evs[1..], t))
  }

  /**
   Conservation over every run: at the end the supply is at most what there was, plus what
   was issued, minus what was destroyed, and exactly that if and only if nothing clamped.
   */
  lemma {:induction false} SupplyOverRuns(db: Db, evs: seq<Event>, t: Token)
    ensures var last := Run(db, evs);
      && Supply(last.balances, t) + Destroyed(db, evs, t) <= Supply(db.balances, t) + Issued(db, evs, t)
      && (Supply(last.balances, t) + Destroyed(db, evs, t) == Supply(db.balances, t) + Issued(db, evs, t) <==> ClampFree(db, evs, t))
    decreases |evs|
  {
    if evs != [] {
      StepSupply(db, evs[0], t);
      SupplyOverRuns(Step(db, evs[0]), evs[1..], t);
    }
  }

  /** If what there is and what is ever issued fits a U256, nothing clamps. */
  lemma {:induction false} FittingRunNeverClamps(db: Db, evs: seq<Event>, t: Token)
    requires Supply(db.balances, t) + Issued(db, evs, t) <= U256_MAX
    ensures ClampFree(db, evs, t)
    decreases |evs|
  {
    if evs != [] {
      var next := Step(db, evs[0]);
      IssuedNonNegative(next, evs[1..], t);
      if AcceptsBatch(db, evs[0]) {
        DeclaredNonNegative(evs[0].batch, t);
        AcceptedFits(db, evs[0], t);
      }
      StepSupply(db, evs[0], t);
      FittingRunNeverClamps(next, evs[1..], t);
    }
  }

  lemma AcceptedFits(db: Db, ev: Event, t: Token)
    requires AcceptsBatch(db, ev) && Supply(db.balances, t) + Registered(ev.batch, t) + Minted(ev.batch, t) <= U256_MAX
    ensures NoClamp(ev.batch, db.balances, t)
  {
    FittingSupplyNeverClamps(ev.batch, db.balances, t);
  }

  // ---------------------------------------------------------------------
  // Holdings over runs

  /** What subnet `s` sends away of token `t` in the batches that are accepted. */
  ghost function SentAway(db: Db, evs: seq<Event>, t: Token, s: SubnetId): int
    decreases |evs|
  {
    if evs == [] then 0
    else
      StepOut(db, evs[0], t, s) + SentAway(Step(db, evs[0]), evs[1..], t, s)
  }

  /** What other subnets send to `s`. */
  ghost function Received(db: Db, evs: seq<Event>, t: Token, s: SubnetId): int
    decreases |evs|
  {
    if evs == [] then 0
    else
      StepIn(db, evs[0], t, s) + Received(Step(db, evs[0]), evs[1..], t, s)
  }

  /** What a batch declares for the token counts at the token's home. */
  function AtHome(t: Token, s: SubnetId, declared: int): int {
    if s == t.home then declared else 0
  }

  /** The message clamps no credit to the subnet's row of the token. */
  ghost predicate HoldingFits(db: Db, ev: Event, t: Token, s: SubnetId) {
    AcceptsBatch(db, ev) ==>
      if ev.batch.source == s then Balance(db.balances, t, s) + Registered(ev.batch, t) + Minted(ev.batch, t) <= U256_MAX
      else Balance(db.balances, t, s) + Given(ev.batch.transfers, t, s) <= U256_MAX
  }

  /** By how much a message should change a subnet's holding. */
  ghost function StepDue(db: Db, ev: Event, t: Token, s: SubnetId): int {
    AtHome(t, s, StepIssued(db, ev, t) - StepDestroyed(db, ev, t)) + StepIn(db, ev, t, s) - StepOut(db, ev, t, s)
  }

  /** And a run. */
  ghost function Due(db: Db, evs: seq<Event>, t: Token, s: SubnetId): int {
    AtHome(t, s, Issued(db, evs, t) - Destroyed(db, evs, t)) + Received(db, evs, t, s) - SentAway(db, evs, t, s)
  }

  lemma DueUnfold(db: Db, evs: seq<Event>, t: Token, s: SubnetId)
    ensures Due(db, evs, t, s) == if evs == [] then 0 else StepDue(db, evs[0], t, s) + Due(Step(db, evs[0]), evs[1..], t, s)
  {
  }

  /** The holding after a message, and when it is exact. */
  lemma StepHolding(db: Db, ev: Event, t: Token, s: SubnetId)
    ensures var before, after := Balance(db.balances, t, s), Balance(Step(db, ev).balances, t, s);
      after <= before + StepDue(db, ev, t, s) && (after == before + StepDue(db, ev, t, s) <==> HoldingFits(db, ev, t, s))
  {
    if AcceptsBatch(db, ev) {
      AcceptedBatch(ev.batch, db.balances);
      if ev.batch.source == s {
        SupplyPhaseAtSource(ev.batch, db.balances, t);
      } else {
        SupplyPhase(ev.batch, db.balances, t);
      }
      if t.home != ev.batch.source {
        ForeignTokenUndeclared(ev.batch, t);
      }
    }
  }

  /** No accepted batch of the run clamps a credit to the subnet's row. */
  ghost predicate HoldingClampFree(db: Db, evs: seq<Event>, t: Token, s: SubnetId)
    decreases |evs|
  {
    evs == [] || (HoldingFits(db, evs[0], t, s) && HoldingClampFree(Step(db, evs[0]), evs[1..], t, s))
  }

  /**
   What a subnet holds of a token over every run: at most what it held and was sent, minus
   what it sent away, plus, at the token's home, what was issued minus what was destroyed;
   and exactly that if and only if no credit to it was clamped.
   */
  lemma {:induction false} HoldingOverRuns(db: Db, evs: seq<Event>, t: Token, s: SubnetId)
    ensures var before, after := Balance(db.balances, t, s), Balance(Run(db, evs).balances, t, s);
      after <= before + Due(db, evs, t, s) && (after == before + Due(db, evs, t, s) <==> HoldingClampFree(db, evs, t, s))
    decreases |evs|
  {
    DueUnfold(db, evs, t, s);
    if evs != [] {
      StepHolding(db, evs[0], t, s);
      HoldingOverRuns(Step(db, evs[0]), evs[1..], t, s);
    }
  }

  /** A run that clamps no balance of the token clamps none of the subnet's. */
  lemma {:induction false} ClampFreeHolding(db: Db, evs: seq<Event>, t: Token, s: SubnetId)
    requires ClampFree(db, evs, t)
    ensures HoldingClampFree(db, evs, t, s)
    decreases |evs|
  {
    if evs != [] {
      ClampFreeHolding(Step(db, evs[0]), evs[1..], t, s);
    }
  }

  /**
   The firewall over every run: a subnet that is not a token's home never sends away more
   of it than it held at the start and was given since, and holds at most the difference,
   exactly the difference if and only if no credit to it was clamped.
   */
  lemma FirewallOverRuns(db: Db, evs: seq<Event>, t: Token, s: SubnetId)
    requires t.home != s
    ensures SentAway(db, evs, t, s) <= Balance(db.balances, t, s) + Received(db, evs, t, s)
    ensures Balance(Run(db, evs).balances, t, s) <= Balance(db.balances, t, s) + Received(db, evs, t, s) - SentAway(db, evs, t, s)
    ensures Balance(Run(db, evs).balances, t, s) == Balance(db.balances, t, s) + Received(db, evs, t, s) - SentAway(db, evs, t, s)
            <==> HoldingClampFree(db, evs, t, s)
  {
    HoldingOverRuns(db, evs, t, s);
  }

  // ---------------------------------------------------------------------
  // Messages over runs

  /** What an accepted batch adds to the messages of subnet `d`, and nothing else. */
  lemma BatchAppends(db: Db, b: Batch, origin: Origin, listing: seq<SubnetId>, d: SubnetId)
    requires AllDense(db.inboxes) && Lists(listing, db.subnets.Keys)
    requires SaveBatch(db, b, origin, listing).Ok?
    ensures var after := SaveBatch(db, b, origin, listing).value.inboxes;
      && AllDense(after)
      && Contents(after, d)
         == Contents(db.inboxes, d) + Numbered(BatchPayloads(b, db.subnets.Keys, d), NextNonce(db.inboxes, d), origin)
  {
    AcceptedBatch(b, db.balances);
    BatchAddressed(b, db.subnets.Keys, listing, d);
    DeliverAllAppends(db.inboxes, BatchPosts(b, listing), origin, d);
  }

  lemma StepMessages(db: Db, ev: Event, d: SubnetId)
    requires AllDense(db.inboxes)
    ensures AllDense(Step(db, ev).inboxes)
    ensures Contents(db.inboxes, d) <= Contents(Step(db, ev).inboxes, d)
  {
    match ev
    case BatchFound(b, origin, listing) =>
      DeliverAllAppends(db.inboxes, BatchPosts(b, listing), origin, d);
    case FundFound(e, amount, recipient, origin) =>
      var p := Post(e, Fund(amount, recipient));
      DeliverAllAppends(db.inboxes, [p], origin, d);
      assert DeliverAll(db.inboxes, [p], origin) == Deliver(db.inboxes, p, origin);
    case SubnetsChanged(_) =>
  }

  /**
   In every state of every run the nonces of each subnet are exactly 0..n-1, and
   the messages already stored are never changed: later states only append.
   */
  lemma {:induction false} GapFreeOverRuns(db: Db, evs: seq<Event>, d: SubnetId)
    requires AllDense(db.inboxes)
    ensures AllDense(Run(db, evs).inboxes)
    ensures Contents(db.inboxes, d) <= Contents(Run(db, evs).inboxes, d)
    decreases |evs|
  {
    if evs != [] {
      StepMessages(db, evs[0], d);
      GapFreeOverRuns(Step(db, evs[0]), evs[1..], d);
    }
  }

  lemma EmptySupply(t: Token)
    ensures Supply(EMPTY_DB.balances, t) == 0
  {
  }

  /**
   From an empty database: gap-free messages, and a supply that never exceeds what was
   issued and not destroyed, and equals it if and only if nothing clamped.
   */
  lemma ReachableLedgers(evs: seq<Event>, t: Token, d: SubnetId)
    ensures AllDense(Run(EMPTY_DB, evs).inboxes)
    ensures Supply(Run(EMPTY_DB, evs).balances, t) <= Issued(EMPTY_DB, evs, t) - Destroyed(EMPTY_DB, evs, t)
    ensures Supply(Run(EMPTY_DB, evs).balances, t) == Issued(EMPTY_DB, evs, t) - Destroyed(EMPTY_DB, evs, t)
            <==> ClampFree(EMPTY_DB, evs, t)
    ensures Issued(EMPTY_DB, evs, t) <= U256_MAX ==> ClampFree(EMPTY_DB, evs, t)
  {
    GapFreeOverRuns(EMPTY_DB, evs, d);
    EmptySupply(t);
    SupplyOverRuns(EMPTY_DB, evs, t);
    if Issued(EMPTY_DB, evs, t) <= U256_MAX {
      FittingRunNeverClamps(EMPTY_DB, evs, t);
    }
  }
}
