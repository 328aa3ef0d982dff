/**
 A run in which a foreign subnet's transfer loses supply. The home mints past 256 bits in
 two steps, and then one holder sends its token to another that is full already.
 */
module LedgerClamp {
  import opened Outcomes
  import opened Ledger
  import opened LedgerRefinement
  import opened LedgerSupply
  import opened LedgerRuns

  const HOME: SubnetId := 1
  const FULL: SubnetId := 2
  const OTHER: SubnetId := 3
  const COIN: Token := Token(HOME, 9)

  /** Registers as much as there can be and sends all of it away. */
  function Fill(): Batch {
    Batch(HOME, [], [Registration(9, "Coin", "C", U256_MAX)], [], [ErcTransfer(COIN, U256_MAX, FULL, 0)])
  }

  /** Mints one more and sends it elsewhere. */
  function OneMore(): Batch {
    Batch(HOME, [], [], [Adjustment(9, 1)], [ErcTransfer(COIN, 1, OTHER, 0)])
  }

  /** The foreign transfer, to a holder that is full. */
  function Overflow(): Batch {
    Batch(OTHER, [], [], [], [ErcTransfer(COIN, 1, FULL, 0)])
  }

  lemma FillAccepted(b: Batch, bal: Balances)
    requires b == Fill() && bal == map[]
    ensures DryRun(b, bal).Ok? && ApplyBalances(b, bal) == Ok(map[(COIN, HOME) := 0, (COIN, FULL) := U256_MAX])
  {
    assert b.registrations[1..] == [] && b.transfers[1..] == [];
    var run: Running := map[COIN := U256_MAX];
    assert DryRegistrations(HOME, b.registrations, bal, map[]) == DryRegistrations(HOME, [], bal, run) == Ok(run);
    assert DryTransfers(HOME, b.transfers, bal, run) == DryTransfers(HOME, [], bal, run[COIN := 0]);
    var registered: Balances := map[(COIN, HOME) := U256_MAX];
    assert ApplyRegistrations(HOME, b.registrations, bal) == registered && ApplySupply(b, bal) == Ok(registered);
    var moved := MoveTokens(HOME, b.transfers[0], registered);
    assert moved == map[(COIN, HOME) := 0, (COIN, FULL) := U256_MAX];
    assert ApplyTransfers(HOME, b.transfers, registered) == ApplyTransfers(HOME, [], moved) == Ok(moved);
  }

  lemma OneMoreAccepted(b: Batch, bal: Balances)
    requires b == OneMore() && bal == map[(COIN, HOME) := 0, (COIN, FULL) := U256_MAX]
    ensures DryRun(b, bal).Ok?
    ensures ApplyBalances(b, bal) == Ok(map[(COIN, HOME) := 0, (COIN, FULL) := U256_MAX, (COIN, OTHER) := 1])
  {
    assert b.adjustments[1..] == [] && b.transfers[1..] == [];
    var run: Running := map[COIN := 1];
    assert DryMints(HOME, b.adjustments, bal, map[]) == DryMints(HOME, [], bal, run) == run;
    assert DryBurns(HOME, b.adjustments, bal, run) == DryBurns(HOME, [], bal, run) == Ok(run);
    assert DryTransfers(HOME, b.transfers, bal, run) == DryTransfers(HOME, [], bal, run[COIN := 0]);
    var minted: Balances := map[(COIN, HOME) := 1, (COIN, FULL) := U256_MAX];
    assert bal[(COIN, HOME) := 1] == minted;
    assert ApplyMints(HOME, b.adjustments, bal) == ApplyMints(HOME, [], minted) == minted;
    assert ApplyBurns(HOME, b.adjustments, minted) == ApplyBurns(HOME, [], minted) == Ok(minted);
    var moved := MoveTokens(HOME, b.transfers[0], minted);
    assert moved == map[(COIN, HOME) := 0, (COIN, FULL) := U256_MAX, (COIN, OTHER) := 1];
    assert ApplyTransfers(HOME, b.transfers, minted) == ApplyTransfers(HOME, [], moved) == Ok(moved);
  }

  lemma OverflowAccepted(b: Batch, bal: Balances)
    requires b == Overflow() && bal == map[(COIN, HOME) := 0, (COIN, FULL) := U256_MAX, (COIN, OTHER) := 1]
    ensures DryRun(b, bal).Ok? && !Fits(b.transfers, bal, OTHER, COIN)
    ensures ApplyBalances(b, bal) == Ok(map[(COIN, HOME) := 0, (COIN, FULL) := U256_MAX, (COIN, OTHER) := 0])
  {
    assert b.transfers[1..] == [];
    assert DryTransfers(OTHER, b.transfers, bal, map[]) == DryTransfers(OTHER, [], bal, map[COIN := 0]);
    var moved := MoveTokens(OTHER, b.transfers[0], bal);
    assert moved == map[(COIN, HOME) := 0, (COIN, FULL) := U256_MAX, (COIN, OTHER) := 0];
    assert ApplyTransfers(OTHER, b.transfers, bal) == ApplyTransfers(OTHER, [], moved) == Ok(moved);
    assert Given(b.transfers, COIN, FULL) == AmountTo(COIN, FULL)(b.transfers[0]) + Given([], COIN, FULL);
    assert Balance(bal, COIN, FULL) + Given(b.transfers, COIN, FULL) > U256_MAX;
  }

  lemma CoinSupply(bal: Balances, other: U256)
    requires bal == map[(COIN, HOME) := 0, (COIN, FULL) := U256_MAX, (COIN, OTHER) := other]
    ensures Supply(bal, COIN) == U256_MAX + other
  {
    SupplyWithout(bal, COIN, (COIN, HOME));
    var rest := bal - {(COIN, HOME)};
    SupplyWithout(rest, COIN, (COIN, FULL));
    var last := rest - {(COIN, FULL)};
    SupplyWithout(last, COIN, (COIN, OTHER));
    assert last - {(COIN, OTHER)} == map[];
  }

  /** Three accepted batches, the last of which loses a token of another subnet's home. */
  lemma ForeignTransferLosesSupply(db: Db, origin: Origin, listing: seq<SubnetId>)
    requires db.balances == map[] && HOME in db.subnets && HasCheckpoint(db.subnets[HOME])
    requires OTHER in db.subnets && HasCheckpoint(db.subnets[OTHER])
    ensures var fill, more, over := BatchFound(Fill(), origin, listing), BatchFound(OneMore(), origin, listing), BatchFound(Overflow(), origin, listing);
      var one := Step(db, fill);
      var two := Step(one, more);
      && AcceptsBatch(db, fill) && AcceptsBatch(one, more) && AcceptsBatch(two, over)
      && Supply(two.balances, COIN) == U256_MAX + 1
      && Supply(Step(two, over).balances, COIN) == U256_MAX
  {
    var fill, more, over := BatchFound(Fill(), origin, listing), BatchFound(OneMore(), origin, listing), BatchFound(Overflow(), origin, listing);
    FillAccepted(fill.batch, db.balances);
    BatchStep(db, fill);
    var one := Step(db, fill);
    OneMoreAccepted(more.batch, one.balances);
    BatchStep(one, more);
    var two := Step(one, more);
    OverflowAccepted(over.batch, two.balances);
    BatchStep(two, over);
    CoinSupply(two.balances, 1);
    CoinSupply(Step(two, over).balances, 0);
  }

  /** A batch that the dry run accepts, from a subnet with a checkpoint, is accepted; no checkpoint is lost. */
  lemma BatchStep(db: Db, ev: Event)
    requires ev.BatchFound? && ev.batch.source in db.subnets && HasCheckpoint(db.subnets[ev.batch.source])
    requires DryRun(ev.batch, db.balances).Ok?
    ensures AcceptsBatch(db, ev) && ApplyBalances(ev.batch, db.balances) == Ok(Step(db, ev).balances)
    ensures forall s :: s in db.subnets && HasCheckpoint(db.subnets[s]) ==> s in Step(db, ev).subnets && HasCheckpoint(Step(db, ev).subnets[s])
  {
    SaveIsGatedByDryRun(db, ev.batch, ev.origin, ev.listing);
  }
}
