/**
 Registrations. The dry run wants registered tokens to be new, and tests for a positive
 home balance: over a run, a token passes again exactly when all that its home issued or
 was sent has been destroyed or sent away.
 */
module LedgerRegistrations {
  import opened Outcomes
  import opened Ledger
  import opened LedgerRefinement
  import opened LedgerSupply
  import opened LedgerRuns

  ghost predicate DistinctAddresses(regs: seq<Registration>) {
    forall i, j :: 0 <= i < j < |regs| ==> regs[i].address != regs[j].address
  }

  /** The registrations of a batch pass if and only if none is repeated and the home holds none of any. */
  lemma {:induction false} RegistrationsPassExactly(src: SubnetId, regs: seq<Registration>, bal: Balances, run: Running)
    ensures DryRegistrations(src, regs, bal, run).Ok? <==>
      && DistinctAddresses(regs)
      && (forall i :: 0 <= i < |regs| ==> Token(src, regs[i].address) !in run)
      && forall i :: 0 <= i < |regs| ==> Balance(bal, Token(src, regs[i].address), src) == 0
  {
    if regs != [] {
      var t, rest := Token(src, regs[0].address), regs[1..];
      RegistrationsPassExactly(src, rest, bal, run[t := regs[0].supply]);
      assert forall i :: 0 <= i < |rest| ==> rest[i] == regs[i + 1];
      assert forall i :: 0 < i < |regs| ==> regs[i] == rest[i - 1];
    }
  }

  /** One registration passes if and only if the home holds none of the token. */
  lemma OneRegistration(bal: Balances, src: SubnetId, reg: Registration)
    ensures DryRegistrations(src, [reg], bal, map[]).Ok? <==> Balance(bal, Token(src, reg.address), src) == 0
  {
    RegistrationsPassExactly(src, [reg], bal, map[]);
    assert [reg][0] == reg;
  }

  /**
   Over every run from an empty database: a token passes the registration check, be it the
   first time or again, whenever all that its home issued or was sent has been destroyed
   or sent away, and as long as no credit to the home was clamped only then.
   */
  lemma RegistrationPassesExactly(evs: seq<Event>, src: SubnetId, reg: Registration)
    ensures var t := Token(src, reg.address);
      var gone := Issued(EMPTY_DB, evs, t) + Received(EMPTY_DB, evs, t, src) == Destroyed(EMPTY_DB, evs, t) + SentAway(EMPTY_DB, evs, t, src);
      var passes := DryRegistrations(src, [reg], Run(EMPTY_DB, evs).balances, map[]).Ok?;
      && (gone ==> passes)
      && (HoldingClampFree(EMPTY_DB, evs, t, src) ==> (passes <==> gone))
      && (Issued(EMPTY_DB, evs, t) <= U256_MAX ==> HoldingClampFree(EMPTY_DB, evs, t, src))
  {
    var t := Token(src, reg.address);
    OneRegistration(Run(EMPTY_DB, evs).balances, src, reg);
    HoldingOverRuns(EMPTY_DB, evs, t, src);
    if Issued(EMPTY_DB, evs, t) <= U256_MAX {
      EmptySupply(t);
      FittingRunNeverClamps(EMPTY_DB, evs, t);
      ClampFreeHolding(EMPTY_DB, evs, t, src);
    }
  }

  // ---------------------------------------------------------------------
  // A token registered twice

  const HOME: SubnetId := 1
  const AWAY: SubnetId := 2
  const COIN: Token := Token(HOME, 9)

  function Registers(supply: U256): Registration {
    Registration(9, "Coin", "C", supply)
  }

  /** Registers 100 and sends all of it away. */
  function FirstBatch(): Batch {
    Batch(HOME, [], [Registers(100)], [], [ErcTransfer(COIN, 100, AWAY, 0)])
  }

  /** Registers the same token again. */
  function SecondBatch(): Batch {
    Batch(HOME, [], [Registers(50)], [], [])
  }

  lemma FirstAccepted(b: Batch, bal: Balances)
    requires b == FirstBatch() && bal == map[]
    ensures DryRun(b, bal).Ok? && ApplyBalances(b, bal) == Ok(map[(COIN, HOME) := 0, (COIN, AWAY) := 100])
  {
    assert b.registrations[1..] == [] && b.transfers[1..] == [];
    var run: Running := map[COIN := 100];
    assert DryRegistrations(HOME, b.registrations, bal, map[]) == DryRegistrations(HOME, [], bal, run) == Ok(run);
    assert DryTransfers(HOME, b.transfers, bal, run) == DryTransfers(HOME, [], bal, run[COIN := 0]);
    var registered: Balances := map[(COIN, HOME) := 100];
    assert ApplyRegistrations(HOME, b.registrations, bal) == registered;
    assert ApplySupply(b, bal) == Ok(registered);
    var moved := MoveTokens(HOME, b.transfers[0], registered);
    assert moved == map[(COIN, HOME) := 0, (COIN, AWAY) := 100];
    assert ApplyTransfers(HOME, b.transfers, registered) == ApplyTransfers(HOME, [], moved) == Ok(moved);
  }

  lemma SecondAccepted(b: Batch, bal: Balances)
    requires b == SecondBatch() && bal == map[(COIN, HOME) := 0, (COIN, AWAY) := 100]
    ensures DryRun(b, bal).Ok? && ApplyBalances(b, bal) == Ok(map[(COIN, HOME) := 50, (COIN, AWAY) := 100])
  {
    assert b.registrations[1..] == [];
    var run: Running := map[COIN := 50];
    assert Balance(bal, COIN, HOME) == 0;
    assert DryRegistrations(HOME, b.registrations, bal, map[]) == DryRegistrations(HOME, [], bal, run) == Ok(run);
    var registered: Balances := map[(COIN, HOME) := 50, (COIN, AWAY) := 100];
    assert bal[(COIN, HOME) := 50] == registered;
    assert ApplyRegistrations(HOME, b.registrations, bal) == ApplyRegistrations(HOME, [], registered) == registered;
  }

  lemma CoinSupply(bal: Balances, home: U256)
    requires bal == map[(COIN, HOME) := home, (COIN, AWAY) := 100]
    ensures Supply(bal, COIN) == home + 100
  {
    SupplyWithout(bal, COIN, (COIN, HOME));
    var rest := bal - {(COIN, HOME)};
    SupplyWithout(rest, COIN, (COIN, AWAY));
    assert rest - {(COIN, AWAY)} == map[];
  }

  /**
   A token is registered a second time: the first batch registers 100 and sends all of it
   away, the second registers 50 more under the same address.
   */
  lemma RegisteredTwice(db: Db, one: Origin, two: Origin, listing: seq<SubnetId>)
    requires db.balances == map[] && HOME in db.subnets && HasCheckpoint(db.subnets[HOME])
    ensures var first, second := BatchFound(FirstBatch(), one, listing), BatchFound(SecondBatch(), two, listing);
      && AcceptsBatch(db, first) && AcceptsBatch(Step(db, first), second)
      && Supply(Step(db, first).balances, COIN) == 100
      && Supply(Step(Step(db, first), second).balances, COIN) == 150
  {
    var first, second := BatchFound(FirstBatch(), one, listing), BatchFound(SecondBatch(), two, listing);
    FirstAccepted(first.batch, db.balances);
    SaveIsGatedByDryRun(db, first.batch, one, listing);
    var next := Step(db, first);
    assert next.balances == map[(COIN, HOME) := 0, (COIN, AWAY) := 100];
    assert HOME in next.subnets && HasCheckpoint(next.subnets[HOME]);
    SecondAccepted(second.batch, next.balances);
    SaveIsGatedByDryRun(next, second.batch, two, listing);
    CoinSupply(next.balances, 0);
    CoinSupply(Step(next, second).balances, 50);
  }
}
