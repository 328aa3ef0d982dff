/**
 The subnet's rows as they are kept: every message handler reads them, computes
 the new rows and writes them at the end. Each handler does exactly what the
 transition function of its message says, and a refusal writes nothing.
 */
module SubnetStore {
  import opened Outcomes
  import opened Listings
  import opened Multisig
  import opened Committees
  import opened Subnets
  import opened SubnetLog
  import opened SubnetKill

  /** A committee that is being changed before it becomes the waiting one. */
  class WorkingCommittee {
    var configurationNumber: nat
    var threshold: nat
    var validators: seq<Validator>
    var address: MultisigAddress

    function Value(): Committee
      reads this
    {
      Committee(configurationNumber, threshold, validators, address)
    }

    constructor (c: Committee)
      ensures Value() == c
    {
      configurationNumber, threshold, validators, address := c.configurationNumber, c.threshold, c.validators, c.address;
    }

    /** Recomputes what depends on the validators. */
    method Rebuild(id: SubnetId) returns (failed: Option<CommitteeError>)
      modifies this`threshold, this`address
      ensures Build(id, validators, configurationNumber)
              == if failed.Some? then Err(failed.value) else Ok(Value())
    {
      threshold := Threshold(Total(validators));
      var a := AddressOf(id, validators);
      if a.None? {
        return Some(NoPower);
      }
      address := a.value;
      failed := None;
    }

    method JoinNew(id: SubnetId, v: Validator) returns (failed: Option<CommitteeError>)
      modifies this
      ensures JoinNewValidator(old(Value()), id, v) == if failed.Some? then Err(failed.value) else Ok(Value())
    {
      configurationNumber := configurationNumber + 2;
      if Position(validators, v.pubkey).Some? {
        return Some(AlreadyValidator);
      }
      validators := validators + [v];
      failed := Rebuild(id);
    }

    method Modify(id: SubnetId, v: Validator) returns (failed: Option<CommitteeError>)
      modifies this
      ensures ModifyValidator(old(Value()), id, v) == if failed.Some? then Err(failed.value) else Ok(Value())
    {
      configurationNumber := configurationNumber + 1;
      var p := Position(validators, v.pubkey);
      if p.None? {
        return Some(NotValidator);
      }
      validators := validators[p.value := v];
      failed := Rebuild(id);
    }

    method Remove(id: SubnetId, k: Key) returns (failed: Option<CommitteeError>)
      modifies this
      ensures RemoveValidator(old(Value()), id, k) == if failed.Some? then Err(failed.value) else Ok(Value())
    {
      configurationNumber := configurationNumber + 1;
      var p := Position(validators, k);
      if p.None? {
        return Some(NotValidator);
      }
      validators := Without(validators, p.value);
      failed := Rebuild(id);
    }
  }

  // ---------------------------------------------------------------------
  // The two loops of the handlers

  /** An entry that a confirmation up to `max` would change. */
  predicate Pending(e: StakeChange, max: nat) {
    e.confirmed.None? && e.configurationNumber <= max
  }

  /** `log'` after the entries in `done` were looked at. */
  ghost predicate ConfirmedSoFar(log: Log, log': Log, done: seq<nat>, max: nat, height: nat) {
    && log'.Keys == log.Keys
    && forall n :: n in log ==>
         log'[n] == if n in done && Pending(log[n], max) then log[n].(confirmed := Some(height)) else log[n]
  }

  function ConfirmedAt(e: StakeChange, height: nat): StakeChange {
    e.(confirmed := Some(height))
  }

  /** `last` is the newly confirmed entry with the largest number, whatever the order of `done`. */
  ghost predicate LastConfirmed(log: Log, done: seq<nat>, max: nat, last: Option<nat>) {
    && (forall n :: n in done && n in log && Pending(log[n], max) ==> last.Some? && n <= last.value)
    && (last.Some? ==> last.value in done && last.value in log && Pending(log[last.value], max))
  }

  /** `confirmed` holds exactly the newly confirmed entries. */
  ghost predicate Collected(log: Log, done: seq<nat>, max: nat, height: nat, confirmed: seq<StakeChange>) {
    && (forall n :: n in done && n in log && Pending(log[n], max) ==> ConfirmedAt(log[n], height) in confirmed)
    && forall e :: e in confirmed ==> exists n :: n in done && n in log && Pending(log[n], max) && e == ConfirmedAt(log[n], height)
  }

  lemma CollectOne(log: Log, done: seq<nat>, n: nat, max: nat, height: nat, confirmed: seq<StakeChange>)
    requires Collected(log, done, max, height, confirmed) && n in log
    ensures Collected(log, done + [n], max, height,
                      if Pending(log[n], max) then confirmed + [ConfirmedAt(log[n], height)] else confirmed)
  {
    var all := if Pending(log[n], max) then confirmed + [ConfirmedAt(log[n], height)] else confirmed;
    forall e | e in all
      ensures exists m :: m in done + [n] && m in log && Pending(log[m], max) && e == ConfirmedAt(log[m], height)
    {
      if e in confirmed {
        var m :| m in done && m in log && Pending(log[m], max) && e == ConfirmedAt(log[m], height);
        assert m in done + [n];
      } else {
        assert n in done + [n];
      }
    }
  }

  lemma LastOne(log: Log, done: seq<nat>, n: nat, max: nat, last: Option<nat>)
    requires LastConfirmed(log, done, max, last) && n in log
    ensures LastConfirmed(log, done + [n], max,
                          if Pending(log[n], max) && (last.None? || n > last.value) then Some(n) else last)
  {
    assert forall k :: k in done + [n] <==> k in done || k == n;
  }

  lemma ConfirmOne(log: Log, after: Log, done: seq<nat>, n: nat, max: nat, height: nat)
    requires ConfirmedSoFar(log, after, done, max, height) && n in log && n !in done
    ensures n in after && after[n] == log[n]
    ensures ConfirmedSoFar(log, if Pending(log[n], max) then after[n := ConfirmedAt(log[n], height)] else after, done + [n], max, height)
  {
  }

  lemma AllConfirmed(log: Log, after: Log, rows: seq<nat>, max: nat, height: nat)
    requires ConfirmedSoFar(log, after, rows, max, height) && Lists(rows, log.Keys)
    ensures after == ConfirmUpTo(log, max, height)
  {
    assert forall n :: n in log ==> n in log.Keys && n in rows;
  }

  /**
   `confirm_stake_changes`. The rows may come in any order. Returned are the new log,
   the number of the last newly confirmed entry, and the confirmed entries.
   */
  method ConfirmStakeChanges(log: Log, rows: seq<nat>, max: nat, height: nat)
    returns (after: Log, last: Option<nat>, confirmed: seq<StakeChange>)
    requires Numbered(log) && Lists(rows, log.Keys)
    ensures after == ConfirmUpTo(log, max, height)
    ensures LastConfirmed(log, rows, max, last)
    ensures Collected(log, rows, max, height, confirmed)
  {
    after, last, confirmed := log, None, [];
    for i := 0 to |rows|
      invariant ConfirmedSoFar(log, after, rows[..i], max, height)
      invariant LastConfirmed(log, rows[..i], max, last)
      invariant Collected(log, rows[..i], max, height, confirmed)
    {
      var n := rows[i];
      assert n in log.Keys && n !in rows[..i] && rows[..i + 1] == rows[..i] + [n];
      ConfirmOne(log, after, rows[..i], n, max, height);
      CollectOne(log, rows[..i], n, max, height, confirmed);
      LastOne(log, rows[..i], n, max, last);
      var change := after[n];
      if change.confirmed.None? && change.configurationNumber <= max {
        change := change.(confirmed := Some(height));
        after := after[change.configurationNumber := change];
        if last.None? || change.configurationNumber > last.value {
          last := Some(change.configurationNumber);
        }
        confirmed := confirmed + [change];
      }
    }
    assert rows[..|rows|] == rows;
    AllConfirmed(log, after, rows, max, height);
  }

  /** The last confirmed number does not depend on the order of the rows. */
  lemma LastConfirmedOrderFree(log: Log, a: seq<nat>, b: seq<nat>, max: nat, last: Option<nat>, last': Option<nat>)
    requires Lists(a, log.Keys) && Lists(b, log.Keys)
    requires LastConfirmed(log, a, max, last) && LastConfirmed(log, b, max, last')
    ensures last == last'
  {
    assert forall n :: n in a <==> n in log.Keys;
    assert forall n :: n in b <==> n in log.Keys;
  }

  /** The valid requests among the rows. */
  method GetValidRequests(kills: Kills, rows: seq<(nat, nat)>, height: nat) returns (valid: seq<KillRequest>)
    ensures valid == ValidRequests(kills, rows, height)
  {
    valid := [];
    var min := if height >= KILL_REQUEST_VALID_BLOCKS then height - KILL_REQUEST_VALID_BLOCKS else 0;
    for i := 0 to |rows|
      invariant ValidRequests(kills, rows, height) == valid + ValidRequests(kills, rows[i..], height)
    {
      assert rows[i..][1..] == rows[i + 1..];
      ghost var rest := ValidRequests(kills, rows[i + 1..], height);
      if rows[i] in kills && kills[rows[i]].blockHeight >= min {
        assert ValidRequests(kills, rows[i..], height) == [kills[rows[i]]] + rest;
        assert valid + ([kills[rows[i]]] + rest) == (valid + [kills[rows[i]]]) + rest;
        valid := valid + [kills[rows[i]]];
      } else {
        assert ValidRequests(kills, rows[i..], height) == rest;
      }
    }
  }

  method TallyVotes(vs: seq<Validator>, reqs: seq<KillRequest>) returns (power: nat)
    ensures power == Tally(vs, reqs)
  {
    power := 0;
    for i := 0 to |reqs|
      invariant Tally(vs, reqs) == power + Tally(vs, reqs[i..])
    {
      assert reqs[i..][1..] == reqs[i + 1..];
      var p := Position(vs, reqs[i].validator);
      if p.Some? {
        power := power + vs[p.value].power;
      }
    }
  }

  // ---------------------------------------------------------------------
  // The handlers

  /** The rows after a message are those of its transition, or untouched with its error. */
  ghost predicate Handled(before: Subnet, transition: Result<Subnet, SubnetError>, after: Subnet, failed: Option<SubnetError>) {
    match transition
    case Ok(s) => failed.None? && after == s
    case Err(e) => failed == Some(e) && after == before
  }

  class Store {
    const id: SubnetId
    var genesis: Genesis
    var state: Option<SubnetState>
    var log: map<nat, StakeChange>
    var committees: map<nat, Committee>
    var checkpoints: map<nat, Checkpoint>
    var kills: map<(nat, nat), KillRequest>

    function View(): Subnet
      reads this
    {
      Subnet(id, genesis, state, log, committees, checkpoints, kills)
    }

    constructor (id: SubnetId, minStake: nat, minValidators: nat, whitelist: set<Key>)
      ensures View() == Created(id, minStake, minValidators, whitelist)
    {
      this.id := id;
      genesis := Genesis(minStake, minValidators, whitelist, [], None);
      state, log, committees, checkpoints, kills := None, map[], map[], map[], map[];
    }

    method SaveJoin(k: Key, collateral: nat, at: Place) returns (failed: Option<SubnetError>)
      modifies this
      ensures Handled(old(View()), ApplyJoin(old(View()), k, collateral, at), View(), failed)
    {
      if collateral == 0 {
        return Some(ZeroAmount);
      }
      var power := CollateralToPower(collateral, genesis.minStake);
      if power.None? {
        return Some(BelowMinimum);
      }
      var v := Validator(k, power.value, collateral);
      if state.None? {
        failed := SaveGenesisJoin(v, at);
      } else {
        failed := SaveLaterJoin(v, at);
      }
    }

    method SaveGenesisJoin(v: Validator, at: Place) returns (failed: Option<SubnetError>)
      requires state.None?
      modifies this
      ensures Handled(old(View()), JoinBefore(old(View()), v, at), View(), failed)
    {
      if v.pubkey !in genesis.whitelist {
        return Some(NotWhitelisted);
      }
      if Position(genesis.validators, v.pubkey).Some? {
        return Some(AlreadyRegistered);
      }
      var grown := genesis.(validators := genesis.validators + [v]);
      if |grown.validators| % 0x1_0000 >= grown.minValidators {
        var bootstrapped := ToSubnet(View(), grown.validators);
        if bootstrapped.Err? {
          return Some(CommitteeFailed(bootstrapped.error));
        }
        genesis := grown.(height := Some(at.height));
        state := Some(bootstrapped.value);
        committees := committees[bootstrapped.value.committeeNumber := bootstrapped.value.committee];
      } else {
        genesis := grown;
      }
      failed := None;
    }

    method SaveLaterJoin(v: Validator, at: Place) returns (failed: Option<SubnetError>)
      requires state.Some?
      modifies this
      ensures Handled(old(View()), JoinAfter(old(View()), v, at), View(), failed)
    {
      var st := state.value;
      if KilledOrMarked(st) {
        return Some(KilledOrPending);
      }
      var latest := LatestCommittee(st);
      if IsValidator(st.committee, v.pubkey) || IsValidator(latest, v.pubkey) {
        return Some(AlreadyRegistered);
      }
      var next := new WorkingCommittee(latest);
      var error := next.JoinNew(id, v);
      if error.Some? {
        return Some(CommitteeFailed(error.value));
      }
      var n := |log| + 1;
      state := Some(st.(waiting := Some(next.Value())));
      log := log[n := StakeChange(Join, v.pubkey, n, next.Value(), at.height, None)];
      log := log[n + 1 := StakeChange(Deposit(v.collateral), v.pubkey, n + 1, next.Value(), at.height, None)];
      failed := None;
    }

    /** The committee `next` waits, and the change that led to it is logged. */
    method Await(next: Committee, change: StakingChange, k: Key, at: Place)
      requires state.Some?
      modifies this`state, this`log
      ensures View() == Waiting(old(View()), next, change, k, at)
    {
      var n := |log| + 1;
      state := Some(state.value.(waiting := Some(next)));
      log := log[n := StakeChange(change, k, n, next, at.height, None)];
    }

    method SaveStake(k: Key, amount: nat, enough: bool, at: Place) returns (failed: Option<SubnetError>)
      modifies this
      ensures Handled(old(View()), ApplyStake(old(View()), k, amount, enough, at), View(), failed)
    {
      if amount == 0 {
        return Some(ZeroAmount);
      }
      if state.None? {
        return Some(NotBootstrapped);
      }
      if KilledOrMarked(state.value) {
        return Some(KilledOrPending);
      }
      var latest := LatestCommittee(state.value);
      var p := Position(latest.validators, k);
      if p.None? {
        return Some(UnknownValidator);
      }
      if !enough {
        return Some(IncreaseTooSmall);
      }
      var v := latest.validators[p.value];
      var power := CollateralToPower(v.collateral + amount, genesis.minStake);
      if power.None? {
        return Some(BelowMinimum);
      }
      var next := new WorkingCommittee(latest);
      var error := next.Modify(id, v.(collateral := v.collateral + amount, power := power.value));
      if error.Some? {
        return Some(CommitteeFailed(error.value));
      }
      Await(next.Value(), Deposit(amount), k, at);
      failed := None;
    }

    method SaveUnstake(k: Key, amount: nat, at: Place) returns (failed: Option<SubnetError>)
      modifies this
      ensures Handled(old(View()), ApplyUnstake(old(View()), k, amount, at), View(), failed)
    {
      if amount == 0 {
        return Some(ZeroAmount);
      }
      if state.None? {
        return Some(NotBootstrapped);
      }
      if KilledOrMarked(state.value) {
        return Some(KilledOrPending);
      }
      var latest := LatestCommittee(state.value);
      var p := Position(latest.validators, k);
      if p.None? {
        return Some(UnknownValidator);
      }
      if amount > TotalCollateral(state.value.committee.validators) || amount > latest.validators[p.value].collateral {
        return Some(AmountTooLarge);
      }
      var v := latest.validators[p.value];
      var left := v.collateral - amount;
      var power := CollateralToPower(left, genesis.minStake);
      if power.None? && left != 0 {
        return Some(MustUnstakeAll);
      }
      var next := new WorkingCommittee(latest);
      var error: Option<CommitteeError>;
      if power.None? || power.value == 0 {
        error := next.Remove(id, k);
      } else {
        error := next.Modify(id, v.(collateral := left, power := power.value));
      }
      if error.Some? {
        return Some(CommitteeFailed(error.value));
      }
      Await(next.Value(), Withdraw(amount), k, at);
      failed := None;
    }

    /** Committees compare by address alone. */
    method RotateTo(c: Committee)
      requires state.Some?
      modifies this`state
      ensures state == Some(Rotate(old(state.value), c))
    {
      var st := state.value;
      if st.committee.address == c.address {
        return;
      }
      if st.waiting.Some? && st.waiting.value.address == c.address {
        st := st.(waiting := None);
      }
      state := Some(st.(committee := c, committeeNumber := st.committeeNumber + 1));
    }

    /** `rows` is the stake-change table in the order in which it is iterated. */
    method SaveCheckpoint(nextConf: nat, isKill: bool, rows: seq<nat>, at: Place) returns (failed: Option<SubnetError>)
      requires Numbered(log) && Lists(rows, log.Keys)
      modifies this
      ensures Handled(old(View()), ApplyCheckpoint(old(View()), nextConf, isKill, at), View(), failed)
    {
      if state.None? {
        return Some(NotBootstrapped);
      }
      var st := state.value;
      var number := if st.lastCheckpoint.Some? then st.lastCheckpoint.value + 1 else 0;
      var record := Checkpoint(number, at.height, at.txid, None, st.committeeNumber, st.committeeNumber, st.committee.configurationNumber, isKill);
      if nextConf != 0 && nextConf != st.committee.configurationNumber {
        if nextConf < st.committee.configurationNumber {
          return Some(StaleConfiguration);
        }
        if nextConf !in log {
          return Some(NoSuchChange);
        }
        var target := log[nextConf].committeeAfter;
        record := record.(nextCommittee := st.committeeNumber + 1, nextConfiguration := log[nextConf].configurationNumber);
        RotateTo(target);
        st := state.value;
        committees := committees[record.nextCommittee := target];
        var after, _, _ := ConfirmStakeChanges(log, rows, nextConf, at.height);
        log := after;
      }
      st := st.(lastCheckpoint := Some(number));
      if isKill {
        st := st.(killed := Killed(at.height));
      }
      state := Some(st);
      checkpoints := checkpoints[number := record];
      failed := None;
    }

    /** The checkpoint row that a batch rewrites. */
    method SaveBatchTxid(at: Place) returns (failed: Option<SubnetError>)
      modifies this`checkpoints
      ensures Handled(old(View()), ApplyBatch(old(View()), at), View(), failed)
    {
      if state.None? {
        return Some(NotBootstrapped);
      }
      if state.value.lastCheckpoint.None? || state.value.lastCheckpoint.value !in checkpoints {
        return Some(NoCheckpoint);
      }
      var record := checkpoints[state.value.lastCheckpoint.value].(batchTxid := Some(at.txid));
      checkpoints := checkpoints[state.value.lastCheckpoint.value + 1 := record];
      failed := None;
    }

    /** `rows` is the request table in the order in which it is iterated. */
    method SaveKill(k: Key, rows: seq<(nat, nat)>, at: Place) returns (failed: Option<SubnetError>)
      modifies this
      ensures Handled(old(View()), ApplyKill(old(View()), k, rows, at), View(), failed)
    {
      if state.None? {
        return Some(NotBootstrapped);
      }
      var st := state.value;
      var vs := LatestCommittee(st).validators;
      if Position(vs, k).None? {
        return Some(UnknownValidator);
      }
      var reqs := GetValidRequests(kills, rows, at.height);
      if exists i :: 0 <= i < |reqs| && reqs[i].validator == k {
        return Some(AlreadyVoted);
      }
      var request := KillRequest(k, at.height);
      var power := TallyVotes(vs, reqs + [request]);
      kills := kills[(at.height, at.txid) := request];
      if power >= Threshold(Total(vs)) && st.killed == NotKilled {
        st := st.(killed := ToBeKilled);
        if st.lastCheckpoint.Some? {
          st := st.(marked := st.lastCheckpoint);
        }
        state := Some(st);
      }
      failed := None;
    }
  }
}
