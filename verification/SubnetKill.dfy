/**
 Kill votes and the kill lifecycle: every validator counts at most once in any
 tally, marking needs a quorum of the latest committee inside one window, and the
 kill state only ever moves forward.
 */
module SubnetKill {
  import opened Outcomes
  import opened Listings
  import opened Multisig
  import opened Committees
  import opened Subnets

  type Kills = map<(nat, nat), KillRequest>

  function Gap(a: nat, b: nat): nat {
    if a <= b then b - a else a - b
  }

  /** Two requests of one validator lie further apart than a request is valid. */
  ghost predicate KillsOk(kills: Kills, now: nat) {
    && (forall row: (nat, nat) :: row in kills ==> kills[row].blockHeight <= now)
    && forall a, b :: a in kills && b in kills && a != b && kills[a].validator == kills[b].validator ==>
         Gap(kills[a].blockHeight, kills[b].blockHeight) > 36
  }

  // ---------------------------------------------------------------------
  // Valid requests

  lemma {:induction false} ValidRequestsAre(kills: Kills, rows: seq<(nat, nat)>, height: nat, r: KillRequest)
    ensures r in ValidRequests(kills, rows, height) <==>
      exists row :: row in rows && row in kills && kills[row] == r && StillValid(r, height)
  {
    if rows != [] {
      assert rows == [rows[0]] + rows[1..];
      ValidRequestsAre(kills, rows[1..], height, r);
    }
  }

  ghost predicate DistinctVoters(reqs: seq<KillRequest>) {
    forall i, j :: 0 <= i < j < |reqs| ==> reqs[i].validator != reqs[j].validator
  }

  /** All valid requests of the window come from different validators. */
  lemma {:induction false} WindowVotersDistinct(kills: Kills, rows: seq<(nat, nat)>, height: nat)
    requires KillsOk(kills, height) && Distinct(rows)
    ensures DistinctVoters(ValidRequests(kills, rows, height))
  {
    if rows != [] {
      var row, rest := rows[0], ValidRequests(kills, rows[1..], height);
      WindowVotersDistinct(kills, rows[1..], height);
      if row in kills && StillValid(kills[row], height) {
        forall r | r in rest
          ensures r.validator != kills[row].validator
        {
          ValidRequestsAre(kills, rows[1..], height, r);
          var other :| other in rows[1..] && other in kills && kills[other] == r && StillValid(r, height);
          assert other != row;
        }
      }
    }
  }

  // ---------------------------------------------------------------------
  // Tallies

  ghost function Voters(reqs: seq<KillRequest>): set<Key> {
    set r | r in reqs :: r.validator
  }

  lemma {:induction false} PowerInAdd(vs: seq<Validator>, s: set<Key>, k: Key)
    requires DistinctValidators(vs) && k !in s
    ensures PowerIn(vs, s + {k}) == PowerIn(vs, s) + PowerOfKey(vs, k)
  {
    if vs != [] {
      PowerInAdd(vs[1..], s, k);
      if vs[0].pubkey == k {
        assert Position(vs[1..], k).None?;
      }
    }
  }

  lemma {:induction false} PowerInBounds(vs: seq<Validator>, s: set<Key>)
    ensures PowerIn(vs, s) <= Total(vs)
    ensures s == {} ==> PowerIn(vs, s) == 0
  {
    if vs != [] {
      PowerInBounds(vs[1..], s);
    }
  }

  /** A tally over distinct voters is the power of the set of voters. */
  lemma {:induction false} TallyIsPower(vs: seq<Validator>, reqs: seq<KillRequest>)
    requires DistinctValidators(vs) && DistinctVoters(reqs)
    ensures Tally(vs, reqs) == PowerIn(vs, Voters(reqs)) <= Total(vs)
  {
    PowerInBounds(vs, Voters(reqs));
    if reqs != [] {
      var k, rest := reqs[0].validator, reqs[1..];
      TallyIsPower(vs, rest);
      assert reqs == [reqs[0]] + rest;
      assert Voters(reqs) == Voters(rest) + {k};
      assert k !in Voters(rest);
      PowerInAdd(vs, Voters(rest), k);
    }
  }

  /** The validators with a request at most 36 blocks before `height`. */
  ghost function WindowVoters(kills: Kills, height: nat): set<Key> {
    set row | row in kills && kills[row].blockHeight + 36 >= height :: kills[row].validator
  }

  lemma ListedVoters(kills: Kills, rows: seq<(nat, nat)>, height: nat)
    requires Lists(rows, kills.Keys)
    ensures Voters(ValidRequests(kills, rows, height)) == WindowVoters(kills, height)
  {
    var reqs := ValidRequests(kills, rows, height);
    forall k
      ensures k in Voters(reqs) <==> k in WindowVoters(kills, height)
    {
      if k in Voters(reqs) {
        var r :| r in reqs && r.validator == k;
        ValidRequestsAre(kills, rows, height, r);
      }
      if k in WindowVoters(kills, height) {
        var row :| row in kills && StillValid(kills[row], height) && kills[row].validator == k;
        ValidRequestsAre(kills, rows, height, kills[row]);
        assert row in rows;
      }
    }
  }

  /** A request is refused as a repeat exactly when its validator is in the window already. */
  lemma RepeatIsWindow(kills: Kills, rows: seq<(nat, nat)>, height: nat, k: Key)
    requires Lists(rows, kills.Keys)
    ensures HasVoted(ValidRequests(kills, rows, height), k) <==> k in WindowVoters(kills, height)
  {
    ListedVoters(kills, rows, height);
    var reqs := ValidRequests(kills, rows, height);
    if k in Voters(reqs) {
      var r :| r in reqs && r.validator == k;
      var i :| 0 <= i < |reqs| && reqs[i] == r;
    }
  }

  /**
   Votes count once. Whatever the order in which the request table is listed, the
   tally of an accepted vote is the power of the set of validators that voted in
   the window together with the new one, and so never exceeds the total.
   */
  lemma VotesCountOnce(kills: Kills, rows: seq<(nat, nat)>, vs: seq<Validator>, k: Key, height: nat, now: nat)
    requires KillsOk(kills, now) && now <= height && Lists(rows, kills.Keys) && DistinctValidators(vs)
    requires !HasVoted(ValidRequests(kills, rows, height), k)
    ensures Tally(vs, ValidRequests(kills, rows, height) + [KillRequest(k, height)])
            == PowerIn(vs, WindowVoters(kills, height) + {k}) <= Total(vs)
  {
    var earlier := ValidRequests(kills, rows, height);
    var all := earlier + [KillRequest(k, height)];
    assert KillsOk(kills, height);
    WindowVotersDistinct(kills, rows, height);
    assert DistinctVoters(all);
    TallyIsPower(vs, all);
    ListedVoters(kills, rows, height);
    assert Voters(all) == Voters(earlier) + {k};
  }

  // ---------------------------------------------------------------------
  // One vote

  /** The requests stay apart, whichever row the new one takes. */
  lemma KillKeepsRequests(s: Subnet, k: Key, rows: seq<(nat, nat)>, at: Place, now: nat)
    requires KillsOk(s.kills, now) && now <= at.height && Lists(rows, s.kills.Keys)
    requires ApplyKill(s, k, rows, at).Ok?
    ensures KillsOk(ApplyKill(s, k, rows, at).value.kills, at.height)
  {
    var kills' := s.kills[(at.height, at.txid) := KillRequest(k, at.height)];
    RepeatIsWindow(s.kills, rows, at.height, k);
    forall row | row in s.kills && s.kills[row].validator == k
      ensures Gap(s.kills[row].blockHeight, at.height) > 36
    {
      assert !StillValid(s.kills[row], at.height);
    }
    assert ApplyKill(s, k, rows, at).value.kills == kills';
  }

  /** Some stored request of `k` is at most 36 blocks old at `height`. */
  ghost predicate VotedLately(kills: Kills, k: Key, height: nat) {
    exists row :: row in kills && kills[row].validator == k && kills[row].blockHeight + 36 >= height
  }

  ghost predicate HasMember(vs: seq<Validator>, k: Key) {
    exists v :: v in vs && v.pubkey == k
  }

  /**
   A vote is accepted if and only if the subnet is bootstrapped, the voter is a member
   of the latest committee, and no request of its own is left from the last 36 blocks.
   Requests of others, and a mark already set, do not matter.
   */
  lemma VoteAcceptedExactly(s: Subnet, k: Key, rows: seq<(nat, nat)>, at: Place)
    requires Lists(rows, s.kills.Keys)
    ensures ApplyKill(s, k, rows, at).Ok? <==>
      s.state.Some? && HasMember(LatestCommittee(s.state.value).validators, k) && !VotedLately(s.kills, k, at.height)
  {
    RepeatIsWindow(s.kills, rows, at.height, k);
  }

  /** What an accepted vote writes: its own request, and the mark when it makes a quorum. */
  ghost predicate VoteWritten(s: Subnet, s': Subnet, k: Key, at: Place) {
    && s.state.Some? && s'.state.Some?
    && var st, vs := s.state.value, LatestCommittee(s.state.value).validators;
       var marks := st.killed == NotKilled && 3 * PowerIn(vs, WindowVoters(s.kills, at.height) + {k}) > 2 * Total(vs);
       && s' == s.(kills := s.kills[(at.height, at.txid) := KillRequest(k, at.height)], state := s'.state)
       && s'.state.value == if !marks then st
                            else if st.lastCheckpoint.None? then st.(killed := ToBeKilled)
                            else st.(killed := ToBeKilled, marked := st.lastCheckpoint)
  }

  /**
   An accepted vote stores its request under its block and transaction, and marks the
   subnet if and only if it was not marked and the members of the latest committee that
   voted within the last 36 blocks, the new voter among them, hold more than two thirds
   of its power. Nothing else changes.
   */
  lemma KillMarksExactly(s: Subnet, k: Key, rows: seq<(nat, nat)>, at: Place, now: nat)
    requires KillsOk(s.kills, now) && now <= at.height && Lists(rows, s.kills.Keys)
    requires ApplyKill(s, k, rows, at).Ok? && s.state.Some?
    requires DistinctValidators(LatestCommittee(s.state.value).validators)
    ensures VoteWritten(s, ApplyKill(s, k, rows, at).value, k, at)
  {
    var vs, voters := LatestCommittee(s.state.value).validators, WindowVoters(s.kills, at.height) + {k};
    VotesCountOnce(s.kills, rows, vs, k, at.height, now);
    ThresholdIsQuorum(vs, voters);
  }

  // ---------------------------------------------------------------------
  // The lifecycle

  function Rank(k: KillState): nat {
    match k
    case NotKilled => 0
    case ToBeKilled => 1
    case Killed(_) => 2
  }

  ghost predicate MarkOk(s: Subnet) {
    s.state.Some? ==>
      var st := s.state.value;
      && (st.killed == NotKilled ==> st.marked.None?)
      && (st.marked.Some? ==> st.lastCheckpoint.Some? && st.marked.value <= st.lastCheckpoint.value)
  }

  predicate AcceptsCheckpoint(s: Subnet, ev: Event) {
    ev.msg.CheckpointMsg? && Apply(s, ev).Ok?
  }

  /** The three ways a message can affect the fields that decide about killing. */
  ghost predicate KillFields(st: SubnetState, st': SubnetState, checkpoint: bool) {
    if checkpoint then
      && st'.lastCheckpoint == Some(NextCheckpoint(st)) && st'.marked == st.marked
      && (st'.killed == st.killed || st'.killed.Killed?)
    else
      && st'.lastCheckpoint == st.lastCheckpoint
      && ((st'.killed == st.killed && st'.marked == st.marked)
          || (st.killed == NotKilled && st'.killed == ToBeKilled
              && st'.marked == if st.lastCheckpoint.Some? then st.lastCheckpoint else st.marked))
  }

  lemma JoinFields(s: Subnet, k: Key, c: nat, at: Place)
    requires s.state.Some? && ApplyJoin(s, k, c, at).Ok?
    ensures var s' := ApplyJoin(s, k, c, at).value;
      s'.state.Some? && KillFields(s.state.value, s'.state.value, false)
  {
  }

  lemma StakeFields(s: Subnet, k: Key, a: nat, enough: bool, at: Place)
    requires s.state.Some? && ApplyStake(s, k, a, enough, at).Ok?
    ensures var s' := ApplyStake(s, k, a, enough, at).value;
      s'.state.Some? && KillFields(s.state.value, s'.state.value, false)
  {
  }

  lemma UnstakeFields(s: Subnet, k: Key, a: nat, at: Place)
    requires s.state.Some? && ApplyUnstake(s, k, a, at).Ok?
    ensures var s' := ApplyUnstake(s, k, a, at).value;
      s'.state.Some? && KillFields(s.state.value, s'.state.value, false)
  {
  }

  lemma CheckpointFields(s: Subnet, n: nat, isKill: bool, at: Place)
    requires s.state.Some? && ApplyCheckpoint(s, n, isKill, at).Ok?
    ensures var s' := ApplyCheckpoint(s, n, isKill, at).value;
      s'.state.Some? && KillFields(s.state.value, s'.state.value, true)
  {
  }

  lemma VoteFields(s: Subnet, k: Key, rows: seq<(nat, nat)>, at: Place)
    requires s.state.Some? && ApplyKill(s, k, rows, at).Ok?
    ensures var s' := ApplyKill(s, k, rows, at).value;
      s'.state.Some? && KillFields(s.state.value, s'.state.value, false)
  {
  }

  /** Only votes mark, only checkpoints kill, and nothing else touches these fields. */
  lemma StepFields(s: Subnet, ev: Event)
    requires s.state.Some?
    ensures Step(s, ev).state.Some?
    ensures KillFields(s.state.value, Step(s, ev).state.value, AcceptsCheckpoint(s, ev))
  {
    if Apply(s, ev).Ok? {
      match ev.msg
      case JoinMsg(k, c) => JoinFields(s, k, c, ev.at);
      case StakeMsg(k, a, enough) => StakeFields(s, k, a, enough, ev.at);
      case UnstakeMsg(k, a) => UnstakeFields(s, k, a, ev.at);
      case CheckpointMsg(n, isKill) => CheckpointFields(s, n, isKill, ev.at);
      case BatchMsg =>
      case KillMsg(k, rows) => VoteFields(s, k, rows, ev.at);
    }
  }

  lemma StepKeepsMark(s: Subnet, ev: Event)
    requires MarkOk(s)
    ensures MarkOk(Step(s, ev))
  {
    if s.state.Some? {
      StepFields(s, ev);
    } else {
      BootstrapUnmarked(s, ev);
    }
  }

  lemma BootstrapUnmarked(s: Subnet, ev: Event)
    requires s.state.None?
    ensures Step(s, ev).state.Some? ==> Step(s, ev).state.value.marked.None? && Step(s, ev).state.value.killed == NotKilled
  {
  }

  /** The kill state only moves forward, a bootstrapped subnet stays one. */
  lemma KillMovesForward(s: Subnet, ev: Event)
    requires s.state.Some?
    ensures Step(s, ev).state.Some?
    ensures Rank(s.state.value.killed) <= Rank(Step(s, ev).state.value.killed)
  {
    StepFields(s, ev);
  }

  /** Once marked, no message adds to the log. */
  lemma MarkedLogFrozen(s: Subnet, ev: Event)
    requires s.state.Some? && KilledOrMarked(s.state.value)
    ensures Step(s, ev).log.Keys == s.log.Keys
    ensures forall n :: n in s.log ==>
      Step(s, ev).log[n].change == s.log[n].change && Step(s, ev).log[n].committeeAfter == s.log[n].committeeAfter
  {
    if ev.msg.CheckpointMsg? && Apply(s, ev).Ok? && Rotates(s.state.value, ev.msg.nextConfiguration) {
      assert Step(s, ev).log == ConfirmUpTo(s.log, ev.msg.nextConfiguration, ev.at.height);
    } else {
      FrozenOtherwise(s, ev);
    }
  }

  lemma FrozenOtherwise(s: Subnet, ev: Event)
    requires s.state.Some? && KilledOrMarked(s.state.value)
    requires !(ev.msg.CheckpointMsg? && Rotates(s.state.value, ev.msg.nextConfiguration)) || Apply(s, ev).Err?
    ensures Step(s, ev).log == s.log
  {
  }

  lemma {:induction false} MarkedRunsFrozen(s: Subnet, evs: seq<Event>)
    requires s.state.Some? && KilledOrMarked(s.state.value)
    ensures Run(s, evs).state.Some? && KilledOrMarked(Run(s, evs).state.value)
    ensures Rank(s.state.value.killed) <= Rank(Run(s, evs).state.value.killed)
    ensures Run(s, evs).log.Keys == s.log.Keys
    decreases |evs|
  {
    if evs != [] {
      KillMovesForward(s, evs[0]);
      MarkedLogFrozen(s, evs[0]);
      MarkedRunsFrozen(Step(s, evs[0]), evs[1..]);
    }
  }

  /** Checkpoints recorded after the one that was last when the subnet was marked. */
  function SinceMarked(st: SubnetState): int {
    NextCheckpoint(st) - if st.marked.Some? then st.marked.value + 1 else 0
  }

  /** `should_kill` counts them, and its subtraction does not go below zero. */
  lemma ShouldKillCounts(s: Subnet)
    requires MarkOk(s) && s.state.Some?
    ensures SinceMarked(s.state.value) >= 0
    ensures ShouldKill(s.state.value) <==>
      s.state.value.killed == ToBeKilled && SinceMarked(s.state.value) >= 5
  {
  }

  /** How many checkpoints a run records. */
  function CheckpointsIn(s: Subnet, evs: seq<Event>): nat
    decreases |evs|
  {
    if evs == [] then 0
    else (if AcceptsCheckpoint(s, evs[0]) then 1 else 0) + CheckpointsIn(Step(s, evs[0]), evs[1..])
  }

  lemma MarkedStep(s: Subnet, ev: Event)
    requires s.state.Some? && KilledOrMarked(s.state.value)
    ensures Step(s, ev).state.Some? && KilledOrMarked(Step(s, ev).state.value)
    ensures SinceMarked(Step(s, ev).state.value)
            == SinceMarked(s.state.value) + if AcceptsCheckpoint(s, ev) then 1 else 0
  {
    StepFields(s, ev);
  }

  lemma {:induction false} MarkedRunCounts(s: Subnet, evs: seq<Event>)
    requires s.state.Some? && KilledOrMarked(s.state.value)
    ensures Run(s, evs).state.Some?
    ensures SinceMarked(Run(s, evs).state.value) == SinceMarked(s.state.value) + CheckpointsIn(s, evs)
    decreases |evs|
  {
    if evs != [] {
      MarkedStep(s, evs[0]);
      MarkedRunCounts(Step(s, evs[0]), evs[1..]);
    }
  }

  lemma {:induction false} MarkRuns(s: Subnet, evs: seq<Event>)
    requires MarkOk(s)
    ensures MarkOk(Run(s, evs))
    decreases |evs|
  {
    if evs != [] {
      StepKeepsMark(s, evs[0]);
      MarkRuns(Step(s, evs[0]), evs[1..]);
    }
  }

  /**
   The kill delay over every run: from the vote that marks a subnet on, it should
   be killed exactly when it is still only marked and at least the delay's number
   of checkpoints has been recorded since.
   */
  lemma KillDelay(s: Subnet, vote: Event, evs: seq<Event>)
    requires MarkOk(s) && s.state.Some? && s.state.value.killed == NotKilled
    requires Step(s, vote).state.Some? && Step(s, vote).state.value.killed == ToBeKilled
    ensures var marked, last := Step(s, vote), Run(Step(s, vote), evs);
      && last.state.Some?
      && (ShouldKill(last.state.value) <==>
            last.state.value.killed == ToBeKilled && CheckpointsIn(marked, evs) >= 5)
  {
    StepKeepsMark(s, vote);
    MarkingStartsAtZero(s, vote);
    DelayFrom(Step(s, vote), evs);
  }

  lemma MarkingStartsAtZero(s: Subnet, vote: Event)
    requires MarkOk(s) && s.state.Some? && s.state.value.killed == NotKilled
    requires Step(s, vote).state.Some? && Step(s, vote).state.value.killed == ToBeKilled
    ensures SinceMarked(Step(s, vote).state.value) == 0
  {
    StepFields(s, vote);
  }

  lemma DelayFrom(marked: Subnet, evs: seq<Event>)
    requires MarkOk(marked) && marked.state.Some? && marked.state.value.killed == ToBeKilled
    requires SinceMarked(marked.state.value) == 0
    ensures var last := Run(marked, evs);
      && last.state.Some?
      && (ShouldKill(last.state.value) <==>
            last.state.value.killed == ToBeKilled && CheckpointsIn(marked, evs) >= 5)
  {
    MarkRuns(marked, evs);
    MarkedRunCounts(marked, evs);
    ShouldKillCounts(Run(marked, evs));
  }
}
