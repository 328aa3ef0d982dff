/**
 Votes that mark a subnet: members of the latest committee who vote inside one window
 bring the mark about if and only if they hold more than two thirds of the power.
 */
module SubnetVotes {
  import opened Multisig
  import opened Committees
  import opened Subnets
  import opened SubnetKill
  import opened SubnetCore

  /** Votes of different members, in different transactions, within 36 blocks of `start`. */
  ghost predicate Ballot(evs: seq<Event>, vs: seq<Validator>, start: nat) {
    && (forall i :: 0 <= i < |evs| ==>
          evs[i].msg.KillMsg? && HasMember(vs, evs[i].msg.key) && start <= evs[i].at.height <= start + 36)
    && (forall i, j :: 0 <= i < j < |evs| ==> evs[i].at != evs[j].at)
    && forall i, j :: 0 <= i < j < |evs| && evs[i].msg.KillMsg? && evs[j].msg.KillMsg? ==>
         evs[i].msg.key != evs[j].msg.key
  }

  ghost function BallotVoters(evs: seq<Event>): set<Key> {
    set ev | ev in evs && ev.msg.KillMsg? :: ev.msg.key
  }

  /** The requests of the votes cast are stored. */
  ghost predicate CastIn(kills: Kills, cast: seq<Event>) {
    forall ev :: ev in cast && ev.msg.KillMsg? ==>
      var row := (ev.at.height, ev.at.txid);
      row in kills && kills[row] == KillRequest(ev.msg.key, ev.at.height)
  }

  /** None of the coming voters has a request that counts from `start` on. */
  ghost predicate FreshVoters(kills: Kills, evs: seq<Event>, start: nat) {
    forall k :: k in BallotVoters(evs) ==> !VotedLately(kills, k, start)
  }

  /** Every request that counts from `start` on is one of those cast. */
  ghost predicate OnlyCast(kills: Kills, cast: seq<Event>, start: nat) {
    forall row :: row in kills && kills[row].blockHeight + 36 >= start ==> kills[row].validator in BallotVoters(cast)
  }

  predicate Marked(s: Subnet) {
    s.state.Some? && s.state.value.killed != NotKilled
  }

  // ---------------------------------------------------------------------
  // One vote of a ballot. `all` are the votes cast so far and the new one.

  lemma BallotVote(s: Subnet, ev: Event, all: seq<Event>, cast: seq<Event>, start: nat)
    requires s.state.Some? && WellListed(s, ev)
    requires all == cast + [ev] && Ballot(all, LatestCommittee(s.state.value).validators, start)
    requires FreshVoters(s.kills, [ev], start)
    ensures Apply(s, ev).Ok?
  {
    assert all[|cast|] == ev;
    assert ev in [ev] && ev.msg.key in BallotVoters([ev]);
    VoteAcceptedExactly(s, ev.msg.key, ev.msg.rows, ev.at);
    assert !VotedLately(s.kills, ev.msg.key, start);
    assert start <= ev.at.height;
  }

  lemma BallotGrows(cast: seq<Event>, ev: Event)
    requires ev.msg.KillMsg?
    ensures BallotVoters(cast + [ev]) == BallotVoters(cast) + {ev.msg.key}
  {
    assert ev in cast + [ev];
  }

  lemma StillCast(kills: Kills, kills': Kills, cast: seq<Event>, ev: Event, vs: seq<Validator>, start: nat)
    requires Ballot(cast + [ev], vs, start) && CastIn(kills, cast) && ev.msg.KillMsg?
    requires kills' == kills[(ev.at.height, ev.at.txid) := KillRequest(ev.msg.key, ev.at.height)]
    ensures CastIn(kills', cast + [ev])
  {
    var all := cast + [ev];
    forall e | e in all && e.msg.KillMsg?
      ensures var row := (e.at.height, e.at.txid); row in kills' && kills'[row] == KillRequest(e.msg.key, e.at.height)
    {
      var i :| 0 <= i < |all| && all[i] == e;
      assert all[|cast|] == ev;
      if i < |cast| {
        assert e in cast && e.at != ev.at;
      }
    }
  }

  /** The voters of the window are at least those cast, and no more if nobody else counts. */
  lemma BallotWindow(kills: Kills, cast: seq<Event>, height: nat, vs: seq<Validator>, start: nat)
    requires Ballot(cast, vs, start) && CastIn(kills, cast) && start <= height <= start + 36
    ensures BallotVoters(cast) <= WindowVoters(kills, height)
    ensures OnlyCast(kills, cast, start) ==> WindowVoters(kills, height) == BallotVoters(cast)
  {
    forall k | k in BallotVoters(cast)
      ensures k in WindowVoters(kills, height)
    {
      var ev :| ev in cast && ev.msg.KillMsg? && ev.msg.key == k;
      var i :| 0 <= i < |cast| && cast[i] == ev;
      assert kills[(ev.at.height, ev.at.txid)].blockHeight + 36 >= height;
    }
    if OnlyCast(kills, cast, start) {
      forall k | k in WindowVoters(kills, height)
        ensures k in BallotVoters(cast)
      {
        var row :| row in kills && kills[row].blockHeight + 36 >= height && kills[row].validator == k;
      }
    }
  }

  lemma {:induction false} PowerInMonotone(vs: seq<Validator>, a: set<Key>, b: set<Key>)
    requires a <= b
    ensures PowerIn(vs, a) <= PowerIn(vs, b)
  {
    if vs != [] {
      PowerInMonotone(vs[1..], a, b);
    }
  }

  /** The state of a ballot in progress: `cast` is stored, `evs` are still to come. */
  ghost predicate Balloting(s: Subnet, cast: seq<Event>, evs: seq<Event>, start: nat) {
    && s.state.Some?
    && Ballot(cast + evs, LatestCommittee(s.state.value).validators, start)
    && DistinctValidators(LatestCommittee(s.state.value).validators)
    && CastIn(s.kills, cast)
    && FreshVoters(s.kills, evs, start)
  }

  lemma BallotPrefix(all: seq<Event>, n: nat, vs: seq<Validator>, start: nat)
    requires Ballot(all, vs, start) && n <= |all|
    ensures Ballot(all[..n], vs, start)
  {
  }

  /** One more vote is stored, and the others are still to come. */
  lemma BallotStep(s: Subnet, cast: seq<Event>, evs: seq<Event>, start: nat, now: nat)
    requires Balloting(s, cast, evs, start) && evs != [] && WellListed(s, evs[0])
    requires KillsOk(s.kills, now) && now <= evs[0].at.height
    ensures evs[0].msg.KillMsg? && Apply(s, evs[0]).Ok?
    ensures VoteWritten(s, Step(s, evs[0]), evs[0].msg.key, evs[0].at)
    ensures Balloting(Step(s, evs[0]), cast + [evs[0]], evs[1..], start)
    ensures KillsOk(Step(s, evs[0]).kills, evs[0].at.height)
    ensures LatestCommittee(Step(s, evs[0]).state.value) == LatestCommittee(s.state.value)
  {
    var ev, vs, s' := evs[0], LatestCommittee(s.state.value).validators, Step(s, evs[0]);
    var all := cast + evs;
    assert all[|cast|] == ev && all[..|cast| + 1] == cast + [ev] && (cast + [ev]) + evs[1..] == all;
    BallotPrefix(all, |cast| + 1, vs, start);
    FreshTail(s.kills, evs, start);
    BallotVote(s, ev, cast + [ev], cast, start);
    KillMarksExactly(s, ev.msg.key, ev.msg.rows, ev.at, now);
    KillKeepsRequests(s, ev.msg.key, ev.msg.rows, ev.at, now);
    StillCast(s.kills, s'.kills, cast, ev, vs, start);
    StillFresh(s.kills, s'.kills, cast, evs, vs, start);
  }

  lemma FreshTail(kills: Kills, evs: seq<Event>, start: nat)
    requires FreshVoters(kills, evs, start) && evs != []
    ensures FreshVoters(kills, [evs[0]], start) && FreshVoters(kills, evs[1..], start)
  {
    assert forall ev :: ev in evs[1..] ==> ev in evs;
    assert BallotVoters([evs[0]]) <= BallotVoters(evs) && BallotVoters(evs[1..]) <= BallotVoters(evs);
  }

  lemma StillFresh(kills: Kills, kills': Kills, cast: seq<Event>, evs: seq<Event>, vs: seq<Validator>, start: nat)
    requires evs != [] && evs[0].msg.KillMsg? && Ballot(cast + evs, vs, start) && FreshVoters(kills, evs[1..], start)
    requires kills' == kills[(evs[0].at.height, evs[0].at.txid) := KillRequest(evs[0].msg.key, evs[0].at.height)]
    ensures FreshVoters(kills', evs[1..], start)
  {
    var all := cast + evs;
    forall k | k in BallotVoters(evs[1..])
      ensures !VotedLately(kills', k, start)
    {
      var ev :| ev in evs[1..] && ev.msg.KillMsg? && ev.msg.key == k;
      var i :| 0 <= i < |evs[1..]| && evs[1..][i] == ev;
      assert all[|cast| + 1 + i] == ev && all[|cast|] == evs[0];
      assert k != evs[0].msg.key;
      assert !VotedLately(kills, k, start);
    }
  }

  lemma FirstOfBallot(s: Subnet, cast: seq<Event>, evs: seq<Event>, start: nat)
    requires Balloting(s, cast, evs, start) && evs != []
    ensures Balloting(s, cast, [evs[0]], start)
  {
    assert (cast + evs)[..|cast| + 1] == cast + [evs[0]];
    BallotPrefix(cast + evs, |cast| + 1, LatestCommittee(s.state.value).validators, start);
    FreshTail(s.kills, evs, start);
  }

  /** A quorum among the votes cast has marked the subnet. */
  ghost predicate QuorumMarks(s: Subnet, cast: seq<Event>, vs: seq<Validator>) {
    Quorum(vs, BallotVoters(cast)) ==> Marked(s)
  }

  /** Nobody else's request counts, and nothing short of a quorum has marked the subnet. */
  ghost predicate MarkNeedsQuorum(s: Subnet, cast: seq<Event>, vs: seq<Validator>, start: nat) {
    OnlyCast(s.kills, cast, start) && (Marked(s) ==> Quorum(vs, BallotVoters(cast)))
  }

  lemma BallotMark(s: Subnet, s': Subnet, cast: seq<Event>, ev: Event, start: nat, vs: seq<Validator>)
    requires ev.msg.KillMsg? && Balloting(s, cast, [ev], start) && VoteWritten(s, s', ev.msg.key, ev.at)
    requires vs == LatestCommittee(s.state.value).validators
    ensures QuorumMarks(s', cast + [ev], vs)
    ensures MarkNeedsQuorum(s, cast, vs, start) ==> MarkNeedsQuorum(s', cast + [ev], vs, start)
  {
    var all := cast + [ev];
    assert all[|cast|] == ev && all[..|cast|] == cast;
    BallotPrefix(all, |cast|, vs, start);
    BallotWindow(s.kills, cast, ev.at.height, vs, start);
    BallotGrows(cast, ev);
    PowerInMonotone(vs, BallotVoters(cast), BallotVoters(all));
    PowerInMonotone(vs, BallotVoters(all), WindowVoters(s.kills, ev.at.height) + {ev.msg.key});
  }

  lemma BallotAdvances(s: Subnet, cast: seq<Event>, evs: seq<Event>, start: nat, now: nat, vs: seq<Validator>) returns (s': Subnet)
    requires evs != [] && Balloting(s, cast, evs, start) && OrderedRun(s, evs, now) && KillsOk(s.kills, now)
    requires vs == LatestCommittee(s.state.value).validators
    ensures Run(s, evs) == Run(s', evs[1..])
    ensures Balloting(s', cast + [evs[0]], evs[1..], start)
    ensures OrderedRun(s', evs[1..], evs[0].at.height) && KillsOk(s'.kills, evs[0].at.height)
    ensures vs == LatestCommittee(s'.state.value).validators
    ensures QuorumMarks(s', cast + [evs[0]], vs)
    ensures MarkNeedsQuorum(s, cast, vs, start) ==> MarkNeedsQuorum(s', cast + [evs[0]], vs, start)
  {
    s' := Step(s, evs[0]);
    BallotStep(s, cast, evs, start, now);
    FirstOfBallot(s, cast, evs, start);
    BallotMark(s, s', cast, evs[0], start, vs);
  }

  lemma {:induction false} VotesFrom(s: Subnet, cast: seq<Event>, evs: seq<Event>, start: nat, now: nat, vs: seq<Validator>)
    requires Balloting(s, cast, evs, start) && OrderedRun(s, evs, now) && KillsOk(s.kills, now)
    requires vs == LatestCommittee(s.state.value).validators && QuorumMarks(s, cast, vs)
    ensures QuorumMarks(Run(s, evs), cast + evs, vs)
    ensures MarkNeedsQuorum(s, cast, vs, start) ==> MarkNeedsQuorum(Run(s, evs), cast + evs, vs, start)
    decreases |evs|
  {
    if evs == [] {
      assert cast + evs == cast;
    } else {
      var s' := BallotAdvances(s, cast, evs, start, now, vs);
      VotesFrom(s', cast + [evs[0]], evs[1..], start, evs[0].at.height, vs);
      assert (cast + [evs[0]]) + evs[1..] == cast + evs;
    }
  }

  /**
   Votes that mark. In any reachable state, let different members of the latest
   committee vote one after the other, within 36 blocks of the first vote and without
   an earlier request of theirs that still counts. If the
   voters hold more than two thirds of the power the subnet ends up marked; and if
   nobody else's request counts any more and it was not marked before, it ends up marked
   only then.
   */
  lemma VotesMark(s: Subnet, evs: seq<Event>, start: nat, now: nat)
    requires Core(s, now) && OrderedRun(s, evs, now) && s.state.Some?
    requires Ballot(evs, LatestCommittee(s.state.value).validators, start)
    requires FreshVoters(s.kills, evs, start)
    ensures var vs, s' := LatestCommittee(s.state.value).validators, Run(s, evs);
      && (3 * PowerIn(vs, BallotVoters(evs)) > 2 * Total(vs) ==> Marked(s'))
      && (!Marked(s) && (forall row :: row in s.kills ==> s.kills[row].blockHeight + 36 < start) ==>
            (Marked(s') <==> 3 * PowerIn(vs, BallotVoters(evs)) > 2 * Total(vs)))
  {
    var vs := LatestCommittee(s.state.value).validators;
    assert [] + evs == evs;
    assert DistinctValidators(vs);
    assert Balloting(s, [], evs, start);
    PowerInBounds(vs, {});
    assert BallotVoters([]) == {};
    VotesFrom(s, [], evs, start, now, vs);
  }
}
