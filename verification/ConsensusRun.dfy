/** A height that is decided: whatever the validators' powers and whatever the block, there is a run from
    the initial state, with every validator a correct node, in which every node decides that block. */
module ConsensusRun {
  import opened Options
  import opened VotingPower
  import opened VoteSets
  import opened Consensus
  import opened ConsensusSafety

  // ----- the vote set after the first k votes ---------------------------------------------------

  predicate Enough(powers: seq<nat>, k: nat) {
    k <= |powers| && TotalUpTo(powers, k) >= Quorum(powers)
  }

  /** The validators below `k`. */
  function First(k: nat): (s: set<nat>)
    ensures forall i: nat :: i in s <==> i < k
  {
    if k == 0 then {} else First(k - 1) + {k - 1}
  }

  /** The first `k` validators voted for `b`, in order. */
  function FirstVotes(powers: seq<nat>, b: BlockID, k: nat): (vs: VoteSet)
    requires k <= |powers|
    ensures |vs.votes| == |powers|
  {
    VoteSet(seq(|powers|, i => if i < k then Some(b) else None),
            TotalUpTo(powers, k),
            if Enough(powers, k) then Some(b) else None,
            if k == 0 then map[] else map[b := BlockVotes(false, First(k), TotalUpTo(powers, k))],
            map[])
  }

  lemma FirstVotesStart(powers: seq<nat>, b: BlockID)
    ensures FirstVotes(powers, b, 0) == EmptyVoteSet(|powers|)
  {
    assert FirstVotes(powers, b, 0).votes == EmptyVoteSet(|powers|).votes;
  }

  lemma FirstVotesGrow(powers: seq<nat>, b: BlockID, k: nat)
    requires k < |powers|
    ensures AddVote(powers, FirstVotes(powers, b, k), k, b) == AddResult(FirstVotes(powers, b, k + 1), true, None)
  {
    hide Quorum;
    var vs, vs' := FirstVotes(powers, b, k), FirstVotes(powers, b, k + 1);
    assert First(k) + {k} == First(k + 1);
    assert k == 0 ==> First(k) == {};
    assert vs.votes[k := Some(b)] == vs'.votes;
    assert CopyMajority(vs'.votes, First(k + 1), b) == vs'.votes;
  }

  // ----- the states a node goes through ---------------------------------------------------------

  function Rounds(powers: seq<nat>, pv: VoteSet, pc: VoteSet): HeightVoteSet {
    HeightVoteSet(1, map[0 := RoundVoteSet(pv, pc), 1 := EmptyRound(|powers|)], map[])
  }

  /** A running node of round 0 that has the block `b` complete, with the given votes and lock. */
  function Holding(powers: seq<nat>, b: BlockID, pv: VoteSet, pc: VoteSet, step: nat, locked: bool): RoundState {
    var hash := if locked then b.hash else None;
    var parts := if locked then Some(Parts(b.parts, true)) else None;
    var since := if locked then 0 else -1;
    RoundState(0, step, Some(Proposal(0, -1, b)), b.hash, Some(Parts(b.parts, true)), since, hash, parts, since, hash, parts,
               Rounds(powers, pv, pc), -1, false, {Timeout(0, NEW_HEIGHT), Timeout(0, PROPOSE)}, [], Running)
  }

  function Proposing(powers: seq<nat>): RoundState {
    var none := EmptyVoteSet(|powers|);
    RoundState(0, PROPOSE, None, None, None, -1, None, None, -1, None, None,
               Rounds(powers, none, none), -1, false, {Timeout(0, NEW_HEIGHT), Timeout(0, PROPOSE)}, [], Running)
  }

  function Proposed(powers: seq<nat>, b: BlockID): RoundState {
    Proposing(powers).(proposal := Some(Proposal(0, -1, b)), proposalParts := Some(Parts(b.parts, false)))
  }

  /** After the first `k` prevotes: locked on `b`, with its precommit signed, once they are enough. */
  function Prevoted(powers: seq<nat>, b: BlockID, k: nat): RoundState
    requires k <= |powers|
  {
    var enough := Enough(powers, k);
    Holding(powers, b, FirstVotes(powers, b, k), EmptyVoteSet(|powers|), if enough then PRECOMMIT else PREVOTE, enough)
  }

  /** After the first `k` precommits: decided as soon as they are enough. */
  function Precommitted(powers: seq<nat>, b: BlockID, k: nat): RoundState
    requires k <= |powers| && b.hash.Some?
  {
    if k > 0 && Enough(powers, k - 1) then Precommitted(powers, b, k - 1)
    else
      var rs := Holding(powers, b, FirstVotes(powers, b, |powers|), FirstVotes(powers, b, k), PRECOMMIT, true);
      if Enough(powers, k) then rs.(step := COMMIT, commitRound := 0, status := Decided(b.hash.value)) else rs
  }

  lemma {:induction false} PrecommittedDecides(powers: seq<nat>, b: BlockID, k: nat)
    requires k <= |powers| && b.hash.Some? && Enough(powers, k)
    ensures Precommitted(powers, b, k).status == Decided(b.hash.value) && Precommitted(powers, b, k).out == []
    ensures Sized(|powers|, Precommitted(powers, b, k).votes)
  {
    if k > 0 && Enough(powers, k - 1) {
      PrecommittedDecides(powers, b, k - 1);
    }
  }

  // ----- one node, one event ----------------------------------------------------------------------

  /** Everything the environment answers goes well, and blocks are made without waiting. */
  const FAIR: Env := Env(true, true, true, true, true, false, false, true)

  function Own(kind: Option<VoteKind>, b: BlockID, id: nat): seq<Vote> {
    if kind.None? then [] else [Vote(kind.value, 0, b, id)]
  }

  /** Every node in state `rs` may take action `a`, and it leaves it in `rs'` with that vote signed. */
  ghost predicate Moves(powers: seq<nat>, rs: RoundState, a: Action, log: seq<Vote>, rs': RoundState, kind: Option<VoteKind>, b: BlockID) {
    && rs'.out == []
    && forall id: nat | id < |powers| ::
         && Enabled(Ctx(powers, id), rs, a, log)
         && React(Ctx(powers, id), rs, a, FAIR, log) == rs'.(out := Own(kind, b, id))
  }

  lemma StartMoves(powers: seq<nat>, b: BlockID)
    ensures Moves(powers, NewHeightState(|powers|), Tick(Timeout(0, NEW_HEIGHT)), [], Proposing(powers), None, b)
  {
    var h := SetRound(|powers|, NewHeightVoteSet(|powers|), 1);
    assert h == Rounds(powers, EmptyVoteSet(|powers|), EmptyVoteSet(|powers|)) by {
      assert h.sets == map[0 := EmptyRound(|powers|), 1 := EmptyRound(|powers|)];
    }
  }

  lemma ProposalMoves(powers: seq<nat>, b: BlockID, log: seq<Vote>)
    ensures Moves(powers, Proposing(powers), DeliverProposal(Proposal(0, -1, b)), log, Proposed(powers, b), None, b)
  {
  }

  lemma BlockMoves(powers: seq<nat>, b: BlockID, log: seq<Vote>)
    requires b.hash.Some? && Total(powers) > 0
    ensures Moves(powers, Proposed(powers, b), DeliverPart(LastPart(b.hash.value)), log, Prevoted(powers, b, 0), Some(Prevote), b)
  {
    FirstVotesStart(powers, b);
  }

  /** The vote of validator `k` reaches the vote set of its kind. */
  lemma VoteCounted(powers: seq<nat>, b: BlockID, k: nat, kind: VoteKind, other: VoteSet, peer: Peer)
    requires k < |powers| == |other.votes|
    ensures var was, now := FirstVotes(powers, b, k), FirstVotes(powers, b, k + 1);
            var h := if kind == Prevote then Rounds(powers, was, other) else Rounds(powers, other, was);
            var h' := if kind == Prevote then Rounds(powers, now, other) else Rounds(powers, other, now);
            Sized(|powers|, h) && AddHeightVote(powers, h, Vote(kind, 0, b, k), peer) == HeightAddResult(h', true)
  {
    hide AddVote;
    FirstVotesGrow(powers, b, k);
    var was, now := FirstVotes(powers, b, k), FirstVotes(powers, b, k + 1);
    var h := if kind == Prevote then Rounds(powers, was, other) else Rounds(powers, other, was);
    var h' := if kind == Prevote then Rounds(powers, now, other) else Rounds(powers, other, now);
    assert Put(h, kind, 0, now) == h';
  }

  lemma PrevoteMoves(powers: seq<nat>, b: BlockID, k: nat, peer: Peer, log: seq<Vote>)
    requires b.hash.Some? && k < |powers| && Vote(Prevote, 0, b, k) in log
    ensures var first := !Enough(powers, k) && Enough(powers, k + 1);
            Moves(powers, Prevoted(powers, b, k), DeliverVote(Vote(Prevote, 0, b, k), peer), log, Prevoted(powers, b, k + 1),
                  if first then Some(Precommit) else None, b)
  {
    hide AfterPrevote, AddHeightVote, FirstVotes, Enough, Sized;
    var none := EmptyVoteSet(|powers|);
    VoteCounted(powers, b, k, Prevote, none, peer);
    AfterPrevoteMoves(powers, b, k, Prevoted(powers, b, k).(votes := Rounds(powers, FirstVotes(powers, b, k + 1), none)));
  }

  lemma AfterPrevoteMoves(powers: seq<nat>, b: BlockID, k: nat, mid: RoundState)
    requires b.hash.Some? && k < |powers|
    requires mid == Prevoted(powers, b, k).(votes := Rounds(powers, FirstVotes(powers, b, k + 1), EmptyVoteSet(|powers|)))
    ensures var first := !Enough(powers, k) && Enough(powers, k + 1);
            forall id: nat | id < |powers| ::
              AfterPrevote(Ctx(powers, id), mid, 0, FAIR)
              == Prevoted(powers, b, k + 1).(out := Own(if first then Some(Precommit) else None, b, id))
  {
    var maj := Majority(mid.votes, Prevote, 0);
    assert maj == if Enough(powers, k + 1) then Some(b) else None;
    assert TwoThirdsAny(powers, mid.votes, Prevote, 0) == Enough(powers, k + 1);
    assert Majority(mid.votes, Prevote, 1).None?;
    assert PolRound(mid.votes, 1) == if maj.Some? then 0 else -1;
  }

  lemma PrecommitMoves(powers: seq<nat>, b: BlockID, k: nat, peer: Peer, log: seq<Vote>)
    requires b.hash.Some? && k < |powers| && Vote(Precommit, 0, b, k) in log && Enough(powers, |powers|)
    ensures Moves(powers, Precommitted(powers, b, k), DeliverVote(Vote(Precommit, 0, b, k), peer), log,
                  Precommitted(powers, b, k + 1), None, b)
  {
    hide AfterPrecommit, AddHeightVote, FirstVotes, Sized;
    if Enough(powers, k) {
      PrecommittedDecides(powers, b, k);
    } else {
      var all := FirstVotes(powers, b, |powers|);
      VoteCounted(powers, b, k, Precommit, all, peer);
      AfterPrecommitMoves(powers, b, k, Precommitted(powers, b, k).(votes := Rounds(powers, all, FirstVotes(powers, b, k + 1))));
    }
  }

  lemma AfterPrecommitMoves(powers: seq<nat>, b: BlockID, k: nat, mid: RoundState)
    requires b.hash.Some? && k < |powers| && !Enough(powers, k) && Enough(powers, |powers|)
    requires mid == Precommitted(powers, b, k).(votes := Rounds(powers, FirstVotes(powers, b, |powers|), FirstVotes(powers, b, k + 1)))
    ensures forall id: nat | id < |powers| ::
              AfterPrecommit(Ctx(powers, id), mid, 0, FAIR) == Precommitted(powers, b, k + 1)
  {
    assert Majority(mid.votes, Precommit, 0) == if Enough(powers, k + 1) then Some(b) else None;
    assert TwoThirdsAny(powers, mid.votes, Precommit, 0) == Enough(powers, k + 1);
  }

  // ----- every node, one after another -----------------------------------------------------------

  function Nodes(n: nat, done: nat, rs: RoundState, rs': RoundState): map<nat, RoundState> {
    map id <- First(n) :: if id < done then rs' else rs
  }

  /** A run of the height with every validator a correct node, and where it has come to. */
  ghost predicate RunTo(powers: seq<nat>, tr: seq<Network>, evs: seq<Event>, s: Network) {
    |tr| == |evs| + 1 && Run(powers, tr, evs) && tr[|evs|] == s && s.nodes.Keys == First(|powers|)
  }

  lemma Extend(powers: seq<nat>, tr: seq<Network>, evs: seq<Event>, s: Network, ev: Event, s': Network)
    requires RunTo(powers, tr, evs, s) && Step(powers, s, ev, s') && s'.nodes.Keys == s.nodes.Keys
    ensures RunTo(powers, tr + [s'], evs + [ev], s')
  {
    hide Init, Step;
    var tr', evs' := tr + [s'], evs + [ev];
    forall i | 0 <= i < |evs'| ensures Step(powers, tr'[i], evs'[i], tr'[i + 1]) {
      if i < |evs| {
        assert Step(powers, tr[i], evs[i], tr[i + 1]);
      }
    }
  }

  /** When every node in a state may take an action, a run that has all nodes there goes on until all of
      them have taken it, and their votes are in the log. */
  lemma {:induction false} EveryNode(powers: seq<nat>, tr: seq<Network>, evs: seq<Event>, rs: RoundState, a: Action, log: seq<Vote>,
                                     rs': RoundState, kind: Option<VoteKind>, b: BlockID, done: nat)
    returns (tr': seq<Network>, evs': seq<Event>, log': seq<Vote>)
    requires done <= |powers|
    requires Moves(powers, rs, a, log, rs', kind, b)
    requires RunTo(powers, tr, evs, Network(Nodes(|powers|, 0, rs, rs'), log))
    ensures RunTo(powers, tr', evs', Network(Nodes(|powers|, done, rs, rs'), log'))
    ensures log <= log'
    ensures kind.Some? ==> forall id: nat :: id < done ==> Vote(kind.value, 0, b, id) in log'
  {
    hide Moves, Step, Run, Nodes, React, Enabled;
    if done == 0 {
      tr', evs', log' := tr, evs, log;
    } else {
      tr', evs', log' := EveryNode(powers, tr, evs, rs, a, log, rs', kind, b, done - 1);
      var s := Network(Nodes(|powers|, done - 1, rs, rs'), log');
      var ev := NodeStep(done - 1, a, FAIR);
      var s' := Network(Nodes(|powers|, done, rs, rs'), log' + Own(kind, b, done - 1));
      OneNode(powers, s, rs, a, log, rs', kind, b, done - 1);
      NodesKeys(|powers|, done, rs, rs');
      Extend(powers, tr', evs', s, ev, s');
      tr', evs', log' := tr' + [s'], evs' + [ev], s'.log;
    }
  }

  lemma OneNode(powers: seq<nat>, s: Network, rs: RoundState, a: Action, log: seq<Vote>, rs': RoundState,
                kind: Option<VoteKind>, b: BlockID, id: nat)
    requires id < |powers| && log <= s.log && Moves(powers, rs, a, log, rs', kind, b)
    requires s.nodes == Nodes(|powers|, id, rs, rs')
    ensures Step(powers, s, NodeStep(id, a, FAIR), Network(Nodes(|powers|, id + 1, rs, rs'), s.log + Own(kind, b, id)))
  {
    hide HandleVote, HandleInvalidVote, HandleTimeout, HandleTxsAvailable, HandleProposal, HandlePart, HandlePeerMaj23;
    assert s.nodes[id := rs'] == Nodes(|powers|, id + 1, rs, rs');
  }

  lemma NodesKeys(n: nat, done: nat, rs: RoundState, rs': RoundState)
    ensures Nodes(n, done, rs, rs').Keys == First(n)
  {
  }

  lemma AllMoved(n: nat, rs: RoundState, rs': RoundState, next: RoundState)
    ensures Nodes(n, n, rs, rs') == Nodes(n, 0, rs', next)
  {
  }

  // ----- the run ----------------------------------------------------------------------------------

  /** Every node has the block and has prevoted it. */
  lemma ToPrevotes(powers: seq<nat>, b: BlockID) returns (tr: seq<Network>, evs: seq<Event>, log: seq<Vote>)
    requires b.hash.Some? && Total(powers) > 0
    ensures RunTo(powers, tr, evs, Network(Nodes(|powers|, 0, Prevoted(powers, b, 0), Prevoted(powers, b, 0)), log))
    ensures forall id: nat :: id < |powers| ==> Vote(Prevote, 0, b, id) in log
  {
    hide Moves, Step, NewHeightState, Proposing, Proposed, Prevoted;
    var n := |powers|;
    var rs0, rs1, rs2, rs3 := NewHeightState(n), Proposing(powers), Proposed(powers, b), Prevoted(powers, b, 0);
    tr, evs, log := [Network(Nodes(n, 0, rs0, rs1), [])], [], [];
    StartMoves(powers, b);
    tr, evs, log := EveryNode(powers, tr, evs, rs0, Tick(Timeout(0, NEW_HEIGHT)), log, rs1, None, b, n);
    AllMoved(n, rs0, rs1, rs2);
    ProposalMoves(powers, b, log);
    tr, evs, log := EveryNode(powers, tr, evs, rs1, DeliverProposal(Proposal(0, -1, b)), log, rs2, None, b, n);
    AllMoved(n, rs1, rs2, rs3);
    BlockMoves(powers, b, log);
    tr, evs, log := EveryNode(powers, tr, evs, rs2, DeliverPart(LastPart(b.hash.value)), log, rs3, Some(Prevote), b, n);
    AllMoved(n, rs2, rs3, rs3);
  }

  /** Every node has the first `k` prevotes, and has precommitted once they are enough. */
  lemma {:induction false} ToPrecommits(powers: seq<nat>, b: BlockID, peer: Peer, k: nat)
    returns (tr: seq<Network>, evs: seq<Event>, log: seq<Vote>)
    requires b.hash.Some? && Total(powers) > 0 && k <= |powers|
    ensures RunTo(powers, tr, evs, Network(Nodes(|powers|, 0, Prevoted(powers, b, k), Prevoted(powers, b, k)), log))
    ensures forall id: nat :: id < |powers| ==> Vote(Prevote, 0, b, id) in log
    ensures Enough(powers, k) ==> forall id: nat :: id < |powers| ==> Vote(Precommit, 0, b, id) in log
  {
    hide Moves, Step, Prevoted, RunTo;
    if k == 0 {
      tr, evs, log := ToPrevotes(powers, b);
    } else {
      tr, evs, log := ToPrecommits(powers, b, peer, k - 1);
      var n, rs, rs', before := |powers|, Prevoted(powers, b, k - 1), Prevoted(powers, b, k), log;
      var kind := if !Enough(powers, k - 1) && Enough(powers, k) then Some(Precommit) else None;
      PrevoteMoves(powers, b, k - 1, peer, log);
      assert Nodes(n, 0, rs, rs) == Nodes(n, 0, rs, rs');
      tr, evs, log := EveryNode(powers, tr, evs, rs, DeliverVote(Vote(Prevote, 0, b, k - 1), peer), log, rs', kind, b, n);
      AllMoved(n, rs, rs', rs');
      assert forall v <- before :: v in log;
    }
  }

  /** Every node has the first `k` precommits, and has decided once they are enough. */
  lemma {:induction false} ToDecision(powers: seq<nat>, b: BlockID, peer: Peer, k: nat)
    returns (tr: seq<Network>, evs: seq<Event>, log: seq<Vote>)
    requires b.hash.Some? && Total(powers) > 0 && k <= |powers|
    ensures RunTo(powers, tr, evs, Network(Nodes(|powers|, 0, Precommitted(powers, b, k), Precommitted(powers, b, k)), log))
    ensures forall id: nat :: id < |powers| ==> Vote(Precommit, 0, b, id) in log
  {
    hide Moves, Step, RunTo, Holding, FirstVotes;
    var n := |powers|;
    if k == 0 {
      tr, evs, log := ToPrecommits(powers, b, peer, n);
      FirstVotesStart(powers, b);
    } else {
      tr, evs, log := ToDecision(powers, b, peer, k - 1);
      var rs, rs', before := Precommitted(powers, b, k - 1), Precommitted(powers, b, k), log;
      PrecommitMoves(powers, b, k - 1, peer, log);
      assert Nodes(n, 0, rs, rs) == Nodes(n, 0, rs, rs');
      tr, evs, log := EveryNode(powers, tr, evs, rs, DeliverVote(Vote(Precommit, 0, b, k - 1), peer), log, rs', None, b, n);
      AllMoved(n, rs, rs', rs');
      assert forall v <- before :: v in log;
    }
  }

  /** Any block can be decided by any validators of some power: there is a run from the start, every
      validator a correct node, at whose end every one of them has decided it. */
  lemma AnyBlockCanBeDecided(powers: seq<nat>, b: BlockID, peer: Peer) returns (tr: seq<Network>, evs: seq<Event>)
    requires b.hash.Some? && Total(powers) > 0
    ensures |tr| == |evs| + 1 && Run(powers, tr, evs) && Faulty(powers, tr[0]) == {}
    ensures forall id: nat :: id < |powers| ==> id in tr[|evs|].nodes && tr[|evs|].nodes[id].status == Decided(b.hash.value)
  {
    hide Step, Init, Run, NetworkInv, Precommitted;
    var log;
    tr, evs, log := ToDecision(powers, b, peer, |powers|);
    PrecommittedDecides(powers, b, |powers|);
    RunInvariant(powers, tr, evs, |evs|);
  }
}
