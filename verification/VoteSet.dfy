/** The vote collection of one height: `VoteSet` (one round and type) and `HeightVoteSet`
    (all rounds).  A vote set is modelled on values: `votes[i]` is the block validator `i`'s
    canonical vote names, and `byBlock` holds the voters and the tally tracked per block. */
module VoteSets {
  import opened Options
  import opened VotingPower

  type Hash = nat
  type Peer = nat
  datatype PartSetHeader = PartSetHeader(total: nat, hash: Option<Hash>)
  /** A vote for nil names a block with no hash. */
  datatype BlockID = BlockID(hash: Option<Hash>, parts: PartSetHeader)
  datatype VoteKind = Prevote | Precommit
  datatype Vote = Vote(kind: VoteKind, round: nat, block: BlockID, validator: nat)

  const NO_PARTS := PartSetHeader(0, None)
  const NIL_BLOCK := BlockID(None, NO_PARTS)

  datatype BlockVotes = BlockVotes(peerMaj23: bool, voters: set<nat>, sum: nat)

  datatype VoteSet = VoteSet(
    votes: seq<Option<BlockID>>,
    sum: nat,
    maj23: Option<BlockID>,
    byBlock: map<BlockID, BlockVotes>,
    peerMaj23s: map<Peer, BlockID>)

  datatype AddResult = AddResult(set': VoteSet, added: bool, conflicting: Option<BlockID>)

  function EmptyVoteSet(size: nat): VoteSet {
    VoteSet(seq(size, i => None), 0, None, map[], map[])
  }

  function Voted(vs: VoteSet): set<nat> {
    set i: nat | i < |vs.votes| && vs.votes[i].Some?
  }

  /** The validators whose canonical vote is for `b`: what `MakeCommit` writes down for it. */
  function CanonicalVoters(vs: VoteSet, b: BlockID): set<nat> {
    set i: nat | i < |vs.votes| && vs.votes[i] == Some(b)
  }

  predicate HasVote(vs: VoteSet, v: nat, b: BlockID) {
    || (v < |vs.votes| && vs.votes[v] == Some(b))
    || (b in vs.byBlock && v in vs.byBlock[b].voters)
  }

  /** What holds of every vote set built by `AddVote` and `SetPeerMaj23`. */
  ghost predicate Valid(powers: seq<nat>, vs: VoteSet) {
    && |vs.votes| == |powers|
    && vs.sum == Tally(powers, Voted(vs))
    && (forall b <- vs.byBlock ::
          && vs.byBlock[b].sum == Tally(powers, vs.byBlock[b].voters)
          && forall v <- vs.byBlock[b].voters :: v < |powers| && vs.votes[v].Some?)
    && (forall i: nat :: i < |powers| && vs.votes[i].Some? ==> CanonicalTracked(vs, i))
    && (vs.maj23.None? ==> forall b <- vs.byBlock :: vs.byBlock[b].sum < Quorum(powers))
    && (vs.maj23.Some? ==>
          && vs.maj23.value in vs.byBlock
          && vs.byBlock[vs.maj23.value].sum >= Quorum(powers)
          && forall v <- vs.byBlock[vs.maj23.value].voters :: v < |powers| && vs.votes[v] == vs.maj23)
  }

  /** A canonical vote is tracked for its block, or is for the majority block. */
  ghost predicate CanonicalTracked(vs: VoteSet, i: nat)
    requires i < |vs.votes| && vs.votes[i].Some?
  {
    var b := vs.votes[i].value;
    b in vs.byBlock && (i in vs.byBlock[b].voters || vs.maj23 == Some(b))
  }

  // ----- AddVote ---------------------------------------------------------------------------

  function RecordCanonical(powers: seq<nat>, vs: VoteSet, v: nat, b: BlockID): VoteSet
    requires v < |vs.votes| == |powers|
  {
    if vs.votes[v].None? then
      vs.(votes := vs.votes[v := Some(b)], sum := vs.sum + powers[v])
    else if vs.maj23 == Some(b) then
      vs.(votes := vs.votes[v := Some(b)])
    else
      vs
  }

  function CopyMajority(votes: seq<Option<BlockID>>, voters: set<nat>, b: BlockID): seq<Option<BlockID>> {
    seq(|votes|, i requires 0 <= i < |votes| => if i in voters then Some(b) else votes[i])
  }

  function RecordByBlock(powers: seq<nat>, vs: VoteSet, v: nat, b: BlockID): VoteSet
    requires v < |vs.votes| == |powers|
  {
    var was := if b in vs.byBlock then vs.byBlock[b] else BlockVotes(false, {}, 0);
    var new' := if v in was.voters then was
                else BlockVotes(was.peerMaj23, was.voters + {v}, was.sum + powers[v]);
    var tracked := vs.(byBlock := vs.byBlock[b := new']);
    if was.sum < Quorum(powers) <= new'.sum && vs.maj23.None? then
      tracked.(maj23 := Some(b), votes := CopyMajority(vs.votes, new'.voters, b))
    else
      tracked
  }

  /** `addVote` for a vote whose signature, index and address have been checked. */
  function AddVote(powers: seq<nat>, vs: VoteSet, v: nat, b: BlockID): AddResult
    requires v < |vs.votes| == |powers|
  {
    if HasVote(vs, v, b) then
      AddResult(vs, false, None)
    else
      var conflicting := vs.votes[v];
      var vs1 := RecordCanonical(powers, vs, v, b);
      if conflicting.Some? && (b !in vs.byBlock || !vs.byBlock[b].peerMaj23) then
        AddResult(vs1, false, conflicting)
      else
        AddResult(RecordByBlock(powers, vs1, v, b), true, conflicting)
  }

  function SetPeerMaj23(vs: VoteSet, peer: Peer, b: BlockID): VoteSet {
    if peer in vs.peerMaj23s then vs
    else
      var was := if b in vs.byBlock then vs.byBlock[b] else BlockVotes(true, {}, 0);
      vs.(peerMaj23s := vs.peerMaj23s[peer := b], byBlock := vs.byBlock[b := was.(peerMaj23 := true)])
  }

  function HasTwoThirdsAny(powers: seq<nat>, vs: VoteSet): bool {
    vs.sum > Total(powers) * 2 / 3
  }

  lemma EmptyIsValid(powers: seq<nat>)
    ensures Valid(powers, EmptyVoteSet(|powers|))
  {
    EmptyTally(powers, Voted(EmptyVoteSet(|powers|)), |powers|);
  }

  lemma RecordCanonicalKeeps(powers: seq<nat>, vs: VoteSet, v: nat, b: BlockID)
    requires Valid(powers, vs) && v < |powers| && !HasVote(vs, v, b)
    ensures var vs1 := RecordCanonical(powers, vs, v, b);
            && vs1.sum == Tally(powers, Voted(vs1))
            && (vs.votes[v].Some? ==> Valid(powers, vs1))
  {
    var vs1 := RecordCanonical(powers, vs, v, b);
    if vs.votes[v].None? {
      TallyInsert(powers, Voted(vs), v, |powers|);
      assert Voted(vs1) == Voted(vs) + {v};
    } else {
      assert Voted(vs1) == Voted(vs);
      forall i: nat | i < |powers| && vs1.votes[i].Some? ensures CanonicalTracked(vs1, i) {
        if i != v || vs.maj23 != Some(b) {
          assert CanonicalTracked(vs, i);
        }
      }
    }
  }

  /** Every vote set a node can build satisfies the documented bookkeeping; in particular a
      reported majority is a quorum of distinct validators, and no quorum goes unreported. */
  lemma AddVoteKeepsValid(powers: seq<nat>, vs: VoteSet, v: nat, b: BlockID)
    requires Valid(powers, vs) && v < |powers|
    ensures Valid(powers, AddVote(powers, vs, v, b).set')
  {
    if !HasVote(vs, v, b) {
      RecordCanonicalKeeps(powers, vs, v, b);
      var vs1 := RecordCanonical(powers, vs, v, b);
      var r := AddVote(powers, vs, v, b);
      if r.added {
        var was := if b in vs.byBlock then vs.byBlock[b] else BlockVotes(false, {}, 0);
        if b !in vs.byBlock {
          EmptyTally(powers, {}, |powers|);
        }
        TallyInsert(powers, was.voters, v, |powers|);
        RecordByBlockKeeps(powers, vs, vs1, v, b);
      }
    }
  }

  lemma RecordByBlockKeeps(powers: seq<nat>, vs: VoteSet, vs1: VoteSet, v: nat, b: BlockID)
    requires Valid(powers, vs) && v < |powers| && !HasVote(vs, v, b)
    requires vs1 == RecordCanonical(powers, vs, v, b) && vs1.sum == Tally(powers, Voted(vs1))
    requires var was := if b in vs.byBlock then vs.byBlock[b] else BlockVotes(false, {}, 0);
             && was.sum == Tally(powers, was.voters)
             && Tally(powers, was.voters + {v}) == was.sum + powers[v]
    ensures Valid(powers, RecordByBlock(powers, vs1, v, b))
  {
    hide TallyUpTo, TotalUpTo;
    var vs2 := RecordByBlock(powers, vs1, v, b);
    assert vs1.byBlock == vs.byBlock && vs1.maj23 == vs.maj23;
    var was := if b in vs.byBlock then vs.byBlock[b] else BlockVotes(false, {}, 0);
    assert vs2.byBlock[b].voters == was.voters + {v};
    forall i: nat | i < |powers| && vs2.votes[i].Some? ensures CanonicalTracked(vs2, i) {
      if i != v && vs2.votes[i] == vs.votes[i] {
        assert CanonicalTracked(vs, i);
      }
    }
    assert Voted(vs2) == Voted(vs1);
  }

  lemma SetPeerMaj23KeepsValid(powers: seq<nat>, vs: VoteSet, peer: Peer, b: BlockID)
    requires Valid(powers, vs)
    ensures Valid(powers, SetPeerMaj23(vs, peer, b))
  {
    EmptyTally(powers, {}, |powers|);
    var vs1 := SetPeerMaj23(vs, peer, b);
    assert Voted(vs1) == Voted(vs);
    forall i: nat | i < |powers| && vs1.votes[i].Some? ensures CanonicalTracked(vs1, i) {
      assert CanonicalTracked(vs, i);
    }
  }

  function VotersOf(vs: VoteSet, b: BlockID): set<nat> {
    if b in vs.byBlock then vs.byBlock[b].voters else {}
  }

  /** A vote is added exactly when it is new and its validator has not voted otherwise, unless a peer
      claims a majority for its block; it then counts for that block, and for no other. A validator's
      earlier vote is reported exactly with a vote that is not a repeat. */
  lemma AddVoteExactly(powers: seq<nat>, vs: VoteSet, v: nat, b: BlockID, x: BlockID)
    requires v < |vs.votes| == |powers|
    ensures var r := AddVote(powers, vs, v, b);
            var repeat := vs.votes[v] == Some(b) || v in VotersOf(vs, b);
            var claimed := b in vs.byBlock && vs.byBlock[b].peerMaj23;
            && (r.added <==> !repeat && (vs.votes[v].None? || claimed))
            && r.conflicting == (if repeat then None else vs.votes[v])
            && (repeat ==> r.set' == vs)
            && VotersOf(r.set', x) == VotersOf(vs, x) + (if r.added && x == b then {v} else {})
            && r.set'.peerMaj23s == vs.peerMaj23s
            && (x in vs.byBlock ==> x in r.set'.byBlock && r.set'.byBlock[x].peerMaj23 == vs.byBlock[x].peerMaj23)
  {
    hide TallyUpTo, TotalUpTo;
  }

  /** The voting power seen grows by the voter's exactly, and a first vote is the canonical one. */
  lemma VoterSeen(powers: seq<nat>, vs: VoteSet, v: nat, b: BlockID)
    requires Valid(powers, vs) && v < |powers|
    ensures var vs' := AddVote(powers, vs, v, b).set';
            vs'.sum == Tally(powers, Voted(vs) + {v}) && (vs.votes[v].None? ==> vs'.votes[v] == Some(b))
  {
    hide AddVote, TallyUpTo, TotalUpTo;
    AddVoteKeepsValid(powers, vs, v, b);
    VotedGrows(powers, vs, v, b);
  }

  lemma VotedGrows(powers: seq<nat>, vs: VoteSet, v: nat, b: BlockID)
    requires Valid(powers, vs) && v < |powers|
    ensures var vs' := AddVote(powers, vs, v, b).set';
            Voted(vs') == Voted(vs) + {v} && (vs.votes[v].None? ==> vs'.votes[v] == Some(b))
  {
    hide Tally, Quorum, CanonicalTracked;
    assert v in VotersOf(vs, b) ==> vs.votes[v].Some?;
    assert forall i <- VotersOf(vs, b) :: i < |powers| && vs.votes[i].Some?;
  }

  /** A peer's first claim marks its block; a second changes nothing. */
  lemma ClaimExactly(vs: VoteSet, peer: Peer, b: BlockID, x: BlockID)
    ensures var vs' := SetPeerMaj23(vs, peer, b);
            && (peer in vs.peerMaj23s ==> vs' == vs)
            && (peer !in vs.peerMaj23s ==> peer in vs'.peerMaj23s && vs'.peerMaj23s[peer] == b && b in vs'.byBlock && vs'.byBlock[b].peerMaj23)
            && VotersOf(vs', x) == VotersOf(vs, x) && vs'.votes == vs.votes && vs'.maj23 == vs.maj23 && vs'.sum == vs.sum
            && (x != b ==> (x in vs'.byBlock <==> x in vs.byBlock) && (x in vs.byBlock ==> vs'.byBlock[x] == vs.byBlock[x]))
  {
  }

  /** The first majority seen stays the reported majority. */
  lemma MajorityIsFinal(powers: seq<nat>, vs: VoteSet, v: nat, b: BlockID)
    requires Valid(powers, vs) && v < |powers| && vs.maj23.Some?
    ensures AddVote(powers, vs, v, b).set'.maj23 == vs.maj23
  {
  }

  /** `MakeCommit` of a vote set with a majority carries more than two thirds for that block. */
  lemma CommitCarriesQuorum(powers: seq<nat>, vs: VoteSet)
    requires Valid(powers, vs) && vs.maj23.Some?
    ensures Tally(powers, CanonicalVoters(vs, vs.maj23.value)) > Total(powers) * 2 / 3
  {
    TallyMonotone(powers, vs.byBlock[vs.maj23.value].voters, CanonicalVoters(vs, vs.maj23.value), |powers|);
  }

  // ----- "all votes in .votes have an entry in .votesByBlock" ----------------------------------

  ghost predicate FullyTracked(vs: VoteSet) {
    forall i: nat :: i < |vs.votes| && vs.votes[i].Some? ==>
      vs.votes[i].value in vs.byBlock && i in vs.byBlock[vs.votes[i].value].voters
  }

  /** A second, conflicting vote of `v` for the majority block that no peer claimed. */
  predicate LateMajorityVote(vs: VoteSet, v: nat, b: BlockID)
    requires v < |vs.votes|
  {
    && !HasVote(vs, v, b) && vs.votes[v].Some?
    && vs.maj23 == Some(b) && b in vs.byBlock && !vs.byBlock[b].peerMaj23
  }

  /** The documented claim is kept by `AddVote` exactly when the vote is not such a late vote. */
  lemma TrackingKeptExactlyWhen(powers: seq<nat>, vs: VoteSet, v: nat, b: BlockID)
    requires Valid(powers, vs) && FullyTracked(vs) && v < |powers|
    ensures FullyTracked(AddVote(powers, vs, v, b).set') <==> !LateMajorityVote(vs, v, b)
  {
    var vs' := AddVote(powers, vs, v, b).set';
    if LateMajorityVote(vs, v, b) {
      assert vs'.votes[v] == Some(b) && v !in vs'.byBlock[b].voters;
    } else {
      forall i: nat | i < |vs'.votes| && vs'.votes[i].Some?
        ensures vs'.votes[i].value in vs'.byBlock && i in vs'.byBlock[vs'.votes[i].value].voters
      {
        assert i != v ==> i < |vs.votes|;
      }
    }
  }

  /** Four equal validators: 0 votes for `a`, the others give `b` the majority, then 0 votes for `b`. */
  lemma TrackingCanBeLost(a: BlockID, b: BlockID)
    requires a != b
    ensures var powers := [1, 1, 1, 1];
            var vs1 := AddVote(powers, EmptyVoteSet(4), 0, a).set';
            var vs2 := AddVote(powers, AddVote(powers, vs1, 1, b).set', 2, b).set';
            var vs3 := AddVote(powers, vs2, 3, b).set';
            vs3.maj23 == Some(b) && FullyTracked(vs3) && !FullyTracked(AddVote(powers, vs3, 0, b).set')
  {
    var powers: seq<nat> := [1, 1, 1, 1];
    assert TotalUpTo(powers, 2) == 2;
    assert Total(powers) == 4;
    assert Quorum(powers) == 3;
    var vs1 := AddVote(powers, EmptyVoteSet(4), 0, a).set';
    var vs2 := AddVote(powers, AddVote(powers, vs1, 1, b).set', 2, b).set';
    assert vs2.byBlock[b] == BlockVotes(false, {1, 2}, 2);
    var vs3 := AddVote(powers, vs2, 3, b).set';
    assert vs3.byBlock[b] == BlockVotes(false, {1, 2, 3}, 3);
    assert vs3.votes == [Some(a), Some(b), Some(b), Some(b)];
    assert AddVote(powers, vs3, 0, b).set'.votes[0] == Some(b);
  }

  // ----- HeightVoteSet -------------------------------------------------------------------------

  datatype RoundVoteSet = RoundVoteSet(prevotes: VoteSet, precommits: VoteSet)
  datatype HeightVoteSet = HeightVoteSet(
    round: nat,
    sets: map<nat, RoundVoteSet>,
    catchup: map<Peer, seq<nat>>)
  datatype HeightAddResult = HeightAddResult(votes: HeightVoteSet, added: bool)

  function EmptyRound(size: nat): RoundVoteSet {
    RoundVoteSet(EmptyVoteSet(size), EmptyVoteSet(size))
  }

  function NewHeightVoteSet(size: nat): HeightVoteSet {
    HeightVoteSet(0, map[0 := EmptyRound(size)], map[])
  }

  /** Add the rounds `lo..hi` that are not tracked yet. */
  function AddRounds(size: nat, sets: map<nat, RoundVoteSet>, lo: nat, hi: nat): (s: map<nat, RoundVoteSet>)
    ensures forall r <- sets :: r in s && s[r] == sets[r]
    ensures forall r <- s :: r in sets || (lo <= r <= hi && s[r] == EmptyRound(size))
    ensures forall r: nat :: lo <= r <= hi ==> r in s
    decreases hi + 1 - lo
  {
    if lo > hi then sets
    else AddRounds(size, if lo in sets then sets else sets[lo := EmptyRound(size)], lo + 1, hi)
  }

  function SetRound(size: nat, h: HeightVoteSet, round: nat): HeightVoteSet {
    h.(round := round, sets := AddRounds(size, h.sets, h.round + 1, round))
  }

  predicate SetRoundPanics(h: HeightVoteSet, round: nat) {
    h.round != 0 && round < h.round + 1
  }

  /** The vote set of a round, or nothing for a round never tracked. */
  function Get(h: HeightVoteSet, kind: VoteKind, round: nat): Option<VoteSet> {
    if round !in h.sets then None
    else Some(if kind == Prevote then h.sets[round].prevotes else h.sets[round].precommits)
  }

  function Put(h: HeightVoteSet, kind: VoteKind, round: nat, vs: VoteSet): HeightVoteSet
    requires round in h.sets
  {
    var rvs := h.sets[round];
    h.(sets := h.sets[round := if kind == Prevote then rvs.(prevotes := vs) else rvs.(precommits := vs)])
  }

  /** `TwoThirdsMajority` of a possibly missing vote set. */
  function Majority(h: HeightVoteSet, kind: VoteKind, round: nat): Option<BlockID> {
    match Get(h, kind, round)
    case None => None
    case Some(vs) => vs.maj23
  }

  function TwoThirdsAny(powers: seq<nat>, h: HeightVoteSet, kind: VoteKind, round: nat): bool {
    match Get(h, kind, round)
    case None => false
    case Some(vs) => HasTwoThirdsAny(powers, vs)
  }

  /** The last round at or below `r` with a prevote majority, or -1 (`POLInfo` from `h.round`). */
  function PolRound(h: HeightVoteSet, r: nat): int {
    if Majority(h, Prevote, r).Some? then r
    else if r == 0 then -1
    else PolRound(h, r - 1)
  }

  /** Track `vote.round` for this peer if it has not used its two catch-up rounds. */
  function TrackRound(size: nat, h: HeightVoteSet, round: nat, peer: Peer): Option<HeightVoteSet> {
    if round in h.sets then Some(h)
    else
      var used := if peer in h.catchup then h.catchup[peer] else [];
      if |used| < 2 then
        Some(h.(sets := h.sets[round := EmptyRound(size)], catchup := h.catchup[peer := used + [round]]))
      else
        None
  }

  ghost predicate ValidHeight(powers: seq<nat>, h: HeightVoteSet) {
    forall r <- h.sets :: Valid(powers, h.sets[r].prevotes) && Valid(powers, h.sets[r].precommits)
  }

  /** Every vote set has one slot per validator. */
  predicate Sized(size: nat, h: HeightVoteSet) {
    forall r <- h.sets :: |h.sets[r].prevotes.votes| == |h.sets[r].precommits.votes| == size
  }

  /** A vote its vote set refuses (unknown validator, bad signature): the round is tracked all the same. */
  function RefuseVote(size: nat, h: HeightVoteSet, round: nat, peer: Peer): HeightVoteSet {
    var t := TrackRound(size, h, round, peer);
    if t.Some? then t.value else h
  }

  function AddHeightVote(powers: seq<nat>, h: HeightVoteSet, vote: Vote, peer: Peer): HeightAddResult
    requires Sized(|powers|, h)
  {
    match TrackRound(|powers|, h, vote.round, peer)
    case None => HeightAddResult(h, false)
    case Some(h1) =>
      if vote.validator >= |powers| then HeightAddResult(h1, false) else
      var vs := Get(h1, vote.kind, vote.round).value;
      assert |vs.votes| == |powers|;
      var r := AddVote(powers, vs, vote.validator, vote.block);
      HeightAddResult(Put(h1, vote.kind, vote.round, r.set'), r.added)
  }

  lemma AddHeightVoteKeepsValid(powers: seq<nat>, h: HeightVoteSet, vote: Vote, peer: Peer)
    requires ValidHeight(powers, h)
    ensures ValidHeight(powers, AddHeightVote(powers, h, vote, peer).votes)
    ensures ValidHeight(powers, RefuseVote(|powers|, h, vote.round, peer))
  {
    hide AddVote, Valid;
    EmptyIsValid(powers);
    var t := TrackRound(|powers|, h, vote.round, peer);
    if t.Some? && vote.validator < |powers| {
      AddVoteKeepsValid(powers, Get(t.value, vote.kind, vote.round).value, vote.validator, vote.block);
    }
  }

  /** A vote of a tracked round, or of one of the two rounds ahead a peer may open, goes to the set of its
      round and kind, and every other set stays; any other changes nothing. */
  lemma AddHeightVoteExactly(powers: seq<nat>, h: HeightVoteSet, vote: Vote, peer: Peer, kind: VoteKind, round: nat)
    requires Sized(|powers|, h)
    ensures var r := AddHeightVote(powers, h, vote, peer);
            var used := if peer in h.catchup then h.catchup[peer] else [];
            var opens := vote.round !in h.sets && |used| < 2;
            && r.votes.round == h.round
            && (vote.round !in h.sets && !opens ==> r == HeightAddResult(h, false))
            && (if opens then r.votes.catchup == h.catchup[peer := used + [vote.round]] else r.votes.catchup == h.catchup)
            && (vote.round in h.sets || opens ==>
                  var set' := if opens then EmptyVoteSet(|powers|) else Get(h, vote.kind, vote.round).value;
                  && vote.round in r.votes.sets
                  && (vote.validator < |powers| ==>
                        && |set'.votes| == |powers| && r.added == AddVote(powers, set', vote.validator, vote.block).added
                        && Get(r.votes, vote.kind, vote.round) == Some(AddVote(powers, set', vote.validator, vote.block).set'))
                  && (vote.validator >= |powers| ==> !r.added && Get(r.votes, vote.kind, vote.round) == Some(set')))
            && ((kind != vote.kind || round != vote.round) && round in h.sets ==> Get(r.votes, kind, round) == Get(h, kind, round))
  {
    hide AddVote;
  }

  /** A vote that is refused opens its round like any other, and counts for nothing. */
  lemma RefuseVoteExactly(powers: seq<nat>, h: HeightVoteSet, round: nat, peer: Peer, kind: VoteKind, r: nat)
    ensures var h' := RefuseVote(|powers|, h, round, peer);
            var used := if peer in h.catchup then h.catchup[peer] else [];
            var opens := round !in h.sets && |used| < 2;
            && h'.round == h.round && h'.catchup == (if opens then h.catchup[peer := used + [round]] else h.catchup)
            && Get(h', kind, r) == if opens && r == round then Some(EmptyVoteSet(|powers|)) else Get(h, kind, r)
  {
  }

  lemma SetRoundKeepsValid(powers: seq<nat>, h: HeightVoteSet, round: nat)
    requires ValidHeight(powers, h)
    ensures ValidHeight(powers, SetRound(|powers|, h, round))
  {
    hide Valid;
    EmptyIsValid(powers);
  }

  /** `POLInfo` finds the last round up to `from` with a prevote majority, and -1 exactly when there is
      none. */
  lemma {:induction false} PolRoundFinds(h: HeightVoteSet, from: nat, round: nat)
    requires round <= from
    ensures var p := PolRound(h, from);
            && -1 <= p <= from
            && (p >= 0 ==> Majority(h, Prevote, p).Some?)
            && (Majority(h, Prevote, round).Some? ==> round <= p)
  {
    if from != round && Majority(h, Prevote, from).None? {
      PolRoundFinds(h, from - 1, round);
    } else if from == round && from > 0 {
      PolRoundFinds(h, from - 1, 0);
    }
  }
}
