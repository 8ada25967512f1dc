/** The round state machine of one height, `consensus/state.go`.

    `RoundState` is the part of the consensus state the height's decisions depend on.  Each
    `enterX` step and each message handler is a function on it: votes signed by the step are
    appended to `out`, a panic sets the status to `Halted` (the receive routine stops), and
    `finalizeCommit` sets it to `Decided`.  What the code takes from elsewhere (block validity,
    whether the signer agrees, the node's configuration) is the `Env` of the step. */
module Consensus {
  import opened Options
  import opened VotingPower
  import opened VoteSets

  // cstypes.RoundStepType
  const NEW_HEIGHT: nat := 1
  const NEW_ROUND: nat := 2
  const PROPOSE: nat := 3
  const PREVOTE: nat := 4
  const PREVOTE_WAIT: nat := 5
  const PRECOMMIT: nat := 6
  const PRECOMMIT_WAIT: nat := 7
  const COMMIT: nat := 8

  /** The validators' powers and this node's index among them (out of range: not a validator). */
  datatype Ctx = Ctx(powers: seq<nat>, me: nat)

  datatype Env = Env(
    blockValid: bool,      // ValidateBlock accepts the proposal block
    txsSigned: bool,       // every transaction of the proposal block is well signed
    crossSigned: bool,     // the cross-shard signatures over the proposal block succeed
    signPrevote: bool,     // the private validator signs
    signPrecommit: bool,
    waitForTxs: bool,      // WaitForTxs() && !needProofBlock
    emptyInterval: bool,   // CreateEmptyBlocksInterval > 0
    checkpointMatches: bool) // no checkpoint transaction, or it matches the relay list

  datatype Proposal = Proposal(round: nat, polRound: int, block: BlockID)
  /** A part set: its header and whether all parts have arrived. */
  datatype Parts = Parts(header: PartSetHeader, complete: bool)
  datatype Timeout = Timeout(round: nat, step: nat)
  datatype Status = Running | Halted | Decided(hash: Hash)

  datatype RoundState = RoundState(
    round: nat,
    step: nat,
    proposal: Option<Proposal>,
    proposalBlock: Option<Hash>,
    proposalParts: Option<Parts>,
    lockedRound: int,
    lockedBlock: Option<Hash>,
    lockedParts: Option<Parts>,
    validRound: int,
    validBlock: Option<Hash>,
    validParts: Option<Parts>,
    votes: HeightVoteSet,
    commitRound: int,
    triggeredPrecommitWait: bool,
    timeouts: set<Timeout>,
    out: seq<Vote>,
    status: Status)

  /** What arrives as a block part: nothing new, a part, or the last part. */
  datatype PartEvent = DuplicatePart | MorePart | LastPartUndecodable | LastPart(block: Hash)

  /** `updateToState` for a new height, with round 0 scheduled. */
  function NewHeightState(size: nat): RoundState {
    RoundState(0, NEW_HEIGHT, None, None, None, -1, None, None, -1, None, None,
               NewHeightVoteSet(size), -1, false, {Timeout(0, NEW_HEIGHT)}, [], Running)
  }

  // ----- small queries -----------------------------------------------------------------------

  predicate HashesTo(block: Option<Hash>, hash: Option<Hash>) {
    block.Some? && block == hash
  }

  predicate HasHeader(parts: Option<Parts>, header: PartSetHeader) {
    parts.Some? && parts.value.header == header
  }

  predicate IsProposalComplete(rs: RoundState) {
    && rs.proposal.Some? && rs.proposalBlock.Some?
    && (rs.proposal.value.polRound < 0 || Majority(rs.votes, Prevote, rs.proposal.value.polRound).Some?)
  }

  predicate BlockIDIsZero(b: BlockID) {
    b.hash.None? && b.parts == NO_PARTS
  }

  function HeaderOf(parts: Option<Parts>): PartSetHeader {
    if parts.Some? then parts.value.header else NO_PARTS
  }

  // ----- signing -----------------------------------------------------------------------------

  /** A prevote for a block drops its hash, but not its part set header, when the cross-shard
      signatures fail. */
  function SignedBlock(kind: VoteKind, block: BlockID, cross: bool): BlockID {
    if kind == Prevote && block.hash.Some? && !cross then BlockID(None, block.parts) else block
  }

  /** `signAddVote`: the vote carries the node's current round, not the round being entered.
      Signing a prevote for a block reads the proposal block's header, whichever block is voted. */
  function SignAddVote(c: Ctx, rs: RoundState, kind: VoteKind, block: BlockID, signs: bool, cross: bool): RoundState {
    if c.me >= |c.powers| then rs
    else if kind == Prevote && block.hash.Some? && rs.proposalBlock.None? then rs.(status := Halted)
    else if signs then rs.(out := rs.out + [Vote(kind, rs.round, SignedBlock(kind, block, cross), c.me)])
    else rs
  }

  // ----- enterX ------------------------------------------------------------------------------

  /** `defaultDoPrevote`: the locked block, else a valid proposal block, else nil. */
  function PrevoteChoice(rs: RoundState, e: Env): BlockID {
    if rs.lockedBlock.Some? then BlockID(rs.lockedBlock, HeaderOf(rs.lockedParts))
    else if rs.proposalBlock.Some? && e.blockValid && e.txsSigned then
      BlockID(rs.proposalBlock, HeaderOf(rs.proposalParts))
    else NIL_BLOCK
  }

  function EnterPrevote(c: Ctx, rs: RoundState, round: nat, e: Env): RoundState {
    if !rs.status.Running? || round < rs.round || (rs.round == round && PREVOTE <= rs.step) then rs
    else SignAddVote(c, rs, Prevote, PrevoteChoice(rs, e), e.signPrevote, e.crossSigned).(round := round, step := PREVOTE)
  }

  function EnterPropose(c: Ctx, rs: RoundState, round: nat, e: Env): RoundState {
    if !rs.status.Running? || round < rs.round || (rs.round == round && PROPOSE <= rs.step) then rs
    else
      var rs1 := rs.(timeouts := rs.timeouts + {Timeout(round, PROPOSE)}, round := round, step := PROPOSE);
      if IsProposalComplete(rs1) then EnterPrevote(c, rs1, rs1.round, e) else rs1
  }

  /** The state `enterNewRound` sets up before it goes on to propose. */
  function SetupRound(c: Ctx, rs: RoundState, round: nat): RoundState {
    var rs1 := rs.(round := round, step := NEW_ROUND, triggeredPrecommitWait := false);
    var rs2 := if round == 0 then rs1
               else rs1.(proposal := None, proposalBlock := None, proposalParts := None);
    if SetRoundPanics(rs.votes, round + 1) then rs2.(status := Halted)
    else rs2.(votes := SetRound(|c.powers|, rs.votes, round + 1))
  }

  function EnterNewRound(c: Ctx, rs: RoundState, round: nat, e: Env): RoundState {
    if !rs.status.Running? || round < rs.round || (rs.round == round && rs.step != NEW_HEIGHT) then rs
    else
      var rs1 := SetupRound(c, rs, round);
      if e.waitForTxs && round == 0 then
        if e.emptyInterval then rs1.(timeouts := rs1.timeouts + {Timeout(round, NEW_ROUND)}) else rs1
      else EnterPropose(c, rs1, round, e)
  }

  function EnterPrevoteWait(c: Ctx, rs: RoundState, round: nat): RoundState {
    if !rs.status.Running? || round < rs.round || (rs.round == round && PREVOTE_WAIT <= rs.step) then rs
    else if !TwoThirdsAny(c.powers, rs.votes, Prevote, round) then rs.(status := Halted)
    else rs.(timeouts := rs.timeouts + {Timeout(round, PREVOTE_WAIT)}, round := round, step := PREVOTE_WAIT)
  }

  function Unlock(rs: RoundState): RoundState {
    rs.(lockedRound := -1, lockedBlock := None, lockedParts := None)
  }

  /** The lock `enterPrecommit` leaves for a prevote majority, and the block it precommits. */
  function PrecommitLock(rs: RoundState, round: nat, maj: Option<BlockID>): (RoundState, BlockID) {
    if maj.None? then (rs, NIL_BLOCK)
    else if maj.value.hash.None? then (Unlock(rs), NIL_BLOCK)
    else if HashesTo(rs.lockedBlock, maj.value.hash) then (rs.(lockedRound := round), maj.value)
    else if HashesTo(rs.proposalBlock, maj.value.hash) then
      (rs.(lockedRound := round, lockedBlock := rs.proposalBlock, lockedParts := rs.proposalParts), maj.value)
    else
      var rs1 := Unlock(rs);
      (if HasHeader(rs.proposalParts, maj.value.parts) then rs1
       else rs1.(proposalBlock := None, proposalParts := Some(Parts(maj.value.parts, false))), NIL_BLOCK)
  }

  /** A polka for a proposal block that does not validate. */
  predicate PolkaForInvalid(rs: RoundState, maj: Option<BlockID>, e: Env) {
    && maj.Some? && maj.value.hash.Some? && !HashesTo(rs.lockedBlock, maj.value.hash)
    && HashesTo(rs.proposalBlock, maj.value.hash) && !e.blockValid
  }

  function DoPrecommit(c: Ctx, rs: RoundState, round: nat, e: Env): RoundState {
    var maj := Majority(rs.votes, Prevote, round);
    if (maj.Some? && PolRound(rs.votes, rs.votes.round) < round) || PolkaForInvalid(rs, maj, e) then
      rs.(status := Halted)
    else
      var (rs1, b) := PrecommitLock(rs, round, maj);
      SignAddVote(c, rs1, Precommit, b, e.signPrecommit, e.crossSigned)
  }

  function EnterPrecommit(c: Ctx, rs: RoundState, round: nat, e: Env): RoundState {
    if !rs.status.Running? || round < rs.round || (rs.round == round && PRECOMMIT <= rs.step) then rs
    else DoPrecommit(c, rs, round, e).(round := round, step := PRECOMMIT)
  }

  function EnterPrecommitWait(c: Ctx, rs: RoundState, round: nat): RoundState {
    if !rs.status.Running? || round < rs.round || (rs.round == round && rs.triggeredPrecommitWait) then rs
    else if !TwoThirdsAny(c.powers, rs.votes, Precommit, round) then rs.(status := Halted)
    else rs.(timeouts := rs.timeouts + {Timeout(round, PRECOMMIT_WAIT)}, triggeredPrecommitWait := true)
  }

  /** `tryFinalizeCommit` and the checks of `finalizeCommit`. */
  function TryFinalizeCommit(rs: RoundState): RoundState {
    if !rs.status.Running? || rs.commitRound < 0 then rs
    else
      match Majority(rs.votes, Precommit, rs.commitRound)
      case None => rs
      case Some(b) =>
        if b.hash.None? || !HashesTo(rs.proposalBlock, b.hash) then rs
        else if rs.step != COMMIT then rs
        else if !HasHeader(rs.proposalParts, b.parts) then rs.(status := Halted)
        else rs.(status := Decided(b.hash.value))
  }

  function EnterCommit(rs: RoundState, commitRound: nat): RoundState {
    if !rs.status.Running? || COMMIT <= rs.step then rs
    else
      match Majority(rs.votes, Precommit, commitRound)
      case None => rs.(status := Halted)
      case Some(b) =>
        var rs1 := if HashesTo(rs.lockedBlock, b.hash)
                   then rs.(proposalBlock := rs.lockedBlock, proposalParts := rs.lockedParts) else rs;
        var rs2 := if HashesTo(rs1.proposalBlock, b.hash) || HasHeader(rs1.proposalParts, b.parts) then rs1
                   else rs1.(proposalBlock := None, proposalParts := Some(Parts(b.parts, false)));
        TryFinalizeCommit(rs2.(step := COMMIT, commitRound := commitRound))
  }

  // ----- message and timeout handlers ----------------------------------------------------------

  /** The reaction of `addVote` to a polka: unlock if it is later than the lock and for another
      block, then track the valid block. */
  function UnlockOnPolka(rs: RoundState, voteRound: nat, b: BlockID): RoundState {
    if rs.lockedBlock.Some? && rs.lockedRound < voteRound <= rs.round && !HashesTo(rs.lockedBlock, b.hash)
    then Unlock(rs) else rs
  }

  function TrackValid(rs: RoundState, voteRound: nat, b: BlockID): RoundState {
    if b.hash.Some? && rs.validRound < voteRound && voteRound == rs.round then
      var rs1 := if HashesTo(rs.proposalBlock, b.hash)
                 then rs.(validRound := voteRound, validBlock := rs.proposalBlock, validParts := rs.proposalParts)
                 else rs.(proposalBlock := None);
      if HasHeader(rs1.proposalParts, b.parts) then rs1
      else rs1.(proposalParts := Some(Parts(b.parts, false)))
    else rs
  }

  function OnPolka(rs: RoundState, voteRound: nat, b: BlockID): RoundState {
    TrackValid(UnlockOnPolka(rs, voteRound, b), voteRound, b)
  }

  function AfterPrevote(c: Ctx, rs: RoundState, r: nat, e: Env): RoundState {
    var maj := Majority(rs.votes, Prevote, r);
    var rs1 := if maj.Some? then OnPolka(rs, r, maj.value) else rs;
    if rs1.round < r && TwoThirdsAny(c.powers, rs1.votes, Prevote, r) then
      EnterNewRound(c, rs1, r, e)
    else if rs1.round == r && PREVOTE <= rs1.step then
      if maj.Some? && (IsProposalComplete(rs1) || maj.value.hash.None?) then EnterPrecommit(c, rs1, r, e)
      else if TwoThirdsAny(c.powers, rs1.votes, Prevote, r) then EnterPrevoteWait(c, rs1, r)
      else rs1
    else if rs1.proposal.Some? && rs1.proposal.value.polRound == r && IsProposalComplete(rs1) then
      EnterPrevote(c, rs1, rs1.round, e)
    else rs1
  }

  function AfterPrecommit(c: Ctx, rs: RoundState, r: nat, e: Env): RoundState {
    var maj := Majority(rs.votes, Precommit, r);
    if maj.Some? then
      var rs1 := EnterPrecommit(c, EnterNewRound(c, rs, r, e), r, e);
      if maj.value.hash.Some? then EnterCommit(rs1, r) else EnterPrecommitWait(c, rs1, r)
    else if rs.round <= r && TwoThirdsAny(c.powers, rs.votes, Precommit, r) then
      EnterPrecommitWait(c, EnterNewRound(c, rs, r, e), r)
    else rs
  }

  /** `addVote` for a vote of this height. */
  function HandleVote(c: Ctx, rs: RoundState, vote: Vote, peer: Peer, e: Env): RoundState
    requires Sized(|c.powers|, rs.votes)
  {
    if !rs.status.Running? then rs
    else
      var r := AddHeightVote(c.powers, rs.votes, vote, peer);
      var rs1 := rs.(votes := r.votes);
      if !r.added || (rs.proposalBlock.Some? && !e.checkpointMatches) then rs1
      else if vote.kind == Prevote then AfterPrevote(c, rs1, vote.round, e)
      else AfterPrecommit(c, rs1, vote.round, e)
  }

  /** A vote that is not authentic. */
  function HandleInvalidVote(c: Ctx, rs: RoundState, round: nat, peer: Peer): RoundState {
    if !rs.status.Running? then rs else rs.(votes := RefuseVote(|c.powers|, rs.votes, round, peer))
  }

  function HandleTimeout(c: Ctx, rs: RoundState, t: Timeout, e: Env): RoundState {
    if !rs.status.Running? || t.round < rs.round || (t.round == rs.round && t.step < rs.step) then rs
    else if t.step == NEW_HEIGHT then EnterNewRound(c, rs, 0, e)
    else if t.step == NEW_ROUND then EnterPropose(c, rs, 0, e)
    else if t.step == PROPOSE then EnterPrevote(c, rs, t.round, e)
    else if t.step == PREVOTE_WAIT then EnterPrecommit(c, rs, t.round, e)
    else if t.step == PRECOMMIT_WAIT then EnterNewRound(c, EnterPrecommit(c, rs, t.round, e), t.round + 1, e)
    else rs.(status := Halted)
  }

  function HandleTxsAvailable(c: Ctx, rs: RoundState, e: Env): RoundState {
    EnterPropose(c, EnterNewRound(c, rs, 0, e), 0, e)
  }

  /** `defaultSetProposal` for a proposal signed by the proposer. */
  function HandleProposal(rs: RoundState, p: Proposal): RoundState {
    if !rs.status.Running? || rs.proposal.Some? || p.round != rs.round
       || p.polRound < -1 || (p.polRound >= 0 && p.polRound >= p.round)
    then rs
    else rs.(proposal := Some(p),
             proposalParts := if rs.proposalParts.Some? then rs.proposalParts
                              else Some(Parts(p.block.parts, false)))
  }

  /** The valid-block update of `addProposalBlockPart`. */
  function OnCompleteBlock(rs: RoundState): RoundState {
    var maj := Majority(rs.votes, Prevote, rs.round);
    if maj.Some? && !BlockIDIsZero(maj.value) && rs.validRound < rs.round && HashesTo(rs.proposalBlock, maj.value.hash)
    then rs.(validRound := rs.round, validBlock := rs.proposalBlock, validParts := rs.proposalParts)
    else rs
  }

  function HandlePart(c: Ctx, rs: RoundState, p: PartEvent, e: Env): RoundState {
    if !rs.status.Running? || rs.proposalParts.None? || rs.proposalParts.value.complete then rs
    else
      match p
      case DuplicatePart => rs
      case MorePart => rs
      case LastPartUndecodable => rs.(proposalParts := Some(rs.proposalParts.value.(complete := true)))
      case LastPart(block) =>
        var rs1 := OnCompleteBlock(rs.(proposalParts := Some(rs.proposalParts.value.(complete := true)),
                                       proposalBlock := Some(block)));
        if rs1.step <= PROPOSE && IsProposalComplete(rs1) then
          var rs2 := EnterPrevote(c, rs1, rs1.round, e);
          if Majority(rs1.votes, Prevote, rs1.round).Some? then EnterPrecommit(c, rs2, rs2.round, e) else rs2
        else if rs1.step == COMMIT then TryFinalizeCommit(rs1)
        else rs1
  }

  /** A peer claims a majority: `HeightVoteSet.SetPeerMaj23`. */
  function HandlePeerMaj23(rs: RoundState, kind: VoteKind, round: nat, peer: Peer, b: BlockID): RoundState {
    match Get(rs.votes, kind, round)
    case None => rs
    case Some(vs) => rs.(votes := Put(rs.votes, kind, round, SetPeerMaj23(vs, peer, b)))
  }

  // ----- a locked node without a proposal ----------------------------------------------------------

  /** A validator entering prevote in its round halts exactly when it is locked and has no
      proposal block: signing the prevote reads the proposal block. */
  lemma PrevoteHaltsExactlyWhen(c: Ctx, rs: RoundState, e: Env)
    requires rs.status.Running? && rs.step < PREVOTE && c.me < |c.powers|
    ensures EnterPrevote(c, rs, rs.round, e).status.Halted? <==> rs.lockedBlock.Some? && rs.proposalBlock.None?
  {
  }

  /** What a locked node prevotes is its lock exactly when the cross-shard signatures succeed;
      otherwise it is a vote without a hash, although the lock stands. */
  lemma PrevoteFollowsLockExactlyWhen(c: Ctx, rs: RoundState, e: Env)
    requires rs.status.Running? && rs.step < PREVOTE && c.me < |c.powers| && e.signPrevote
    requires rs.lockedBlock.Some? && rs.proposalBlock.Some?
    ensures var after := EnterPrevote(c, rs, rs.round, e);
            && |after.out| == |rs.out| + 1 && after.lockedBlock == rs.lockedBlock
            && var v := after.out[|rs.out|];
               && v.kind == Prevote && v.round == rs.round
               && (v.block.hash == rs.lockedBlock <==> e.crossSigned) && (!e.crossSigned ==> v.block.hash.None?)
  {
  }

  /** A locked node that moves to the next round and times out before any proposal arrives halts
      without prevoting its locked block. */
  lemma LockedNodeHaltsWithoutProposal(c: Ctx, rs: RoundState, e: Env)
    requires rs.status.Running? && rs.lockedBlock.Some? && c.me < |c.powers|
    requires !SetRoundPanics(rs.votes, rs.round + 2)
    ensures var rs1 := EnterNewRound(c, rs, rs.round + 1, e);
            var rs2 := HandleTimeout(c, rs1, Timeout(rs.round + 1, PROPOSE), e);
            rs1.step == PROPOSE && rs2.status.Halted? && rs2.out == rs.out
  {
    var rs1 := EnterNewRound(c, rs, rs.round + 1, e);
    assert rs1.round == rs.round + 1 && rs1.step == PROPOSE && rs1.status.Running?;
    PrevoteHaltsExactlyWhen(c, rs1, e);
  }
}
