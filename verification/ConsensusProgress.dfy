/** What a node does do: the vote it signs and the lock it takes, exactly; when it decides; how it reacts to
    each message; and that a node waiting has the timeout that takes it on. */
module ConsensusProgress {
  import opened Options
  import opened VotingPower
  import opened VoteSets
  import opened Consensus
  import opened ConsensusSafety

  // ----- the votes -------------------------------------------------------------------------------

  /** Entering precommit in its own round, a node halts exactly on a polka for a proposed block it is not
      locked on that does not validate. Otherwise it precommits and locks the block exactly when that has
      the round's polka and is the block locked or proposed; on any other polka it gives its lock up and
      precommits nil, fetching a block it does not know; without one it keeps its lock and precommits nil. */
  lemma PrecommitExactly(c: Ctx, rs: RoundState, e: Env, l: seq<Vote>)
    requires NodeInv(c, rs, l) && rs.status.Running? && rs.step < PRECOMMIT
    ensures var polka, rs' := Majority(rs.votes, Prevote, rs.round), EnterPrecommit(c, rs, rs.round, e);
            && (rs'.status.Halted? <==> Knows(rs, polka) && rs.lockedBlock != polka.value.hash && !e.blockValid)
            && rs'.round == rs.round && rs'.step == PRECOMMIT
            && (rs'.status.Running? ==>
                  && LocksExactly(rs, rs.round, polka, rs')
                  && Signs(c, rs, rs', e.signPrecommit, Precommit, if Knows(rs, polka) then polka.value else NIL_BLOCK))
  {
    hide NodeInv, DoPrecommit, Majority, PolRound;
    if Majority(rs.votes, Prevote, rs.round).Some? {
      PolInfoIsCurrent(c, rs, l);
    }
    DoPrecommitExactly(c, rs, rs.round, e);
  }

  /** Entering prevote in its own round, a node prevotes its lock; unlocked, the block proposed if that is
      valid and well signed; else nil. The cross-shard signatures failing, a block's hash is dropped. */
  lemma PrevoteExactly(c: Ctx, rs: RoundState, e: Env)
    requires rs.status.Running? && rs.step < PREVOTE
    ensures var rs' := EnterPrevote(c, rs, rs.round, e);
            var hash := if rs.lockedBlock.Some? then rs.lockedBlock
                        else if e.blockValid && e.txsSigned then rs.proposalBlock else None;
            var parts := if rs.lockedBlock.Some? then rs.lockedParts else if hash.Some? then rs.proposalParts else None;
            && rs'.step == PREVOTE && rs'.round == rs.round
            && rs' == rs.(step := PREVOTE, out := rs'.out, status := rs'.status)
            && (rs'.status.Halted? <==> c.me < |c.powers| && hash.Some? && rs.proposalBlock.None?)
            && (rs'.status.Running? ==>
                  Signs(c, rs, rs', e.signPrevote, Prevote, BlockID(if e.crossSigned then hash else None, HeaderOf(parts))))
  {
  }

  // ----- the decision ----------------------------------------------------------------------------

  /** A running node decides a block exactly when, at the commit step, its precommits of the commit round
      have a majority for it and it has the block with the parts they name. */
  lemma DecidesExactlyWhen(rs: RoundState, h: Hash)
    requires rs.status.Running?
    ensures TryFinalizeCommit(rs).status == Decided(h) <==>
            && rs.step == COMMIT && rs.commitRound >= 0 && rs.proposalBlock == Some(h) && rs.proposalParts.Some?
            && Majority(rs.votes, Precommit, rs.commitRound) == Some(BlockID(Some(h), rs.proposalParts.value.header))
    ensures TryFinalizeCommit(rs) == rs.(status := TryFinalizeCommit(rs).status)
  {
    hide Majority;
  }

  /** On a precommit majority a running node is at the commit step for that round, with its locked block
      if that is the one; and decides at once exactly when it then has the block with the parts named. */
  lemma CommitExactly(rs: RoundState, r: nat, b: BlockID)
    requires rs.status.Running? && rs.step < COMMIT && Majority(rs.votes, Precommit, r) == Some(b) && b.hash.Some?
    ensures var rs' := EnterCommit(rs, r);
            && rs'.step == COMMIT && rs'.commitRound == r && rs'.round == rs.round && rs'.out == rs.out
            && (rs.lockedBlock == b.hash ==> rs'.proposalBlock == rs.lockedBlock && rs'.proposalParts == rs.lockedParts)
            && (rs'.status == Decided(b.hash.value) <==>
                  || (rs.lockedBlock == b.hash && HasHeader(rs.lockedParts, b.parts))
                  || (rs.lockedBlock != b.hash && rs.proposalBlock == b.hash && HasHeader(rs.proposalParts, b.parts)))
            && (rs.lockedBlock != b.hash && rs.proposalBlock != b.hash ==> rs'.status.Running? && HasHeader(rs'.proposalParts, b.parts))
  {
    hide Majority;
  }

  // ----- what a polka does -----------------------------------------------------------------------

  /** A polka makes a node give its lock up exactly when it is later than the lock, not ahead of the node
      and for something else; and makes its block the valid one exactly when it is this round's, later than
      the valid one so far, and for the block proposed. A block it does not have is fetched. */
  lemma PolkaExactly(rs: RoundState, r: nat, b: BlockID)
    ensures var rs' := OnPolka(rs, r, b);
            var unlocks := rs.lockedBlock.Some? && rs.lockedRound < r <= rs.round && rs.lockedBlock != b.hash;
            var tracks := b.hash.Some? && rs.validRound < r == rs.round;
            && (if unlocks then rs'.lockedBlock.None? && rs'.lockedRound == -1 && rs'.lockedParts.None?
                else rs'.lockedBlock == rs.lockedBlock && rs'.lockedRound == rs.lockedRound && rs'.lockedParts == rs.lockedParts)
            && (if tracks && rs.proposalBlock == b.hash
                then rs'.validBlock == b.hash && rs'.validRound == r && rs'.validParts == rs.proposalParts && rs'.proposalBlock == b.hash
                else rs'.validBlock == rs.validBlock && rs'.validRound == rs.validRound && rs'.validParts == rs.validParts)
            && (tracks && rs.proposalBlock != b.hash ==> rs'.proposalBlock.None?)
            && (tracks ==> HasHeader(rs'.proposalParts, b.parts))
            && (!tracks ==> rs'.proposalBlock == rs.proposalBlock && rs'.proposalParts == rs.proposalParts)
  {
  }

  // ----- moving on -------------------------------------------------------------------------------

  /** A round ahead is entered: everything of the old proposal is dropped, the next round's votes are
      tracked, and, unless the node waits for transactions, it proposes with the timeout that ends it. */
  lemma NewRoundEntered(c: Ctx, rs: RoundState, round: nat, e: Env, l: seq<Vote>)
    requires NodeInv(c, rs, l) && rs.status.Running? && rs.round < round
    ensures var rs' := EnterNewRound(c, rs, round, e);
            && rs'.status.Running? && rs'.round == round && rs'.step == PROPOSE && Timeout(round, PROPOSE) in rs'.timeouts
            && rs'.proposal.None? && rs'.proposalBlock.None? && rs'.proposalParts.None? && !rs'.triggeredPrecommitWait
            && rs'.votes.round == round + 1 && (forall r: nat :: rs.votes.round < r <= round + 1 ==> r in rs'.votes.sets)
            && rs'.lockedBlock == rs.lockedBlock && rs'.lockedRound == rs.lockedRound && rs'.lockedParts == rs.lockedParts
            && rs'.validBlock == rs.validBlock && rs'.validRound == rs.validRound && rs'.validParts == rs.validParts
            && rs'.out == rs.out
  {
    hide LockKept, Accounted, Justified, OwnVotesOrdered;
    SetupRoundKeeps(c, rs, round, l);
  }

  /** The start of a height: round 0 is entered and, unless the node waits for transactions, proposed. */
  lemma FirstRoundEntered(c: Ctx, rs: RoundState, e: Env, l: seq<Vote>)
    requires NodeInv(c, rs, l) && rs.status.Running? && rs.round == 0 && rs.step == NEW_HEIGHT
    ensures var rs' := EnterNewRound(c, rs, 0, e);
            && rs'.round == 0
            && (e.waitForTxs ==> rs'.step == NEW_ROUND && (e.emptyInterval ==> Timeout(0, NEW_ROUND) in rs'.timeouts))
            && (!e.waitForTxs ==> rs'.step == (if IsProposalComplete(rs) then PREVOTE else PROPOSE) && Timeout(0, PROPOSE) in rs'.timeouts)
  {
    hide LockKept, Accounted, Justified, OwnVotesOrdered, Seen;
    SetupRoundKeeps(c, rs, 0, l);
  }

  /** A node that waited for transactions proposes when they come or its wait ends. */
  lemma WaitForTxsEnds(c: Ctx, rs: RoundState, e: Env)
    requires rs.status.Running? && rs.round == 0 && rs.step == NEW_ROUND
    ensures var rs' := HandleTxsAvailable(c, rs, e);
            rs' == HandleTimeout(c, rs, Timeout(0, NEW_ROUND), e) && rs'.step >= PROPOSE && Timeout(0, PROPOSE) in rs'.timeouts
  {
  }

  /** A waiting node always has the timeout that ends its wait, and that timeout moves it strictly forward
      in (round, step), or halts it: proposing ends in the prevote, waiting for prevotes in the precommit,
      waiting for precommits in the next round. */
  lemma TimeoutMovesOn(c: Ctx, rs: RoundState, e: Env, log: seq<Vote>)
    requires MidInv(c, rs, log) && rs.status.Running?
    ensures rs.step == PROPOSE ==>
              && Timeout(rs.round, PROPOSE) in rs.timeouts
              && HandleTimeout(c, rs, Timeout(rs.round, PROPOSE), e) == EnterPrevote(c, rs, rs.round, e)
    ensures rs.step == PREVOTE_WAIT ==>
              && Timeout(rs.round, PREVOTE_WAIT) in rs.timeouts
              && HandleTimeout(c, rs, Timeout(rs.round, PREVOTE_WAIT), e) == EnterPrecommit(c, rs, rs.round, e)
    ensures rs.triggeredPrecommitWait && rs.step <= PRECOMMIT_WAIT ==>
              && Timeout(rs.round, PRECOMMIT_WAIT) in rs.timeouts
              && var rs' := HandleTimeout(c, rs, Timeout(rs.round, PRECOMMIT_WAIT), e);
                 rs'.status.Halted? || (rs'.round == rs.round + 1 && rs'.step == PROPOSE)
    ensures rs.step == NEW_HEIGHT ==>
              && Timeout(rs.round, NEW_HEIGHT) in rs.timeouts
              && HandleTimeout(c, rs, Timeout(rs.round, NEW_HEIGHT), e) == EnterNewRound(c, rs, 0, e)
  {
    hide LockKept, Accounted, Justified, OwnVotesOrdered, Seen, EnterNewRound, EnterPrecommit;
    if rs.triggeredPrecommitWait && rs.step <= PRECOMMIT_WAIT {
      WaitEnds(c, rs, e, log);
    }
  }

  /** A timeout of an earlier round, or of an earlier step of this one, changes nothing. */
  lemma StaleTimeout(c: Ctx, rs: RoundState, t: Timeout, e: Env)
    requires t.round < rs.round || (t.round == rs.round && t.step < rs.step)
    ensures HandleTimeout(c, rs, t, e) == rs
  {
  }

  lemma WaitEnds(c: Ctx, rs: RoundState, e: Env, log: seq<Vote>)
    requires MidInv(c, rs, log) && rs.status.Running? && rs.step <= PRECOMMIT_WAIT
    ensures var rs' := HandleTimeout(c, rs, Timeout(rs.round, PRECOMMIT_WAIT), e);
            rs'.status.Halted? || (rs'.round == rs.round + 1 && rs'.step == PROPOSE)
  {
    hide NodeInv, EnterPrecommit, EnterNewRound;
    EnterPrecommitKeeps(c, rs, rs.round, e, log);
    var mid := EnterPrecommit(c, rs, rs.round, e);
    PrecommitStatus(c, rs, e);
    if mid.status.Running? {
      NewRoundEntered(c, mid, rs.round + 1, e, log + mid.out);
    } else {
      HaltedStays(c, mid, rs.round + 1, e);
    }
  }

  lemma PrecommitStatus(c: Ctx, rs: RoundState, e: Env)
    requires rs.status.Running?
    ensures !EnterPrecommit(c, rs, rs.round, e).status.Decided?
  {
    hide Majority, PolRound;
  }

  lemma HaltedStays(c: Ctx, rs: RoundState, round: nat, e: Env)
    requires !rs.status.Running?
    ensures EnterNewRound(c, rs, round, e) == rs
  {
  }

  // ----- proposals and blocks --------------------------------------------------------------------

  /** A proposal is taken exactly when it is the first of the node's round and names no proof of lock or one
      of an earlier round; the node then collects its parts, unless it is collecting some already. */
  lemma ProposalExactly(rs: RoundState, p: Proposal)
    ensures var rs' := HandleProposal(rs, p);
            var takes := rs.status.Running? && rs.proposal.None? && p.round == rs.round && -1 <= p.polRound && p.polRound < rs.round;
            && rs'.proposal == (if takes then Some(p) else rs.proposal)
            && rs'.proposalParts == (if takes && rs.proposalParts.None? then Some(Parts(p.block.parts, false)) else rs.proposalParts)
            && rs' == rs.(proposal := rs'.proposal, proposalParts := rs'.proposalParts)
  {
  }

  /** A block that arrives whole becomes the valid one exactly when it has this round's polka and none as late
      is known; a node still to prevote prevotes if the proposal is then complete; and a node at the commit
      step decides it exactly when it is the block committed, with the parts named. */
  lemma BlockArrives(c: Ctx, rs: RoundState, block: Hash, e: Env)
    requires rs.status.Running? && rs.proposalParts.Some? && !rs.proposalParts.value.complete
    ensures var rs' := HandlePart(c, rs, LastPart(block), e);
            var polka, parts := Majority(rs.votes, Prevote, rs.round), Some(rs.proposalParts.value.(complete := true));
            var valid := polka.Some? && polka.value.hash == Some(block) && rs.validRound < rs.round;
            var ready := rs.proposal.Some? && (rs.proposal.value.polRound < 0 || Majority(rs.votes, Prevote, rs.proposal.value.polRound).Some?);
            && (if valid then rs'.validBlock == Some(block) && rs'.validRound == rs.round && rs'.validParts == parts
                else rs'.validBlock == rs.validBlock && rs'.validRound == rs.validRound && rs'.validParts == rs.validParts)
            && (rs.step <= PROPOSE && ready ==> rs'.step == (if polka.Some? then PRECOMMIT else PREVOTE))
            && ((rs.step <= PROPOSE && !ready) || PROPOSE < rs.step < COMMIT ==> rs'.step == rs.step && rs'.out == rs.out && rs'.status.Running?)
            && (!(rs.step <= PROPOSE && ready) ==> rs'.proposalBlock == Some(block) && rs'.proposalParts == parts)
            && (rs.step == COMMIT && rs.commitRound >= 0 ==>
                  (rs'.status == Decided(block) <==> Majority(rs.votes, Precommit, rs.commitRound) == Some(BlockID(Some(block), parts.value.header))))
  {
    hide Majority, EnterPrecommit, EnterPrevote;
    var whole := OnCompleteBlock(rs.(proposalParts := Some(rs.proposalParts.value.(complete := true)), proposalBlock := Some(block)));
    if rs.step <= PROPOSE {
      PrevoteKeepsValid(c, whole, e);
    }
  }

  /** A part that does not make a block changes nothing but that the last one ends the collecting; nor does
      any part for a node that collects none. */
  lemma PartsWithoutBlock(c: Ctx, rs: RoundState, p: PartEvent, e: Env)
    requires !p.LastPart? || rs.proposalParts.None? || rs.proposalParts.value.complete
    ensures var rs' := HandlePart(c, rs, p, e);
            && rs' == rs.(proposalParts := rs'.proposalParts)
            && (rs'.proposalParts == rs.proposalParts || p.LastPartUndecodable?)
            && (p.LastPartUndecodable? && rs.status.Running? && rs.proposalParts.Some? ==>
                  rs'.proposalParts == Some(Parts(rs.proposalParts.value.header, true)))
  {
  }

  lemma PrevoteKeepsValid(c: Ctx, rs: RoundState, e: Env)
    requires rs.status.Running? && rs.step <= PROPOSE
    ensures var rs1 := EnterPrevote(c, rs, rs.round, e);
            var rs2 := EnterPrecommit(c, rs1, rs1.round, e);
            && rs1.step == PREVOTE && rs1.round == rs.round && (rs.proposalBlock.Some? ==> rs1.status.Running? && rs2.step == PRECOMMIT)
            && rs1.validBlock == rs2.validBlock == rs.validBlock && rs1.validRound == rs2.validRound == rs.validRound
            && rs1.validParts == rs2.validParts == rs.validParts
  {
    hide EnterPrecommit;
    PrecommitLeavesValid(c, EnterPrevote(c, rs, rs.round, e), e);
  }

  lemma PrecommitLeavesValid(c: Ctx, rs: RoundState, e: Env)
    ensures var rs' := EnterPrecommit(c, rs, rs.round, e);
            && rs'.validBlock == rs.validBlock && rs'.validRound == rs.validRound && rs'.validParts == rs.validParts
            && (rs.status.Running? && rs.step < PRECOMMIT ==> rs'.step == PRECOMMIT)
  {
    hide Majority, PolRound;
  }

  // ----- reactions to votes ------------------------------------------------------------------------

  /** After a prevote of its own round a node that has prevoted precommits as soon as it has a polka for nil
      or for a complete proposal, and otherwise waits once two thirds voted at all. A round ahead in which
      two thirds voted is entered; the round a proposal names as its proof of lock completes it. */
  lemma PrevoteReaction(c: Ctx, rs: RoundState, r: nat, e: Env)
    requires rs.status.Running?
    ensures var maj := Majority(rs.votes, Prevote, r);
            var rs1 := if maj.Some? then OnPolka(rs, r, maj.value) else rs;
            var rs' := AfterPrevote(c, rs, r, e);
            var ready := maj.Some? && (maj.value.hash.None? || IsProposalComplete(rs1));
            && (rs.round == r && PREVOTE <= rs.step && ready ==> rs' == EnterPrecommit(c, rs1, r, e))
            && (rs.round == r && PREVOTE <= rs.step && !ready && TwoThirdsAny(c.powers, rs.votes, Prevote, r) ==> rs' == EnterPrevoteWait(c, rs1, r))
            && (rs.round < r && TwoThirdsAny(c.powers, rs.votes, Prevote, r) ==> rs' == EnterNewRound(c, rs1, r, e))
            && (r < rs.round && rs1.proposal.Some? && rs1.proposal.value.polRound == r && IsProposalComplete(rs1) ==> rs' == EnterPrevote(c, rs1, rs.round, e))
  {
    hide Majority, EnterPrecommit, EnterNewRound, EnterPrevote, EnterPrevoteWait, IsProposalComplete;
  }

  /** A vote is counted whatever happens next. The node reacts to one that is added, unless it has a block
      whose checkpoint does not match. */
  lemma VoteReaction(c: Ctx, rs: RoundState, vote: Vote, peer: Peer, e: Env)
    requires Sized(|c.powers|, rs.votes) && rs.status.Running?
    ensures var add, rs' := AddHeightVote(c.powers, rs.votes, vote, peer), HandleVote(c, rs, vote, peer, e);
            var counted := rs.(votes := add.votes);
            var reacts := add.added && (e.checkpointMatches || rs.proposalBlock.None?);
            && (!reacts ==> rs' == counted)
            && (reacts && vote.kind == Prevote ==> rs' == AfterPrevote(c, counted, vote.round, e))
            && (reacts && vote.kind == Precommit ==> rs' == AfterPrecommit(c, counted, vote.round, e))
  {
    hide AddHeightVote, AfterPrevote, AfterPrecommit;
  }

  /** A vote that is not authentic opens its round for the peer if that may open one, and does nothing else. */
  lemma InvalidVoteReaction(c: Ctx, rs: RoundState, round: nat, peer: Peer, kind: VoteKind, r: nat)
    requires rs.status.Running?
    ensures var rs' := HandleInvalidVote(c, rs, round, peer);
            var used := if peer in rs.votes.catchup then rs.votes.catchup[peer] else [];
            var opens := round !in rs.votes.sets && |used| < 2;
            && rs' == rs.(votes := rs'.votes)
            && rs'.votes.catchup == (if opens then rs.votes.catchup[peer := used + [round]] else rs.votes.catchup)
            && Get(rs'.votes, kind, r) == if opens && r == round then Some(EmptyVoteSet(|c.powers|)) else Get(rs.votes, kind, r)
  {
    hide RefuseVote;
    RefuseVoteExactly(c.powers, rs.votes, round, peer, kind, r);
  }

  /** A peer's claim of a majority is recorded with the votes it is about, if those are tracked. */
  lemma ClaimRecorded(rs: RoundState, kind: VoteKind, round: nat, peer: Peer, b: BlockID, k: VoteKind, r: nat)
    ensures var votes := HandlePeerMaj23(rs, kind, round, peer, b).votes;
            if round in rs.votes.sets && k == kind && r == round
            then Get(votes, k, r) == Some(SetPeerMaj23(Get(rs.votes, k, r).value, peer, b))
            else Get(votes, k, r) == Get(rs.votes, k, r)
  {
    hide SetPeerMaj23;
  }

  lemma PrevoteWaitEntered(c: Ctx, rs: RoundState)
    requires rs.status.Running? && rs.step < PREVOTE_WAIT && TwoThirdsAny(c.powers, rs.votes, Prevote, rs.round)
    ensures var rs' := EnterPrevoteWait(c, rs, rs.round);
            rs' == rs.(step := PREVOTE_WAIT, timeouts := rs.timeouts + {Timeout(rs.round, PREVOTE_WAIT)})
  {
  }

  /** After a precommit: a majority for a block takes the node to that round and its commit, one for nil to
      that round and its wait; two thirds of a round not behind take it there to wait. */
  lemma PrecommitReaction(c: Ctx, rs: RoundState, r: nat, e: Env, log: seq<Vote>)
    requires MidInv(c, rs, log) && SignsLock(rs, e) && rs.status.Running? && rs.step < COMMIT
    ensures var maj, rs' := Majority(rs.votes, Precommit, r), AfterPrecommit(c, rs, r, e);
            && rs.round <= rs'.round
            && (maj.Some? && maj.value.hash.Some? && rs.round <= r ==> rs'.status.Halted? || (rs'.step == COMMIT && rs'.commitRound == r))
            && (maj.Some? && maj.value.hash.None? && rs.round <= r ==>
                  rs'.status.Halted? || (rs'.round == r && rs'.triggeredPrecommitWait && Timeout(r, PRECOMMIT_WAIT) in rs'.timeouts))
            && (maj.None? && rs.round <= r && TwoThirdsAny(c.powers, rs.votes, Precommit, r) ==>
                  rs'.status.Halted? || (rs'.round == r && rs'.triggeredPrecommitWait && Timeout(r, PRECOMMIT_WAIT) in rs'.timeouts))
  {
    hide NodeInv, EnterPrecommit, EnterNewRound, EnterCommit, EnterPrecommitWait, Majority;
    var rs1 := EnterNewRound(c, rs, r, e);
    EnterNewRoundKeeps(c, rs, r, e, log);
    NewRoundBounds(c, rs, r, e);
    EnterPrecommitBounds(c, rs1, r, e);
    var rs2 := EnterPrecommit(c, rs1, r, e);
    AfterPrecommitKeeps(c, rs, r, e, log);
    CommitStep(rs2, r);
    WaitSet(c, rs1, r);
    WaitSet(c, rs2, r);
    if AfterPrecommit(c, rs, r, e).triggeredPrecommitWait {
      WaitHasTimeout(c, AfterPrecommit(c, rs, r, e), log);
    }
  }

  lemma WaitHasTimeout(c: Ctx, rs: RoundState, log: seq<Vote>)
    requires MidInv(c, rs, log) && rs.triggeredPrecommitWait
    ensures Timeout(rs.round, PRECOMMIT_WAIT) in rs.timeouts
  {
  }

  lemma NewRoundBounds(c: Ctx, rs: RoundState, r: nat, e: Env)
    requires rs.status.Running? && rs.step < COMMIT
    ensures var rs1 := EnterNewRound(c, rs, r, e);
            && rs1.step < COMMIT && !rs1.status.Decided? && (rs.round <= r ==> rs1.round == r)
            && (Majority(rs.votes, Precommit, r).Some? ==> Majority(rs1.votes, Precommit, r) == Majority(rs.votes, Precommit, r))
  {
    hide EnterPropose;
    ProposeBounds(c, SetupRound(c, rs, r), r, e);
  }

  lemma ProposeBounds(c: Ctx, rs: RoundState, r: nat, e: Env)
    requires rs.step < COMMIT && !rs.status.Decided? && rs.round == r
    ensures var rs1 := EnterPropose(c, rs, r, e);
            rs1.step < COMMIT && !rs1.status.Decided? && rs1.round == r && rs1.votes == rs.votes
  {
    hide IsProposalComplete, PrevoteChoice;
  }

  lemma EnterPrecommitBounds(c: Ctx, rs: RoundState, r: nat, e: Env)
    requires rs.step < COMMIT && !rs.status.Decided? && r <= rs.round
    ensures var rs2 := EnterPrecommit(c, rs, r, e);
            rs2.step < COMMIT && !rs2.status.Decided? && rs2.votes == rs.votes && rs2.round == rs.round
  {
    hide Majority, PolRound;
  }

  lemma CommitStep(rs: RoundState, r: nat)
    requires rs.step < COMMIT && !rs.status.Decided?
    ensures var rs' := EnterCommit(rs, r);
            Majority(rs.votes, Precommit, r).Some? ==> rs'.status.Halted? || (rs'.step == COMMIT && rs'.commitRound == r)
  {
    hide Majority;
  }

  lemma WaitSet(c: Ctx, rs: RoundState, r: nat)
    ensures var rs' := EnterPrecommitWait(c, rs, r);
            && (rs.status.Running? && rs.round == r ==> rs'.status.Halted? || (rs'.round == r && rs'.triggeredPrecommitWait))
            && (!rs.status.Running? ==> rs' == rs)
  {
  }
}
