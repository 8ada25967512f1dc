/** `ConsensusState` as the object it is in the source: it embeds the `RoundState` struct, whose
    fields the `enterX` methods and the message handlers update in place.  Each method keeps the
    node invariant the agreement proof rests on, and takes the struct where the corresponding
    `Consensus` function takes it, so that the object's turns are steps of the network. */
module ConsensusNode {
  import opened Options
  import opened VotingPower
  import opened VoteSets
  import opened Consensus
  import opened ConsensusSafety

  class ConsensusState {
    const powers: seq<nat>
    const me: nat

    var rs: RoundState
    ghost var log: seq<Vote>   // every vote signed by anyone so far, but for the object's unsent ones

    ghost function Context(): Ctx {
      Ctx(powers, me)
    }

    ghost predicate Inv()
      reads this
    {
      MidInv(Context(), rs, log)
    }

    constructor (powers: seq<nat>, me: nat)
      ensures rs == NewHeightState(|powers|) && Context() == Ctx(powers, me)
      ensures log == [] && Inv()
    {
      EmptyIsValid(powers);
      this.powers, this.me := powers, me;
      rs, log := NewHeightState(|powers|), [];
    }

    /** Other validators sign votes. */
    ghost method OthersSign(more: seq<Vote>)
      requires Inv() && rs.out == [] && forall v <- more :: v.validator != me
      modifies this`log
      ensures Inv() && log == old(log) + more
    {
      hide NodeInv;
      assert log + rs.out == log;
      OthersVote(Context(), rs, log, more);
      log := log + more;
      assert log + rs.out == log;
    }

    method UpdateRoundStep(newRound: nat, newStep: nat)
      modifies this`rs
      ensures rs == old(rs).(round := newRound, step := newStep)
    {
      rs := rs.(round := newRound, step := newStep);
    }

    method SignAndAddVote(kind: VoteKind, block: BlockID, signs: bool, cross: bool)
      modifies this`rs
      ensures SignsFor(old(rs), rs, kind, old(rs).round)
      ensures rs == old(rs).(out := rs.out, status := rs.status)
      ensures |rs.out| > |old(rs).out| ==>
                && rs.out[|old(rs).out|].validator == me
                && (rs.out[|old(rs).out|].block.hash == block.hash
                    || (kind == Prevote && !cross && rs.out[|old(rs).out|].block.hash.None?))
      ensures rs == SignAddVote(Context(), old(rs), kind, block, signs, cross)
    {
      if me >= |powers| {
        return;
      }
      if kind == Prevote && block.hash.Some? && rs.proposalBlock.None? {
        rs := rs.(status := Halted);
        return;
      }
      if signs {
        var signed := block;
        if kind == Prevote && block.hash.Some? && !cross {
          signed := signed.(hash := None);
        }
        rs := rs.(out := rs.out + [Vote(kind, rs.round, signed, me)]);
      }
    }

    method EnterPrevoteStep(newRound: nat, e: Env)
      modifies this`rs
      ensures old(Inv()) && SignsLock(old(rs), e) && newRound <= old(rs).round ==>
                Inv() && Forward(old(rs), rs) && SignsFor(old(rs), rs, Prevote, newRound)
      ensures rs == EnterPrevote(Context(), old(rs), newRound, e)
    {
      hide NodeInv;
      if Inv() && SignsLock(rs, e) && newRound <= rs.round {
        EnterPrevoteKeeps(Context(), rs, newRound, e, log);
      }
      if !rs.status.Running? || newRound < rs.round || (rs.round == newRound && PREVOTE <= rs.step) {
        return;
      }
      DoPrevote(e);
      UpdateRoundStep(newRound, PREVOTE);
    }

    method DoPrevote(e: Env)
      modifies this`rs
      ensures SignsFor(old(rs), rs, Prevote, old(rs).round) && rs.lockedBlock == old(rs).lockedBlock
      ensures |rs.out| > |old(rs).out| && rs.lockedBlock.Some? && e.crossSigned ==>
                rs.out[|old(rs).out|].block.hash == rs.lockedBlock
      ensures rs == SignAddVote(Context(), old(rs), Prevote, PrevoteChoice(old(rs), e), e.signPrevote, e.crossSigned)
    {
      if rs.lockedBlock.Some? {
        SignAndAddVote(Prevote, BlockID(rs.lockedBlock, HeaderOf(rs.lockedParts)), e.signPrevote, e.crossSigned);
        return;
      }
      if rs.proposalBlock.None? || !e.blockValid || !e.txsSigned {
        SignAndAddVote(Prevote, NIL_BLOCK, e.signPrevote, e.crossSigned);
        return;
      }
      SignAndAddVote(Prevote, BlockID(rs.proposalBlock, HeaderOf(rs.proposalParts)), e.signPrevote, e.crossSigned);
    }

    method ScheduleTimeout(r: nat, s: nat)
      modifies this`rs
      ensures rs == old(rs).(timeouts := old(rs).timeouts + {Timeout(r, s)})
    {
      rs := rs.(timeouts := rs.timeouts + {Timeout(r, s)});
    }

    method ProposalIsComplete() returns (complete: bool)
      ensures complete == IsProposalComplete(rs)
    {
      if rs.proposal.None? || rs.proposalBlock.None? {
        return false;
      }
      if rs.proposal.value.polRound < 0 {
        return true;
      }
      complete := Majority(rs.votes, Prevote, rs.proposal.value.polRound).Some?;
    }

    method EnterProposeStep(newRound: nat, e: Env)
      modifies this`rs
      ensures old(Inv()) && (SignsLock(old(rs), e) || old(rs).proposal.None?) && newRound <= old(rs).round ==>
                Inv() && Forward(old(rs), rs) && SignsFor(old(rs), rs, Prevote, newRound)
      ensures rs == EnterPropose(Context(), old(rs), newRound, e)
    {
      hide EnterPrevote, NodeInv;
      if Inv() && (SignsLock(rs, e) || rs.proposal.None?) && newRound <= rs.round {
        EnterProposeKeeps(Context(), rs, newRound, e, log);
      }
      if !rs.status.Running? || newRound < rs.round || (rs.round == newRound && PROPOSE <= rs.step) {
        return;
      }
      ScheduleTimeout(newRound, PROPOSE);
      UpdateRoundStep(newRound, PROPOSE);
      var complete := ProposalIsComplete();
      if complete {
        EnterPrevoteStep(rs.round, e);
      }
    }

    method SetupRoundStep(newRound: nat)
      modifies this`rs
      ensures old(Inv()) && old(rs).status.Running?
              && (old(rs).round < newRound || (old(rs).round == newRound && old(rs).step == NEW_HEIGHT)) ==>
                Inv() && rs.status.Running? && rs.round == newRound
      ensures rs == SetupRound(Context(), old(rs), newRound)
    {
      hide SetRound, NodeInv;
      if Inv() && rs.status.Running? && (rs.round < newRound || (rs.round == newRound && rs.step == NEW_HEIGHT)) {
        SetupRoundKeeps(Context(), rs, newRound, log + rs.out);
      }
      rs := rs.(round := newRound, step := NEW_ROUND, triggeredPrecommitWait := false);
      if newRound != 0 {
        rs := rs.(proposal := None, proposalBlock := None, proposalParts := None);
      }
      if SetRoundPanics(rs.votes, newRound + 1) {
        rs := rs.(status := Halted);
      } else {
        rs := rs.(votes := SetRound(|powers|, rs.votes, newRound + 1));
      }
    }

    method EnterNewRoundStep(newRound: nat, e: Env)
      modifies this`rs
      ensures old(Inv()) && (SignsLock(old(rs), e) || old(rs).round < newRound) ==>
                Inv() && Forward(old(rs), rs) && SignsFor(old(rs), rs, Prevote, newRound)
      ensures rs == EnterNewRound(Context(), old(rs), newRound, e)
    {
      hide EnterPropose, SetupRound, NodeInv;
      if Inv() && (SignsLock(rs, e) || rs.round < newRound) {
        EnterNewRoundKeeps(Context(), rs, newRound, e, log);
      }
      if !rs.status.Running? || newRound < rs.round || (rs.round == newRound && rs.step != NEW_HEIGHT) {
        return;
      }
      SetupRoundStep(newRound);
      if e.waitForTxs && newRound == 0 {
        if e.emptyInterval {
          ScheduleTimeout(newRound, NEW_ROUND);
        }
      } else {
        EnterProposeStep(newRound, e);
      }
    }

    method EnterPrevoteWaitStep(newRound: nat)
      modifies this`rs
      ensures old(Inv()) && newRound <= old(rs).round ==> Inv() && Forward(old(rs), rs)
      ensures rs.out == old(rs).out
      ensures rs == EnterPrevoteWait(Context(), old(rs), newRound)
    {
      hide NodeInv;
      if Inv() && newRound <= rs.round {
        EnterPrevoteWaitKeeps(Context(), rs, newRound, log);
      }
      if !rs.status.Running? || newRound < rs.round || (rs.round == newRound && PREVOTE_WAIT <= rs.step) {
        return;
      }
      if !TwoThirdsAny(powers, rs.votes, Prevote, newRound) {
        rs := rs.(status := Halted);
        return;
      }
      ScheduleTimeout(newRound, PREVOTE_WAIT);
      UpdateRoundStep(newRound, PREVOTE_WAIT);
    }

    method UnlockBlock()
      modifies this`rs
      ensures rs == Unlock(old(rs))
    {
      rs := rs.(lockedRound := -1, lockedBlock := None, lockedParts := None);
    }

    /** Relock, lock or unlock on the round's polka, and choose the block to precommit. */
    method LockOnPolka(newRound: nat, polka: Option<BlockID>) returns (block: BlockID)
      modifies this`rs
      ensures old(Inv()) && old(rs).status.Running? && old(rs).step < PRECOMMIT && newRound == old(rs).round
              && polka == Majority(old(rs).votes, Prevote, newRound) ==>
                NodeInv(Context(), rs.(step := PRECOMMIT), log + rs.out)
      ensures rs.out == old(rs).out && rs.votes == old(rs).votes && rs.round == old(rs).round
      ensures block.hash.Some? ==> polka == Some(block) && rs.lockedBlock == block.hash && rs.lockedRound == newRound
      ensures LocksExactly(old(rs), newRound, polka, rs) && block == (if Knows(old(rs), polka) then polka.value else NIL_BLOCK)
      ensures (rs, block) == PrecommitLock(old(rs), newRound, polka)
    {
      hide NodeInv;
      if Inv() && rs.status.Running? && rs.step < PRECOMMIT && newRound == rs.round
         && polka == Majority(rs.votes, Prevote, newRound) {
        PrecommitChoiceKeeps(Context(), rs, log + rs.out);
      }
      if polka.None? {
        return NIL_BLOCK;
      }
      block := polka.value;
      if block.hash.None? {
        UnlockBlock();
        return NIL_BLOCK;
      }
      if HashesTo(rs.lockedBlock, block.hash) {
        rs := rs.(lockedRound := newRound);
        return;
      }
      if HashesTo(rs.proposalBlock, block.hash) {
        rs := rs.(lockedRound := newRound, lockedBlock := rs.proposalBlock, lockedParts := rs.proposalParts);
        return;
      }
      UnlockBlock();
      if !HasHeader(rs.proposalParts, block.parts) {
        rs := rs.(proposalBlock := None, proposalParts := Some(Parts(block.parts, false)));
      }
      return NIL_BLOCK;
    }

    method DoPrecommitVote(newRound: nat, e: Env)
      modifies this`rs
      ensures SignsFor(old(rs), rs, Precommit, old(rs).round)
      ensures |rs.out| > |old(rs).out| && rs.out[|old(rs).out|].block.hash.Some? ==>
                && Polka(old(rs).votes, newRound, rs.lockedBlock)
                && rs.lockedBlock == rs.out[|old(rs).out|].block.hash && rs.lockedRound == newRound
      ensures old(rs).status.Running? && rs.status.Running? ==>
                var polka := Majority(old(rs).votes, Prevote, newRound);
                && LocksExactly(old(rs), newRound, polka, rs)
                && Signs(Context(), old(rs), rs, e.signPrecommit, Precommit, if Knows(old(rs), polka) then polka.value else NIL_BLOCK)
      ensures old(Inv()) && old(rs).status.Running? && newRound == old(rs).round ==>
                var polka := Majority(old(rs).votes, Prevote, newRound);
                rs.status.Halted? <==> Knows(old(rs), polka) && old(rs).lockedBlock != polka.value.hash && !e.blockValid
      ensures rs == DoPrecommit(Context(), old(rs), newRound, e)
    {
      hide SignAddVote, PolRound, PrecommitLock, NodeInv, LocksExactly, Signs;
      if rs.status.Running? {
        DoPrecommitExactly(Context(), rs, newRound, e);
      }
      if Inv() && newRound == rs.round && Majority(rs.votes, Prevote, newRound).Some? {
        PolInfoIsCurrent(Context(), rs, log + rs.out);
      }
      var polka := Majority(rs.votes, Prevote, newRound);
      if polka.Some? && PolRound(rs.votes, rs.votes.round) < newRound {
        rs := rs.(status := Halted);
        return;
      }
      if polka.Some? && polka.value.hash.Some? && !HashesTo(rs.lockedBlock, polka.value.hash)
         && HashesTo(rs.proposalBlock, polka.value.hash) && !e.blockValid {
        rs := rs.(status := Halted);
        return;
      }
      var block := LockOnPolka(newRound, polka);
      SignAndAddVote(Precommit, block, e.signPrecommit, e.crossSigned);
    }

    method EnterPrecommitStep(newRound: nat, e: Env)
      modifies this`rs
      ensures old(Inv()) && newRound <= old(rs).round ==>
                Inv() && Forward(old(rs), rs) && SignsFor(old(rs), rs, Precommit, newRound)
      ensures rs == EnterPrecommit(Context(), old(rs), newRound, e)
    {
      hide DoPrecommit, NodeInv;
      if Inv() && newRound <= rs.round {
        EnterPrecommitKeeps(Context(), rs, newRound, e, log);
      }
      if !rs.status.Running? || newRound < rs.round || (rs.round == newRound && PRECOMMIT <= rs.step) {
        return;
      }
      DoPrecommitVote(newRound, e);
      UpdateRoundStep(newRound, PRECOMMIT);
    }

    method EnterPrecommitWaitStep(newRound: nat)
      modifies this`rs
      ensures old(Inv()) && newRound <= old(rs).round ==> Inv() && Forward(old(rs), rs)
      ensures rs.out == old(rs).out
      ensures rs == EnterPrecommitWait(Context(), old(rs), newRound)
    {
      hide NodeInv;
      if Inv() && newRound <= rs.round {
        EnterPrecommitWaitKeeps(Context(), rs, newRound, log);
      }
      if !rs.status.Running? || newRound < rs.round || (rs.round == newRound && rs.triggeredPrecommitWait) {
        return;
      }
      if !TwoThirdsAny(powers, rs.votes, Precommit, newRound) {
        rs := rs.(status := Halted);
        return;
      }
      ScheduleTimeout(newRound, PRECOMMIT_WAIT);
      rs := rs.(triggeredPrecommitWait := true);
    }

    method TryFinalize()
      modifies this`rs
      ensures old(Inv()) ==> Inv() && Forward(old(rs), rs)
      ensures rs == old(rs).(status := rs.status)
      ensures old(Inv()) && old(rs).status.Running? && rs.status.Decided? ==>
                HasQuorum(powers, log + rs.out, Precommit, rs.commitRound, Some(rs.status.hash))
      ensures rs == TryFinalizeCommit(old(rs))
    {
      hide NodeInv;
      if Inv() {
        TryFinalizeKeeps(Context(), rs, log + rs.out);
      }
      if !rs.status.Running? || rs.commitRound < 0 {
        return;
      }
      var commit := Majority(rs.votes, Precommit, rs.commitRound);
      if commit.None? || commit.value.hash.None? {
        return;
      }
      if !HashesTo(rs.proposalBlock, commit.value.hash) || rs.step != COMMIT {
        return;
      }
      if !HasHeader(rs.proposalParts, commit.value.parts) {
        rs := rs.(status := Halted);
        return;
      }
      rs := rs.(status := Decided(commit.value.hash.value));
    }

    method EnterCommitStep(newCommitRound: nat)
      modifies this`rs
      ensures old(Inv()) ==> Inv() && Forward(old(rs), rs)
      ensures rs.out == old(rs).out
      ensures old(rs).step < COMMIT <= rs.step ==>
                var commit := Majority(rs.votes, Precommit, newCommitRound);
                commit.Some? && (HashesTo(rs.proposalBlock, commit.value.hash) || HasHeader(rs.proposalParts, commit.value.parts))
      ensures rs == EnterCommit(old(rs), newCommitRound)
    {
      hide TryFinalizeCommit, NodeInv;
      if Inv() {
        EnterCommitKeeps(Context(), rs, newCommitRound, log);
      }
      if !rs.status.Running? || COMMIT <= rs.step {
        return;
      }
      var commit := Majority(rs.votes, Precommit, newCommitRound);
      if commit.None? {
        rs := rs.(status := Halted);
        return;
      }
      if HashesTo(rs.lockedBlock, commit.value.hash) {
        rs := rs.(proposalBlock := rs.lockedBlock, proposalParts := rs.lockedParts);
      }
      if !HashesTo(rs.proposalBlock, commit.value.hash) && !HasHeader(rs.proposalParts, commit.value.parts) {
        rs := rs.(proposalBlock := None, proposalParts := Some(Parts(commit.value.parts, false)));
      }
      UpdateRoundStep(rs.round, COMMIT);
      rs := rs.(commitRound := newCommitRound);
      TryFinalize();
    }

    method OnPolkaSeen(voteRound: nat, block: BlockID)
      modifies this`rs
      ensures old(Inv()) && Polka(old(rs).votes, voteRound, block.hash) ==> Inv() && Forward(old(rs), rs)
      ensures rs.lockedBlock == old(rs).lockedBlock || (rs.lockedBlock.None? && block.hash != old(rs).lockedBlock)
      ensures rs == OnPolka(old(rs), voteRound, block)
    {
      hide TrackValid, NodeInv;
      if Inv() && Polka(rs.votes, voteRound, block.hash) {
        OnPolkaKeeps(Context(), rs, voteRound, block, log + rs.out);
      }
      if rs.lockedBlock.Some? && rs.lockedRound < voteRound <= rs.round && !HashesTo(rs.lockedBlock, block.hash) {
        UnlockBlock();
      }
      UpdateValid(voteRound, block);
    }

    method UpdateValid(voteRound: nat, block: BlockID)
      modifies this`rs
      ensures old(Inv()) && Polka(old(rs).votes, voteRound, block.hash) ==> Inv()
      ensures rs.lockedBlock == old(rs).lockedBlock
      ensures rs.validBlock != old(rs).validBlock ==> rs.validBlock == block.hash && rs.validRound == voteRound == rs.round
      ensures rs == TrackValid(old(rs), voteRound, block)
    {
      hide NodeInv;
      if Inv() && Polka(rs.votes, voteRound, block.hash) {
        TrackValidKeeps(Context(), rs, voteRound, block, log + rs.out);
      }
      if block.hash.Some? && rs.validRound < voteRound && voteRound == rs.round {
        if HashesTo(rs.proposalBlock, block.hash) {
          rs := rs.(validRound := voteRound, validBlock := rs.proposalBlock, validParts := rs.proposalParts);
        } else {
          rs := rs.(proposalBlock := None);
        }
        if !HasHeader(rs.proposalParts, block.parts) {
          rs := rs.(proposalParts := Some(Parts(block.parts, false)));
        }
      }
    }

    method AddedPrevote(r: nat, e: Env)
      modifies this`rs
      ensures old(Inv()) && SignsLock(old(rs), e) ==> Inv() && Forward(old(rs), rs)
      ensures rs == AfterPrevote(Context(), old(rs), r, e)
    {
      hide EnterNewRound, EnterPrecommit, EnterPrevote, EnterPrevoteWait, OnPolka, IsProposalComplete, NodeInv;
      if Inv() && SignsLock(rs, e) {
        AfterPrevoteKeeps(Context(), rs, r, e, log);
      }
      var polka := Majority(rs.votes, Prevote, r);
      if polka.Some? {
        OnPolkaSeen(r, polka.value);
      }
      var complete := ProposalIsComplete();
      if rs.round < r && TwoThirdsAny(powers, rs.votes, Prevote, r) {
        EnterNewRoundStep(r, e);
      } else if rs.round == r && PREVOTE <= rs.step {
        if polka.Some? && (complete || polka.value.hash.None?) {
          EnterPrecommitStep(r, e);
        } else if TwoThirdsAny(powers, rs.votes, Prevote, r) {
          EnterPrevoteWaitStep(r);
        }
      } else if rs.proposal.Some? && rs.proposal.value.polRound == r && complete {
        EnterPrevoteStep(rs.round, e);
      }
    }

    method AddedPrecommit(r: nat, e: Env)
      modifies this`rs
      ensures old(Inv()) && SignsLock(old(rs), e) && old(rs).status.Running? ==> Inv() && Forward(old(rs), rs)
      ensures rs == AfterPrecommit(Context(), old(rs), r, e)
    {
      hide EnterNewRound, EnterPrecommit, EnterCommit, EnterPrecommitWait, NodeInv;
      if Inv() && SignsLock(rs, e) && rs.status.Running? {
        AfterPrecommitKeeps(Context(), rs, r, e, log);
      }
      var commit := Majority(rs.votes, Precommit, r);
      if commit.Some? {
        EnterNewRoundStep(r, e);
        EnterPrecommitStep(r, e);
        if commit.value.hash.Some? {
          EnterCommitStep(r);
        } else {
          EnterPrecommitWaitStep(r);
        }
      } else if rs.round <= r && TwoThirdsAny(powers, rs.votes, Precommit, r) {
        EnterNewRoundStep(r, e);
        EnterPrecommitWaitStep(r);
      }
    }

    method AddVoteMessage(vote: Vote, peer: Peer, e: Env)
      requires Sized(|powers|, rs.votes)
      modifies this`rs
      ensures old(Inv()) && SignsLock(old(rs), e) && vote in log ==> Inv() && Forward(old(rs), rs)
      ensures rs == HandleVote(Context(), old(rs), vote, peer, e)
    {
      hide AfterPrevote, AfterPrecommit, AddHeightVote, NodeInv;
      if Inv() && SignsLock(rs, e) && vote in log {
        HandleVoteKeeps(Context(), rs, vote, peer, e, log);
      }
      if !rs.status.Running? {
        return;
      }
      var r := AddHeightVote(powers, rs.votes, vote, peer);
      rs := rs.(votes := r.votes);
      if !r.added || (rs.proposalBlock.Some? && !e.checkpointMatches) {
        return;
      }
      if vote.kind == Prevote {
        AddedPrevote(vote.round, e);
      } else {
        AddedPrecommit(vote.round, e);
      }
    }

    method AddInvalidVote(r: nat, peer: Peer)
      modifies this`rs
      ensures old(Inv()) ==> Inv()
      ensures rs == old(rs).(votes := rs.votes)
      ensures forall k, x: nat :: Majority(rs.votes, k, x) == Majority(old(rs).votes, k, x)
      ensures rs == HandleInvalidVote(Context(), old(rs), r, peer)
    {
      hide NodeInv;
      if Inv() {
        HandleInvalidVoteKeeps(Context(), rs, r, peer, log);
      }
      if rs.status.Running? {
        rs := rs.(votes := RefuseVote(|powers|, rs.votes, r, peer));
      }
    }

    method OnTimeout(t: Timeout, e: Env)
      modifies this`rs
      ensures old(Inv()) && SignsLock(old(rs), e) && t in old(rs).timeouts ==> Inv() && Forward(old(rs), rs)
      ensures rs == HandleTimeout(Context(), old(rs), t, e)
    {
      hide EnterNewRound, EnterPropose, EnterPrevote, EnterPrecommit, NodeInv;
      if Inv() && SignsLock(rs, e) && t in rs.timeouts {
        HandleTimeoutKeeps(Context(), rs, t, e, log);
      }
      if !rs.status.Running? || t.round < rs.round || (t.round == rs.round && t.step < rs.step) {
        return;
      }
      if t.step == NEW_HEIGHT {
        EnterNewRoundStep(0, e);
      } else if t.step == NEW_ROUND {
        EnterProposeStep(0, e);
      } else if t.step == PROPOSE {
        EnterPrevoteStep(t.round, e);
      } else if t.step == PREVOTE_WAIT {
        EnterPrecommitStep(t.round, e);
      } else if t.step == PRECOMMIT_WAIT {
        EnterPrecommitStep(t.round, e);
        EnterNewRoundStep(t.round + 1, e);
      } else {
        rs := rs.(status := Halted);
      }
    }

    method OnTxsAvailable(e: Env)
      modifies this`rs
      ensures old(Inv()) && SignsLock(old(rs), e) ==> Inv() && Forward(old(rs), rs)
      ensures rs == HandleTxsAvailable(Context(), old(rs), e)
    {
      hide EnterNewRound, EnterPropose, NodeInv;
      if Inv() && SignsLock(rs, e) {
        HandleTxsAvailableKeeps(Context(), rs, e, log);
      }
      EnterNewRoundStep(0, e);
      EnterProposeStep(0, e);
    }

    method SetProposal(p: Proposal)
      modifies this`rs
      ensures old(Inv()) ==> Inv()
      ensures rs == old(rs).(proposal := rs.proposal, proposalParts := rs.proposalParts)
      ensures rs.proposal != old(rs).proposal ==>
                old(rs).proposal.None? && rs.proposal == Some(p) && p.round == rs.round && -1 <= p.polRound < rs.round
      ensures rs == HandleProposal(old(rs), p)
    {
      hide NodeInv;
      if Inv() {
        HandleProposalKeeps(Context(), rs, p, log);
      }
      if !rs.status.Running? || rs.proposal.Some? || p.round != rs.round {
        return;
      }
      if p.polRound < -1 || (p.polRound >= 0 && p.polRound >= p.round) {
        return;
      }
      rs := rs.(proposal := Some(p));
      if rs.proposalParts.None? {
        rs := rs.(proposalParts := Some(Parts(p.block.parts, false)));
      }
    }

    /** The last part arrived and decodes to `block`. */
    method CompleteBlock(block: Hash)
      requires rs.proposalParts.Some?
      modifies this`rs
      ensures old(Inv()) ==> Inv()
      ensures rs.validBlock != old(rs).validBlock ==>
                rs.validBlock == Some(block) && rs.validRound == rs.round && Polka(rs.votes, rs.round, Some(block))
      ensures rs == OnCompleteBlock(old(rs).(proposalParts := Some(old(rs).proposalParts.value.(complete := true)),
                                                       proposalBlock := Some(block)))
    {
      hide NodeInv;
      if Inv() {
        CompleteBlockKeeps(Context(), rs, block, log + rs.out);
      }
      rs := rs.(proposalParts := Some(rs.proposalParts.value.(complete := true)), proposalBlock := Some(block));
      var polka := Majority(rs.votes, Prevote, rs.round);
      if polka.Some? && !BlockIDIsZero(polka.value) && rs.validRound < rs.round && HashesTo(rs.proposalBlock, polka.value.hash) {
        rs := rs.(validRound := rs.round, validBlock := rs.proposalBlock, validParts := rs.proposalParts);
      }
    }

    method AddProposalBlockPart(part: PartEvent, e: Env)
      modifies this`rs
      ensures old(Inv()) && SignsLock(old(rs), e) ==> Inv() && Forward(old(rs), rs)
      ensures rs == HandlePart(Context(), old(rs), part, e)
    {
      hide EnterPrevote, EnterPrecommit, TryFinalizeCommit, IsProposalComplete, OnCompleteBlock, NodeInv;
      if Inv() && SignsLock(rs, e) {
        HandlePartKeeps(Context(), rs, part, e, log);
      }
      if !rs.status.Running? || rs.proposalParts.None? || rs.proposalParts.value.complete {
        return;
      }
      if part.DuplicatePart? || part.MorePart? {
        return;
      }
      if part.LastPartUndecodable? {
        rs := rs.(proposalParts := Some(rs.proposalParts.value.(complete := true)));
        return;
      }
      CompleteBlock(part.block);
      var polka := Majority(rs.votes, Prevote, rs.round);
      var complete := ProposalIsComplete();
      if rs.step <= PROPOSE && complete {
        EnterPrevoteStep(rs.round, e);
        if polka.Some? {
          EnterPrecommitStep(rs.round, e);
        }
      } else if rs.step == COMMIT {
        TryFinalize();
      }
    }

    method SetPeerMajority(kind: VoteKind, r: nat, peer: Peer, block: BlockID)
      modifies this`rs
      ensures old(Inv()) ==> Inv()
      ensures rs == old(rs).(votes := rs.votes)
      ensures forall k, x: nat :: Majority(rs.votes, k, x) == Majority(old(rs).votes, k, x)
      ensures rs == HandlePeerMaj23(old(rs), kind, r, peer, block)
    {
      hide NodeInv;
      if Inv() {
        HandlePeerMaj23Keeps(Context(), rs, kind, r, peer, block, log);
      }
      var vs := Get(rs.votes, kind, r);
      if vs.None? {
        return;
      }
      rs := rs.(votes := Put(rs.votes, kind, r, SetPeerMaj23(vs.value, peer, block)));
    }

    /** One turn of the receive routine: the object does what the network step does, sends what it
        signed, and keeps the node invariant. */
    method Receive(a: Action, e: Env)
      requires Inv() && rs.out == [] && Enabled(Context(), rs, a, log) && SignsLock(rs, e)
      modifies this
      ensures var after := React(Context(), old(rs), a, e, old(log));
              rs == after.(out := []) && log == old(log) + after.out
      ensures Inv() && Forward(old(rs), rs)
    {
      hide HandleVote, HandleInvalidVote, HandleTimeout, HandleTxsAvailable, HandleProposal, HandlePart, HandlePeerMaj23, NodeInv;
      assert log + rs.out == log;
      ReactKeeps(Context(), rs, a, e, log);
      match a {
        case DeliverVote(vote, peer) => AddVoteMessage(vote, peer, e);
        case DeliverInvalid(r, peer) => AddInvalidVote(r, peer);
        case Tick(t) => OnTimeout(t, e);
        case TxsAvailable => OnTxsAvailable(e);
        case DeliverProposal(p) => SetProposal(p);
        case DeliverPart(p) => AddProposalBlockPart(p, e);
        case ClaimMaj23(kind, r, peer, block) => SetPeerMajority(kind, r, peer, block);
      }
      ForgetOut(Context(), rs, log + rs.out);
      log := log + rs.out;
      rs := rs.(out := []);
      assert log + rs.out == log;
    }
  }
}
