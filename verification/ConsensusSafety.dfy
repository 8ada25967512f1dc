/** Safety of the height's state machine over every interleaving: a network of nodes running
    `Consensus`, an append-only log of every vote signed, and validators outside `nodes` that
    sign what they like. */
module ConsensusSafety {
  import opened Options
  import opened VotingPower
  import opened VoteSets
  import opened Consensus

  // ----- quorums in the log ----------------------------------------------------------------------

  predicate IsVote(v: Vote, kind: VoteKind, round: int, hash: Option<Hash>) {
    v.kind == kind && v.round == round && v.block.hash == hash
  }

  function Voters(log: seq<Vote>, kind: VoteKind, round: int, hash: Option<Hash>): set<nat> {
    set i | 0 <= i < |log| && IsVote(log[i], kind, round, hash) :: log[i].validator
  }

  ghost predicate HasQuorum(powers: seq<nat>, log: seq<Vote>, kind: VoteKind, round: int, hash: Option<Hash>) {
    Tally(powers, Voters(log, kind, round, hash)) >= Quorum(powers)
  }

  /** A prevote quorum for something other than `b` in a round of `(lo, hi]`. */
  ghost predicate OtherPolka(powers: seq<nat>, log: seq<Vote>, b: Hash, lo: int, hi: int) {
    exists r: int, h: Option<Hash> :: lo < r <= hi && h != Some(b) && HasQuorum(powers, log, Prevote, r, h)
  }

  /** The node's own vote sets report a prevote majority for `hash` in the round. */
  ghost predicate Polka(h: HeightVoteSet, round: int, hash: Option<Hash>) {
    round >= 0 && Majority(h, Prevote, round).Some? && Majority(h, Prevote, round).value.hash == hash
  }

  /** The node's own vote sets hold a polka for something other than `b` in a round of `(lo, hi]`. */
  ghost predicate HoldsOther(h: HeightVoteSet, b: Hash, lo: int, hi: int) {
    exists r: int, x: Option<Hash> :: lo < r <= hi && x != Some(b) && Polka(h, r, x)
  }

  /** No reported prevote majority is lost or changed. */
  ghost predicate Grows(h: HeightVoteSet, h': HeightVoteSet) {
    forall r: nat :: Majority(h, Prevote, r).Some? ==> Majority(h', Prevote, r) == Majority(h, Prevote, r)
  }

  lemma QuorumMonotone(powers: seq<nat>, log: seq<Vote>, more: seq<Vote>, kind: VoteKind, round: int, hash: Option<Hash>)
    requires HasQuorum(powers, log, kind, round, hash)
    ensures HasQuorum(powers, log + more, kind, round, hash)
  {
    var l := log + more;
    forall i | 0 <= i < |log| && IsVote(log[i], kind, round, hash) ensures log[i].validator in Voters(l, kind, round, hash) {
      assert l[i] == log[i];
    }
    TallyMonotone(powers, Voters(log, kind, round, hash), Voters(l, kind, round, hash), |powers|);
  }

  lemma HoldsOtherGrows(h: HeightVoteSet, h': HeightVoteSet, b: Hash, lo: int, hi: int, hi': int)
    requires HoldsOther(h, b, lo, hi) && Grows(h, h') && hi <= hi'
    ensures HoldsOther(h', b, lo, hi')
  {
    var r: int, x: Option<Hash> :| lo < r <= hi && x != Some(b) && Polka(h, r, x);
    assert Polka(h', r, x);
  }

  // ----- the invariant of one honest node ----------------------------------------------------------

  function Rank(round: int, step: int): int { 10 * round + step }

  function VoteRank(v: Vote): int {
    Rank(v.round, if v.kind == Prevote then PREVOTE else PRECOMMIT)
  }

  /** Fields that belong together, the rounds they refer to, and the timeouts that end a wait. */
  ghost predicate Shape(rs: RoundState) {
    && NEW_HEIGHT <= rs.step <= COMMIT
    && (rs.lockedBlock.None? <==> rs.lockedRound == -1)
    && -1 <= rs.lockedRound <= rs.round
    && (rs.step < PRECOMMIT ==> rs.lockedRound < rs.round)
    && (forall t <- rs.timeouts :: t.round <= rs.round)
    && (rs.step == NEW_HEIGHT ==> rs.votes.round == 0)
    && (rs.votes.round == 0 ==> rs.round == 0)
    && (rs.votes.round != 0 ==> rs.votes.round == rs.round + 1)
    && (rs.step in {NEW_HEIGHT, PROPOSE, PREVOTE_WAIT} ==> Timeout(rs.round, rs.step) in rs.timeouts)
    && (rs.triggeredPrecommitWait ==> Timeout(rs.round, PRECOMMIT_WAIT) in rs.timeouts)
  }

  ghost predicate SetSeen(vs: VoteSet, kind: VoteKind, round: nat, log: seq<Vote>) {
    forall b, v :: b in vs.byBlock && v in vs.byBlock[b].voters ==> Vote(kind, round, b, v) in log
  }

  /** The node's vote sets are well formed and hold only votes that were signed. */
  ghost predicate Seen(powers: seq<nat>, h: HeightVoteSet, log: seq<Vote>) {
    && ValidHeight(powers, h)
    && forall r <- h.sets :: SetSeen(h.sets[r].prevotes, Prevote, r, log) && SetSeen(h.sets[r].precommits, Precommit, r, log)
  }

  /** The node's own votes come in rank order, none beyond where it is. */
  ghost predicate OwnVotesOrdered(me: nat, rs: RoundState, log: seq<Vote>) {
    && (forall i :: 0 <= i < |log| && log[i].validator == me ==> VoteRank(log[i]) <= Rank(rs.round, rs.step))
    && (forall i, j :: 0 <= i < j < |log| && log[i].validator == me && log[j].validator == me
                       ==> VoteRank(log[i]) < VoteRank(log[j]))
  }

  predicate BlockPrecommit(v: Vote, me: nat) {
    v.validator == me && v.kind == Precommit && v.block.hash.Some?
  }

  ghost predicate StillHeld(rs: RoundState, v: Vote)
    requires v.block.hash.Some?
  {
    || (rs.lockedBlock == v.block.hash && rs.lockedRound >= v.round)
    || HoldsOther(rs.votes, v.block.hash.value, v.round, rs.round)
  }

  /** The node holds the polka of its lock, and every block it precommitted is still locked or was
      outvoted before its eyes. */
  ghost predicate LockKept(me: nat, rs: RoundState, log: seq<Vote>) {
    && (rs.lockedBlock.Some? ==> Polka(rs.votes, rs.lockedRound, rs.lockedBlock))
    && (forall i :: 0 <= i < |log| && BlockPrecommit(log[i], me) ==> StillHeld(rs, log[i]))
  }

  /** For each prevote against a block it precommitted, the node holds a polka from in between. */
  ghost predicate Accounted(me: nat, rs: RoundState, log: seq<Vote>) {
    forall i, j :: 0 <= i < j < |log| && BlockPrecommit(log[i], me)
                   && log[j].validator == me && log[j].kind == Prevote && log[j].block.hash != log[i].block.hash ==>
      HoldsOther(rs.votes, log[i].block.hash.value, log[i].round, log[j].round)
  }

  /** Each vote of the node was justified by the log as it stood when the vote was signed. */
  ghost predicate Justified(powers: seq<nat>, me: nat, log: seq<Vote>) {
    && (forall i :: 0 <= i < |log| && BlockPrecommit(log[i], me) ==>
          HasQuorum(powers, log[..i], Prevote, log[i].round, log[i].block.hash))
    && (forall i, j :: 0 <= i < j < |log| && BlockPrecommit(log[i], me)
                       && log[j].validator == me && log[j].kind == Prevote && log[j].block.hash != log[i].block.hash ==>
          OtherPolka(powers, log[..j], log[i].block.hash.value, log[i].round, log[j].round))
  }

  /** The valid block and its round are set together, and the node holds that round's polka for it. */
  ghost predicate ValidHeld(rs: RoundState) {
    && (rs.validBlock.None? <==> rs.validRound == -1)
    && -1 <= rs.validRound <= rs.round
    && (rs.validBlock.Some? ==> Polka(rs.votes, rs.validRound, rs.validBlock))
  }

  ghost predicate DecisionBacked(powers: seq<nat>, rs: RoundState, log: seq<Vote>) {
    rs.status.Decided? ==> exists r: int :: HasQuorum(powers, log, Precommit, r, Some(rs.status.hash))
  }

  ghost predicate NodeInv(c: Ctx, rs: RoundState, log: seq<Vote>) {
    && Shape(rs)
    && Seen(c.powers, rs.votes, log)
    && OwnVotesOrdered(c.me, rs, log)
    && LockKept(c.me, rs, log)
    && ValidHeld(rs)
    && Accounted(c.me, rs, log)
    && Justified(c.powers, c.me, log)
    && DecisionBacked(c.powers, rs, log)
  }

  // ----- elementary steps ----------------------------------------------------------------------------

  lemma SeenMore(powers: seq<nat>, h: HeightVoteSet, log: seq<Vote>, more: seq<Vote>)
    requires Seen(powers, h, log)
    ensures Seen(powers, h, log + more)
  {
    hide ValidHeight;
  }

  /** The log grows by votes of others: nothing a node relies on is lost. */
  lemma OthersVote(c: Ctx, rs: RoundState, log: seq<Vote>, more: seq<Vote>)
    requires NodeInv(c, rs, log)
    requires forall v <- more :: v.validator != c.me
    ensures NodeInv(c, rs, log + more)
  {
    hide HasQuorum, HoldsOther, OtherPolka, Seen, Polka, Shape;
    var l := log + more;
    SeenMore(c.powers, rs.votes, log, more);
    forall i | 0 <= i < |l| && l[i].validator == c.me ensures i < |log| && l[i] == log[i] && l[..i] == log[..i] {
    }
    if rs.status.Decided? {
      var r: int :| HasQuorum(c.powers, log, Precommit, r, Some(rs.status.hash));
      QuorumMonotone(c.powers, log, more, Precommit, r, Some(rs.status.hash));
    }
  }

  /** A reported majority is a quorum of signed votes. */
  lemma MajorityIsQuorum(c: Ctx, rs: RoundState, log: seq<Vote>, kind: VoteKind, round: nat)
    requires Seen(c.powers, rs.votes, log)
    requires Majority(rs.votes, kind, round).Some?
    ensures HasQuorum(c.powers, log, kind, round, Majority(rs.votes, kind, round).value.hash)
  {
    var vs := Get(rs.votes, kind, round).value;
    var b := vs.maj23.value;
    forall v | v in vs.byBlock[b].voters ensures v in Voters(log, kind, round, b.hash) {
      assert Vote(kind, round, b, v) in log;
    }
    TallyMonotone(c.powers, vs.byBlock[b].voters, Voters(log, kind, round, b.hash), |c.powers|);
  }

  /** What the node holds was signed. */
  lemma HeldIsLogged(c: Ctx, rs: RoundState, log: seq<Vote>, b: Hash, lo: int, hi: int)
    requires Seen(c.powers, rs.votes, log) && HoldsOther(rs.votes, b, lo, hi)
    ensures OtherPolka(c.powers, log, b, lo, hi)
  {
    hide Seen;
    var r: int, x: Option<Hash> :| lo < r <= hi && x != Some(b) && Polka(rs.votes, r, x);
    MajorityIsQuorum(c, rs, log, Prevote, r);
  }

  /** The node moves forward in (round, step) without signing, its vote sets perhaps growing. */
  lemma MoveForward(c: Ctx, rs: RoundState, rs': RoundState, log: seq<Vote>)
    requires NodeInv(c, rs, log)
    requires Shape(rs') && Seen(c.powers, rs'.votes, log) && Grows(rs.votes, rs'.votes)
    requires rs'.lockedRound == rs.lockedRound && rs'.lockedBlock == rs.lockedBlock
    requires (rs'.validRound == rs.validRound && rs'.validBlock == rs.validBlock) || ValidHeld(rs')
    requires Rank(rs.round, rs.step) <= Rank(rs'.round, rs'.step) && rs.round <= rs'.round
    requires DecisionBacked(c.powers, rs', log)
    ensures NodeInv(c, rs', log)
  {
    hide Seen, Justified, DecisionBacked, HoldsOther;
    forall i | 0 <= i < |log| && BlockPrecommit(log[i], c.me) ensures StillHeld(rs', log[i]) {
      assert StillHeld(rs, log[i]);
      if !(rs.lockedBlock == log[i].block.hash && rs.lockedRound >= log[i].round) {
        HoldsOtherGrows(rs.votes, rs'.votes, log[i].block.hash.value, log[i].round, rs.round, rs'.round);
      }
    }
    forall i, j | 0 <= i < j < |log| && BlockPrecommit(log[i], c.me)
                  && log[j].validator == c.me && log[j].kind == Prevote && log[j].block.hash != log[i].block.hash
      ensures HoldsOther(rs'.votes, log[i].block.hash.value, log[i].round, log[j].round)
    {
      HoldsOtherGrows(rs.votes, rs'.votes, log[i].block.hash.value, log[i].round, log[j].round, log[j].round);
    }
  }

  /** The lock moves to `rs'`'s (possibly none) on a polka of a round after the old lock. */
  lemma Relock(c: Ctx, rs: RoundState, rs': RoundState, log: seq<Vote>, r: int, h: Option<Hash>)
    requires NodeInv(c, rs, log)
    requires Polka(rs.votes, r, h) && rs.lockedRound < r <= rs.round
    requires Shape(rs') && rs'.votes == rs.votes && rs'.round == rs.round && rs'.status == rs.status
    requires rs'.validRound == rs.validRound && rs'.validBlock == rs.validBlock
    requires Rank(rs.round, rs.step) <= Rank(rs'.round, rs'.step)
    requires (rs'.lockedBlock.None? && rs.lockedBlock != h) || (rs'.lockedBlock == h && rs'.lockedRound == r)
    ensures NodeInv(c, rs', log)
  {
    hide Seen, Justified, Polka;
    forall i | 0 <= i < |log| && BlockPrecommit(log[i], c.me) ensures StillHeld(rs', log[i]) {
      var v := log[i];
      assert StillHeld(rs, v);
      if rs.lockedBlock == v.block.hash && rs.lockedRound >= v.round {
        if h != v.block.hash {
          assert HoldsOther(rs.votes, v.block.hash.value, v.round, rs.round);
        }
      }
    }
  }

  /** The node, already at its new step, signs a vote it may sign. */
  lemma SignOwn(c: Ctx, rs: RoundState, log: seq<Vote>, v: Vote)
    requires NodeInv(c, rs, log)
    requires v.validator == c.me && v.round == rs.round && VoteRank(v) <= Rank(rs.round, rs.step)
    requires forall i :: 0 <= i < |log| && log[i].validator == c.me ==> VoteRank(log[i]) < VoteRank(v)
    requires v.kind == Prevote && rs.lockedBlock.Some? ==> v.block.hash == rs.lockedBlock
    requires v.kind == Precommit && v.block.hash.Some? ==> v.block.hash == rs.lockedBlock && rs.lockedRound == rs.round
    ensures NodeInv(c, rs, log + [v])
  {
    hide HasQuorum, HoldsOther, OtherPolka, ValidHeight;
    var l := log + [v];
    forall i | 0 <= i <= |log| ensures l[..i] == log[..i] {}
    assert l[..|log|] == log;
    if BlockPrecommit(v, c.me) {
      MajorityIsQuorum(c, rs, log, Prevote, rs.round);
    }
    if v.kind == Prevote {
      forall i | 0 <= i < |log| && BlockPrecommit(l[i], c.me) && v.block.hash != l[i].block.hash
        ensures HoldsOther(rs.votes, l[i].block.hash.value, l[i].round, v.round)
        ensures OtherPolka(c.powers, log, l[i].block.hash.value, l[i].round, v.round)
      {
        assert StillHeld(rs, log[i]);
        HeldIsLogged(c, rs, log, l[i].block.hash.value, l[i].round, v.round);
      }
    }
    assert Seen(c.powers, rs.votes, l);
    if rs.status.Decided? {
      var r: int :| HasQuorum(c.powers, log, Precommit, r, Some(rs.status.hash));
      QuorumMonotone(c.powers, log, [v], Precommit, r, Some(rs.status.hash));
    }
  }

  // ----- enterX --------------------------------------------------------------------------------------

  /** The invariant of a node in the middle of a step: its unsent votes count as logged. */
  ghost predicate MidInv(c: Ctx, rs: RoundState, log: seq<Vote>) {
    NodeInv(c, rs, log + rs.out) && forall v <- rs.out :: v.validator == c.me
  }

  /** (Round, step) does not go back. */
  predicate Forward(rs: RoundState, rs': RoundState) {
    rs.round <= rs'.round && Rank(rs.round, rs.step) <= Rank(rs'.round, rs'.step)
  }

  /** Nothing is signed, or one vote for exactly the round being entered. */
  predicate SignsFor(rs: RoundState, rs': RoundState, kind: VoteKind, round: nat) {
    || rs'.out == rs.out
    || (|rs'.out| == |rs.out| + 1 && rs'.out[..|rs.out|] == rs.out
        && rs'.out[|rs.out|].kind == kind && rs'.out[|rs.out|].round == round)
  }

  /** A node that is locked has its cross-shard signatures succeed: failing, it would prevote
      against its lock. */
  predicate SignsLock(rs: RoundState, e: Env) {
    rs.lockedBlock.Some? ==> e.crossSigned
  }

  lemma SignAddVoteKeeps(c: Ctx, rs: RoundState, rs': RoundState, log: seq<Vote>, kind: VoteKind, block: BlockID, signs: bool, cross: bool)
    requires MidInv(c, rs', log) && rs'.out == rs.out && rs'.status.Running?
    requires rs.round == rs'.round && OwnVotesOrdered(c.me, rs, log + rs.out)
    requires Rank(rs.round, rs.step) < VoteRank(Vote(kind, rs.round, block, c.me)) <= Rank(rs'.round, rs'.step)
    requires kind == Prevote && rs'.lockedBlock.Some? ==> cross && block.hash == rs'.lockedBlock
    requires kind == Precommit && block.hash.Some? ==> block.hash == rs'.lockedBlock && rs'.lockedRound == rs'.round
    ensures MidInv(c, SignAddVote(c, rs', kind, block, signs, cross), log)
    ensures Forward(rs', SignAddVote(c, rs', kind, block, signs, cross))
    ensures SignsFor(rs, SignAddVote(c, rs', kind, block, signs, cross), kind, rs.round)
  {
    hide Seen, LockKept, Accounted, Justified;
    var signed := SignAddVote(c, rs', kind, block, signs, cross);
    var v := Vote(kind, rs.round, SignedBlock(kind, block, cross), c.me);
    var l := log + rs.out;
    if signed.out != rs.out {
      assert log + signed.out == l + [v];
      SignOwn(c, rs', l, v);
      MoveForward(c, rs', signed, l + [v]);
    } else {
      MoveForward(c, rs', signed, l);
    }
  }

  lemma EnterPrevoteKeeps(c: Ctx, rs: RoundState, round: nat, e: Env, log: seq<Vote>)
    requires SignsLock(rs, e)
    requires MidInv(c, rs, log) && round <= rs.round
    ensures MidInv(c, EnterPrevote(c, rs, round, e), log) && EnterPrevote(c, rs, round, e).round == rs.round
    ensures EnterPrevote(c, rs, round, e).lockedBlock == rs.lockedBlock
    ensures SignsFor(rs, EnterPrevote(c, rs, round, e), Prevote, round)
    ensures Forward(rs, EnterPrevote(c, rs, round, e))
  {
    hide LockKept, Accounted, Justified, OwnVotesOrdered, Seen;
    if rs.status.Running? && round == rs.round && rs.step < PREVOTE {
      var rs1 := rs.(step := PREVOTE);
      MoveForward(c, rs, rs1, log + rs.out);
      var b := PrevoteChoice(rs, e);
      SignAddVoteKeeps(c, rs, rs1, log, Prevote, b, e.signPrevote, e.crossSigned);
      assert SignAddVote(c, rs1, Prevote, b, e.signPrevote, e.crossSigned)
          == SignAddVote(c, rs, Prevote, b, e.signPrevote, e.crossSigned).(round := round, step := PREVOTE);
    }
  }

  lemma EnterProposeKeeps(c: Ctx, rs: RoundState, round: nat, e: Env, log: seq<Vote>)
    requires SignsLock(rs, e) || rs.proposal.None?
    requires MidInv(c, rs, log) && round <= rs.round
    ensures MidInv(c, EnterPropose(c, rs, round, e), log) && EnterPropose(c, rs, round, e).round == rs.round
    ensures EnterPropose(c, rs, round, e).lockedBlock == rs.lockedBlock
    ensures SignsFor(rs, EnterPropose(c, rs, round, e), Prevote, round)
    ensures Forward(rs, EnterPropose(c, rs, round, e))
  {
    hide EnterPrevote, Seen;
    if rs.status.Running? && round == rs.round && rs.step < PROPOSE {
      var rs1 := rs.(timeouts := rs.timeouts + {Timeout(round, PROPOSE)}, round := round, step := PROPOSE);
      MoveForward(c, rs, rs1, log + rs.out);
      if IsProposalComplete(rs1) {
        EnterPrevoteKeeps(c, rs1, rs1.round, e, log);
      }
    }
  }

  lemma SetRoundSeen(powers: seq<nat>, h: HeightVoteSet, round: nat, log: seq<Vote>)
    requires Seen(powers, h, log)
    ensures Seen(powers, SetRound(|powers|, h, round), log)
  {
    hide Valid;
    SetRoundKeepsValid(powers, h, round);
    var h' := SetRound(|powers|, h, round);
    forall r | r in h'.sets
      ensures SetSeen(h'.sets[r].prevotes, Prevote, r, log) && SetSeen(h'.sets[r].precommits, Precommit, r, log)
    {
      assert r in h.sets || h'.sets[r] == EmptyRound(|powers|);
    }
  }

  lemma SetRoundGrows(powers: seq<nat>, h: HeightVoteSet, round: nat)
    ensures Grows(h, SetRound(|powers|, h, round))
  {
  }

  /** Any round at or ahead of the node may be entered; a later round starts without a proposal,
      so it is not prevoted yet. */
  lemma EnterNewRoundKeeps(c: Ctx, rs: RoundState, round: nat, e: Env, log: seq<Vote>)
    requires SignsLock(rs, e) || rs.round < round
    requires MidInv(c, rs, log)
    ensures MidInv(c, EnterNewRound(c, rs, round, e), log)
    ensures Forward(rs, EnterNewRound(c, rs, round, e))
    ensures EnterNewRound(c, rs, round, e).lockedBlock == rs.lockedBlock
    ensures SignsFor(rs, EnterNewRound(c, rs, round, e), Prevote, round)
    ensures rs.status.Running? ==> round <= EnterNewRound(c, rs, round, e).round
  {
    hide SetupRound, EnterPropose, SetRoundPanics;
    if rs.status.Running? && (rs.round < round || (rs.round == round && rs.step == NEW_HEIGHT)) {
      SetupRoundKeeps(c, rs, round, log + rs.out);
      var rs1 := SetupRound(c, rs, round);
      if e.waitForTxs && round == 0 {
        MoveForward(c, rs1, EnterNewRound(c, rs, round, e), log + rs.out);
      } else {
        EnterProposeKeeps(c, rs1, round, e, log);
      }
    }
  }

  /** The `SetRound` panic is unreachable. */
  lemma SetupRoundKeeps(c: Ctx, rs: RoundState, round: nat, l: seq<Vote>)
    requires NodeInv(c, rs, l) && rs.status.Running?
    requires rs.round < round || (rs.round == round && rs.step == NEW_HEIGHT)
    ensures var rs' := SetupRound(c, rs, round);
            && NodeInv(c, rs', l) && rs'.status.Running? && rs'.round == round && rs'.out == rs.out
            && rs'.lockedBlock == rs.lockedBlock && (rs.round < round ==> rs'.proposal.None?)
    ensures !SetRoundPanics(rs.votes, round + 1)
  {
    hide LockKept, Accounted, Justified, OwnVotesOrdered, Seen, Grows, AddRounds;
    var rs1 := SetupRound(c, rs, round);
    SetRoundSeen(c.powers, rs.votes, round + 1, l);
    SetRoundGrows(c.powers, rs.votes, round + 1);
    MoveForward(c, rs, rs1, l);
  }

  lemma EnterPrevoteWaitKeeps(c: Ctx, rs: RoundState, round: nat, log: seq<Vote>)
    requires MidInv(c, rs, log) && round <= rs.round
    ensures MidInv(c, EnterPrevoteWait(c, rs, round), log)
    ensures Forward(rs, EnterPrevoteWait(c, rs, round))
  {
    hide LockKept, Accounted, Justified, OwnVotesOrdered, Seen;
    MoveForward(c, rs, EnterPrevoteWait(c, rs, round), log + rs.out);
  }

  lemma EnterPrecommitWaitKeeps(c: Ctx, rs: RoundState, round: nat, log: seq<Vote>)
    requires MidInv(c, rs, log) && round <= rs.round
    ensures MidInv(c, EnterPrecommitWait(c, rs, round), log)
    ensures Forward(rs, EnterPrecommitWait(c, rs, round))
  {
    hide LockKept, Accounted, Justified, OwnVotesOrdered, Seen;
    MoveForward(c, rs, EnterPrecommitWait(c, rs, round), log + rs.out);
  }

  /** The lock of `enterPrecommit` together with the deferred step update. */
  function PrecommitChoice(rs: RoundState, maj: Option<BlockID>): (RoundState, BlockID) {
    var (rs1, b) := PrecommitLock(rs, rs.round, maj);
    (rs1.(step := PRECOMMIT), b)
  }

  /** The polka is for the block the node has locked or proposed. */
  predicate Knows(rs: RoundState, polka: Option<BlockID>) {
    polka.Some? && polka.value.hash.Some? && polka.value.hash in {rs.lockedBlock, rs.proposalBlock}
  }

  /** What a polka, or the lack of one, does to a node's lock and to the block it collects: it locks what it
      knows, keeps its lock without a polka, and on any other polka gives it up and fetches the block. */
  predicate LocksExactly(rs: RoundState, round: nat, polka: Option<BlockID>, rs': RoundState) {
    && (Knows(rs, polka) ==>
          && rs'.lockedBlock == polka.value.hash && rs'.lockedRound == round
          && rs'.lockedParts == (if rs.lockedBlock == polka.value.hash then rs.lockedParts else rs.proposalParts))
    && (polka.None? ==> rs'.lockedBlock == rs.lockedBlock && rs'.lockedRound == rs.lockedRound && rs'.lockedParts == rs.lockedParts)
    && (polka.Some? && !Knows(rs, polka) ==>
          && rs'.lockedBlock.None? && rs'.lockedRound == -1 && rs'.lockedParts.None?
          && (polka.value.hash.Some? ==> HasHeader(rs'.proposalParts, polka.value.parts)))
    && (polka.None? || polka.value.hash.None? || Knows(rs, polka) ==>
          rs'.proposalBlock == rs.proposalBlock && rs'.proposalParts == rs.proposalParts)
  }

  /** A step signs one vote, if the node is a validator and its signer signs. */
  predicate Signs(c: Ctx, rs: RoundState, rs': RoundState, signs: bool, kind: VoteKind, block: BlockID) {
    rs'.out == rs.out + (if c.me < |c.powers| && signs then [Vote(kind, rs.round, block, c.me)] else [])
  }

  lemma PrecommitLockExactly(rs: RoundState, round: nat, polka: Option<BlockID>)
    ensures var (rs', b) := PrecommitLock(rs, round, polka);
            && LocksExactly(rs, round, polka, rs') && b == (if Knows(rs, polka) then polka.value else NIL_BLOCK)
            && rs'.status == rs.status && rs'.out == rs.out && rs'.round == rs.round && rs'.step == rs.step
  {
  }

  /** A running node halts exactly where `POLInfo` is behind or on a polka for a proposed block, other than
      its lock, that does not validate; otherwise it locks and precommits exactly what it knows a polka for. */
  lemma DoPrecommitExactly(c: Ctx, rs: RoundState, round: nat, e: Env)
    requires rs.status.Running?
    ensures var polka, rs' := Majority(rs.votes, Prevote, round), DoPrecommit(c, rs, round, e);
            var behind := polka.Some? && PolRound(rs.votes, rs.votes.round) < round;
            && (rs'.status.Halted? <==> behind || (Knows(rs, polka) && rs.lockedBlock != polka.value.hash && !e.blockValid))
            && (rs'.status.Running? ==>
                  && LocksExactly(rs, round, polka, rs')
                  && Signs(c, rs, rs', e.signPrecommit, Precommit, if Knows(rs, polka) then polka.value else NIL_BLOCK))
            && rs'.round == rs.round && rs'.step == rs.step
  {
    hide Majority, PolRound, PrecommitLock;
    PrecommitLockExactly(rs, round, Majority(rs.votes, Prevote, round));
  }

  lemma PrecommitChoiceKeeps(c: Ctx, rs: RoundState, l: seq<Vote>)
    requires NodeInv(c, rs, l) && rs.status.Running? && rs.step < PRECOMMIT
    ensures var maj := Majority(rs.votes, Prevote, rs.round);
            var (rs', b) := PrecommitChoice(rs, maj);
            && NodeInv(c, rs', l)
            && LocksExactly(rs, rs.round, maj, rs') && b == (if Knows(rs, maj) then maj.value else NIL_BLOCK)
            && (b.hash.Some? ==> b.hash == rs'.lockedBlock && rs'.lockedRound == rs'.round)
  {
    hide LockKept, Accounted, Justified, OwnVotesOrdered, Seen;
    var maj := Majority(rs.votes, Prevote, rs.round);
    var (rs', b) := PrecommitChoice(rs, maj);
    PrecommitChoiceShape(rs, maj);
    if maj.None? || (maj.value.hash.None? && rs.lockedBlock.None?) {
      MoveForward(c, rs, rs', l);
    } else {
      Relock(c, rs, rs', l, rs.round, maj.value.hash);
    }
  }

  lemma PrecommitChoiceShape(rs: RoundState, maj: Option<BlockID>)
    requires Shape(rs) && rs.step < PRECOMMIT
    ensures var (rs', b) := PrecommitChoice(rs, maj);
            && Shape(rs') && rs'.votes == rs.votes && rs'.round == rs.round && rs'.status == rs.status && rs'.step == PRECOMMIT
            && rs'.out == rs.out && rs'.validRound == rs.validRound && rs'.validBlock == rs.validBlock
            && (b.hash.Some? ==> b.hash == rs'.lockedBlock && rs'.lockedRound == rs'.round)
            && (maj.None? || (maj.value.hash.None? && rs.lockedBlock.None?)
                ==> rs'.lockedRound == rs.lockedRound && rs'.lockedBlock == rs.lockedBlock)
            && (maj.Some? && !(maj.value.hash.None? && rs.lockedBlock.None?)
                ==> || (rs'.lockedBlock.None? && rs.lockedBlock != maj.value.hash)
                    || (rs'.lockedBlock == maj.value.hash && rs'.lockedRound == rs.round))
  {
  }

  /** The `POLInfo` panic of `enterPrecommit` is unreachable. */
  lemma PolInfoIsCurrent(c: Ctx, rs: RoundState, l: seq<Vote>)
    requires NodeInv(c, rs, l) && Majority(rs.votes, Prevote, rs.round).Some?
    ensures PolRound(rs.votes, rs.votes.round) >= rs.round
  {
    PolRoundFinds(rs.votes, rs.votes.round, rs.round);
  }

  lemma EnterPrecommitSplits(c: Ctx, rs: RoundState, e: Env)
    requires rs.status.Running? && rs.step < PRECOMMIT
    requires Majority(rs.votes, Prevote, rs.round).Some? ==> PolRound(rs.votes, rs.votes.round) >= rs.round
    ensures var maj := Majority(rs.votes, Prevote, rs.round);
            var (rs1, b) := PrecommitChoice(rs, maj);
            EnterPrecommit(c, rs, rs.round, e) ==
              if PolkaForInvalid(rs, maj, e) then rs.(status := Halted, step := PRECOMMIT)
              else SignAddVote(c, rs1, Precommit, b, e.signPrecommit, e.crossSigned)
  {
    hide PolRound, Majority, PolkaForInvalid;
  }

  lemma EnterPrecommitKeeps(c: Ctx, rs: RoundState, round: nat, e: Env, log: seq<Vote>)
    requires MidInv(c, rs, log) && round <= rs.round
    ensures MidInv(c, EnterPrecommit(c, rs, round, e), log)
    ensures Forward(rs, EnterPrecommit(c, rs, round, e))
    ensures rs.round == EnterPrecommit(c, rs, round, e).round
    ensures SignsFor(rs, EnterPrecommit(c, rs, round, e), Precommit, round)
  {
    hide LockKept, Accounted, Justified, OwnVotesOrdered, DoPrecommit, PrecommitChoice, SignAddVote, PolkaForInvalid, Seen;
    if rs.status.Running? && round == rs.round && rs.step < PRECOMMIT {
      var l := log + rs.out;
      var maj := Majority(rs.votes, Prevote, round);
      if maj.Some? { PolInfoIsCurrent(c, rs, l); }
      EnterPrecommitSplits(c, rs, e);
      if PolkaForInvalid(rs, maj, e) {
        MoveForward(c, rs, rs.(status := Halted, step := PRECOMMIT), l);
      } else {
        PrecommitChoiceShape(rs, maj);
        PrecommitChoiceKeeps(c, rs, l);
        var (rs1, b) := PrecommitChoice(rs, maj);
        SignAddVoteKeeps(c, rs, rs1, log, Precommit, b, e.signPrecommit, e.crossSigned);
      }
    }
  }

  lemma TryFinalizeKeeps(c: Ctx, rs: RoundState, l: seq<Vote>)
    requires NodeInv(c, rs, l)
    ensures NodeInv(c, TryFinalizeCommit(rs), l) && TryFinalizeCommit(rs).out == rs.out
    ensures Forward(rs, TryFinalizeCommit(rs))
    ensures rs.status.Running? && TryFinalizeCommit(rs).status.Decided? ==>
              HasQuorum(c.powers, l, Precommit, rs.commitRound, Some(TryFinalizeCommit(rs).status.hash))
  {
    hide LockKept, Accounted, Justified, OwnVotesOrdered, Seen, HasQuorum;
    var rs' := TryFinalizeCommit(rs);
    if rs'.status.Decided? && rs.status.Running? {
      MajorityIsQuorum(c, rs, l, Precommit, rs.commitRound);
    }
    MoveForward(c, rs, rs', l);
  }

  lemma EnterCommitKeeps(c: Ctx, rs: RoundState, commitRound: nat, log: seq<Vote>)
    requires MidInv(c, rs, log)
    ensures MidInv(c, EnterCommit(rs, commitRound), log)
    ensures Forward(rs, EnterCommit(rs, commitRound))
  {
    hide LockKept, Accounted, Justified, OwnVotesOrdered, TryFinalizeCommit, Seen;
    if rs.status.Running? && rs.step < COMMIT {
      var l := log + rs.out;
      var maj := Majority(rs.votes, Precommit, commitRound);
      if maj.None? {
        MoveForward(c, rs, rs.(status := Halted), l);
      } else {
        var b := maj.value;
        var rs1 := if HashesTo(rs.lockedBlock, b.hash)
                   then rs.(proposalBlock := rs.lockedBlock, proposalParts := rs.lockedParts) else rs;
        var rs2 := if HashesTo(rs1.proposalBlock, b.hash) || HasHeader(rs1.proposalParts, b.parts) then rs1
                   else rs1.(proposalBlock := None, proposalParts := Some(Parts(b.parts, false)));
        var rs3 := rs2.(step := COMMIT, commitRound := commitRound);
        MoveForward(c, rs, rs3, l);
        TryFinalizeKeeps(c, rs3, l);
      }
    }
  }

  // ----- handlers --------------------------------------------------------------------------------------

  lemma AddVoteSeen(powers: seq<nat>, vs: VoteSet, kind: VoteKind, round: nat, v: nat, b: BlockID, log: seq<Vote>)
    requires Valid(powers, vs) && v < |powers| && SetSeen(vs, kind, round, log) && Vote(kind, round, b, v) in log
    ensures SetSeen(AddVote(powers, vs, v, b).set', kind, round, log)
  {
  }

  lemma AddHeightVoteSeen(powers: seq<nat>, h: HeightVoteSet, vote: Vote, peer: Peer, log: seq<Vote>)
    requires Seen(powers, h, log) && vote in log
    ensures Seen(powers, AddHeightVote(powers, h, vote, peer).votes, log)
  {
    hide AddVote, Valid;
    AddHeightVoteKeepsValid(powers, h, vote, peer);
    var t := TrackRound(|powers|, h, vote.round, peer);
    if t.Some? && vote.validator < |powers| {
      EmptyIsValid(powers);
      AddVoteSeen(powers, Get(t.value, vote.kind, vote.round).value, vote.kind, vote.round, vote.validator, vote.block, log);
    }
  }

  lemma AddHeightVoteGrows(powers: seq<nat>, h: HeightVoteSet, vote: Vote, peer: Peer)
    requires ValidHeight(powers, h)
    ensures Grows(h, AddHeightVote(powers, h, vote, peer).votes)
  {
    hide AddVote, Valid;
    var t := TrackRound(|powers|, h, vote.round, peer);
    if t.Some? && vote.validator < |powers| {
      EmptyIsValid(powers);
      var vs := Get(t.value, vote.kind, vote.round).value;
      if vs.maj23.Some? {
        MajorityIsFinal(powers, vs, vote.validator, vote.block);
      }
    }
  }

  lemma RefuseVoteSeen(powers: seq<nat>, h: HeightVoteSet, round: nat, peer: Peer, log: seq<Vote>)
    requires Seen(powers, h, log)
    ensures var h' := RefuseVote(|powers|, h, round, peer);
            Seen(powers, h', log) && Grows(h, h') && h'.round == h.round
  {
    hide Valid;
    EmptyIsValid(powers);
  }

  lemma PeerMaj23Grows(h: HeightVoteSet, kind: VoteKind, round: nat, peer: Peer, b: BlockID)
    requires round in h.sets
    ensures Grows(h, Put(h, kind, round, SetPeerMaj23(Get(h, kind, round).value, peer, b)))
  {
  }

  lemma PeerMaj23Seen(powers: seq<nat>, h: HeightVoteSet, kind: VoteKind, round: nat, peer: Peer, b: BlockID, log: seq<Vote>)
    requires Seen(powers, h, log) && round in h.sets
    ensures Seen(powers, Put(h, kind, round, SetPeerMaj23(Get(h, kind, round).value, peer, b)), log)
  {
    hide SetPeerMaj23, Valid, SetSeen;
    var vs := Get(h, kind, round).value;
    SetPeerMaj23KeepsValid(powers, vs, peer, b);
    ClaimSeen(vs, kind, round, peer, b, log);
  }

  lemma ClaimSeen(vs: VoteSet, kind: VoteKind, round: nat, peer: Peer, b: BlockID, log: seq<Vote>)
    requires SetSeen(vs, kind, round, log)
    ensures SetSeen(SetPeerMaj23(vs, peer, b), kind, round, log)
  {
  }

  /** Unlocking on a later polka is safe, and so is forgetting or tracking the proposal block. */
  lemma OnPolkaKeeps(c: Ctx, rs: RoundState, r: nat, b: BlockID, l: seq<Vote>)
    requires NodeInv(c, rs, l) && Polka(rs.votes, r, b.hash)
    ensures var rs' := OnPolka(rs, r, b);
            NodeInv(c, rs', l) && rs'.out == rs.out && Forward(rs, rs') && rs'.round == rs.round && rs'.step == rs.step
            && rs'.votes == rs.votes && rs'.status == rs.status
            && (rs'.lockedBlock == rs.lockedBlock || rs'.lockedBlock.None?)
  {
    hide LockKept, Accounted, Justified, OwnVotesOrdered, TrackValid, Seen;
    var rs1 := UnlockOnPolka(rs, r, b);
    if rs1 != rs {
      Relock(c, rs, rs1, l, r, b.hash);
    }
    TrackValidKeeps(c, rs1, r, b, l);
  }

  lemma TrackValidKeeps(c: Ctx, rs: RoundState, r: nat, b: BlockID, l: seq<Vote>)
    requires NodeInv(c, rs, l) && Polka(rs.votes, r, b.hash)
    ensures var rs' := TrackValid(rs, r, b);
            NodeInv(c, rs', l) && rs'.out == rs.out && rs'.round == rs.round && rs'.step == rs.step
            && rs'.votes == rs.votes && rs'.status == rs.status && rs'.lockedBlock == rs.lockedBlock
  {
    hide LockKept, Accounted, Justified, OwnVotesOrdered, Seen, Polka, Majority;
    MoveForward(c, rs, TrackValid(rs, r, b), l);
  }

  lemma AfterPrevoteKeeps(c: Ctx, rs: RoundState, r: nat, e: Env, log: seq<Vote>)
    requires SignsLock(rs, e)
    requires MidInv(c, rs, log)
    ensures MidInv(c, AfterPrevote(c, rs, r, e), log)
    ensures Forward(rs, AfterPrevote(c, rs, r, e))
  {
    hide LockKept, Accounted, Justified, OwnVotesOrdered, EnterNewRound, EnterPropose, EnterPrevote, EnterPrecommit, EnterPrevoteWait, OnPolka, Seen;
    var l := log + rs.out;
    var maj := Majority(rs.votes, Prevote, r);
    var rs1 := if maj.Some? then OnPolka(rs, r, maj.value) else rs;
    if maj.Some? {
      OnPolkaKeeps(c, rs, r, maj.value, l);
    }
    assert MidInv(c, rs1, log);
    if rs1.round < r {
      EnterNewRoundKeeps(c, rs1, r, e, log);
    } else if rs1.round == r && PREVOTE <= rs1.step {
      EnterPrecommitKeeps(c, rs1, r, e, log);
      EnterPrevoteWaitKeeps(c, rs1, r, log);
    }
    EnterPrevoteKeeps(c, rs1, rs1.round, e, log);
  }

  lemma AfterPrecommitKeeps(c: Ctx, rs: RoundState, r: nat, e: Env, log: seq<Vote>)
    requires SignsLock(rs, e)
    requires MidInv(c, rs, log) && rs.status.Running?
    ensures MidInv(c, AfterPrecommit(c, rs, r, e), log)
    ensures Forward(rs, AfterPrecommit(c, rs, r, e))
  {
    hide LockKept, Accounted, Justified, OwnVotesOrdered, EnterNewRound, EnterPropose, EnterPrevote, EnterPrecommit, EnterCommit, EnterPrecommitWait, Seen;
    var maj := Majority(rs.votes, Precommit, r);
    var rs1 := EnterNewRound(c, rs, r, e);
    EnterNewRoundKeeps(c, rs, r, e, log);
    if maj.Some? {
      EnterPrecommitKeeps(c, rs1, r, e, log);
      var rs2 := EnterPrecommit(c, rs1, r, e);
      EnterCommitKeeps(c, rs2, r, log);
      EnterPrecommitWaitKeeps(c, rs2, r, log);
    } else {
      EnterPrecommitWaitKeeps(c, rs1, r, log);
    }
  }

  lemma HandleVoteKeeps(c: Ctx, rs: RoundState, vote: Vote, peer: Peer, e: Env, log: seq<Vote>)
    requires SignsLock(rs, e)
    requires MidInv(c, rs, log) && vote in log
    ensures Sized(|c.powers|, rs.votes)
    ensures MidInv(c, HandleVote(c, rs, vote, peer, e), log)
    ensures Forward(rs, HandleVote(c, rs, vote, peer, e))
  {
    hide LockKept, Accounted, Justified, OwnVotesOrdered, AfterPrevote, AfterPrecommit, AddHeightVote;
    var l := log + rs.out;
    if rs.status.Running? {
      var r := AddHeightVote(c.powers, rs.votes, vote, peer);
      AddHeightVoteSeen(c.powers, rs.votes, vote, peer, l);
      AddHeightVoteRound(c.powers, rs.votes, vote, peer);
      AddHeightVoteGrows(c.powers, rs.votes, vote, peer);
      var rs1 := rs.(votes := r.votes);
      MoveForward(c, rs, rs1, l);
      AfterPrevoteKeeps(c, rs1, vote.round, e, log);
      AfterPrecommitKeeps(c, rs1, vote.round, e, log);
    }
  }

  lemma AddHeightVoteRound(powers: seq<nat>, h: HeightVoteSet, vote: Vote, peer: Peer)
    requires Sized(|powers|, h)
    ensures AddHeightVote(powers, h, vote, peer).votes.round == h.round
  {
  }

  lemma HandleTimeoutKeeps(c: Ctx, rs: RoundState, t: Timeout, e: Env, log: seq<Vote>)
    requires SignsLock(rs, e)
    requires MidInv(c, rs, log) && t in rs.timeouts
    ensures MidInv(c, HandleTimeout(c, rs, t, e), log)
    ensures Forward(rs, HandleTimeout(c, rs, t, e))
  {
    hide LockKept, Accounted, Justified, OwnVotesOrdered, EnterNewRound, EnterPropose, EnterPrevote, EnterPrecommit, Seen;
    if HandleTimeout(c, rs, t, e) == rs {
    } else if t.step == NEW_HEIGHT {
      EnterNewRoundKeeps(c, rs, 0, e, log);
    } else if t.step == NEW_ROUND {
      EnterProposeKeeps(c, rs, 0, e, log);
    } else if t.step == PROPOSE {
      EnterPrevoteKeeps(c, rs, t.round, e, log);
    } else if t.step == PREVOTE_WAIT {
      EnterPrecommitKeeps(c, rs, t.round, e, log);
    } else if t.step == PRECOMMIT_WAIT {
      EnterPrecommitKeeps(c, rs, t.round, e, log);
      EnterNewRoundKeeps(c, EnterPrecommit(c, rs, t.round, e), t.round + 1, e, log);
    } else {
      MoveForward(c, rs, rs.(status := Halted), log + rs.out);
    }
  }

  /** A block whose last part arrives may become the valid block: its polka is in view. */
  lemma CompleteBlockKeeps(c: Ctx, rs: RoundState, block: Hash, l: seq<Vote>)
    requires NodeInv(c, rs, l) && rs.proposalParts.Some?
    ensures var rs' := OnCompleteBlock(rs.(proposalParts := Some(rs.proposalParts.value.(complete := true)),
                                           proposalBlock := Some(block)));
            && NodeInv(c, rs', l) && rs'.status == rs.status && rs'.round == rs.round && rs'.step == rs.step
            && rs'.lockedBlock == rs.lockedBlock && rs'.out == rs.out
  {
    hide LockKept, Accounted, Justified, OwnVotesOrdered, Seen;
    MoveForward(c, rs, OnCompleteBlock(rs.(proposalParts := Some(rs.proposalParts.value.(complete := true)),
                                           proposalBlock := Some(block))), l);
  }

  lemma HandleInvalidVoteKeeps(c: Ctx, rs: RoundState, round: nat, peer: Peer, log: seq<Vote>)
    requires MidInv(c, rs, log)
    ensures MidInv(c, HandleInvalidVote(c, rs, round, peer), log)
    ensures Forward(rs, HandleInvalidVote(c, rs, round, peer))
  {
    hide LockKept, Accounted, Justified, OwnVotesOrdered;
    RefuseVoteSeen(c.powers, rs.votes, round, peer, log + rs.out);
    MoveForward(c, rs, HandleInvalidVote(c, rs, round, peer), log + rs.out);
  }

  lemma HandleTxsAvailableKeeps(c: Ctx, rs: RoundState, e: Env, log: seq<Vote>)
    requires SignsLock(rs, e)
    requires MidInv(c, rs, log)
    ensures MidInv(c, HandleTxsAvailable(c, rs, e), log)
    ensures Forward(rs, HandleTxsAvailable(c, rs, e))
  {
    hide NodeInv, EnterNewRound, EnterPropose;
    EnterNewRoundKeeps(c, rs, 0, e, log);
    EnterProposeKeeps(c, EnterNewRound(c, rs, 0, e), 0, e, log);
  }

  lemma HandleProposalKeeps(c: Ctx, rs: RoundState, p: Proposal, log: seq<Vote>)
    requires MidInv(c, rs, log)
    ensures MidInv(c, HandleProposal(rs, p), log)
    ensures Forward(rs, HandleProposal(rs, p))
  {
    hide LockKept, Accounted, Justified, OwnVotesOrdered, Seen;
    MoveForward(c, rs, HandleProposal(rs, p), log + rs.out);
  }

  lemma HandlePeerMaj23Keeps(c: Ctx, rs: RoundState, kind: VoteKind, round: nat, peer: Peer, b: BlockID, log: seq<Vote>)
    requires MidInv(c, rs, log)
    ensures MidInv(c, HandlePeerMaj23(rs, kind, round, peer, b), log)
    ensures Forward(rs, HandlePeerMaj23(rs, kind, round, peer, b))
  {
    hide LockKept, Accounted, Justified, OwnVotesOrdered, SetPeerMaj23, ValidHeight, Polka;
    if round in rs.votes.sets {
      PeerMaj23Seen(c.powers, rs.votes, kind, round, peer, b, log + rs.out);
      PeerMaj23Grows(rs.votes, kind, round, peer, b);
      MoveForward(c, rs, HandlePeerMaj23(rs, kind, round, peer, b), log + rs.out);
    }
  }

  lemma HandlePartKeeps(c: Ctx, rs: RoundState, p: PartEvent, e: Env, log: seq<Vote>)
    requires SignsLock(rs, e)
    requires MidInv(c, rs, log)
    ensures MidInv(c, HandlePart(c, rs, p, e), log)
    ensures Forward(rs, HandlePart(c, rs, p, e))
  {
    hide LockKept, Accounted, Justified, OwnVotesOrdered, EnterPrevote, EnterPrecommit, TryFinalizeCommit, Seen, Polka, OnCompleteBlock, Majority;
    if rs.status.Running? && rs.proposalParts.Some? && !rs.proposalParts.value.complete {
      var l := log + rs.out;
      var done := rs.(proposalParts := Some(rs.proposalParts.value.(complete := true)));
      MoveForward(c, rs, done, l);
      if p.LastPart? {
        var rs1 := OnCompleteBlock(done.(proposalBlock := Some(p.block)));
        CompleteBlockKeeps(c, rs, p.block, l);
        EnterPrevoteKeeps(c, rs1, rs1.round, e, log);
        var rs2 := EnterPrevote(c, rs1, rs1.round, e);
        EnterPrecommitKeeps(c, rs2, rs2.round, e, log);
        TryFinalizeKeeps(c, rs1, l);
      }
    }
  }

  // ----- the network -----------------------------------------------------------------------------------

  datatype Action =
    | DeliverVote(vote: Vote, peer: Peer)
    | DeliverInvalid(votedRound: nat, sender: Peer)
    | Tick(timeout: Timeout)
    | TxsAvailable
    | DeliverProposal(proposal: Proposal)
    | DeliverPart(part: PartEvent)
    | ClaimMaj23(kind: VoteKind, round: nat, claimer: Peer, block: BlockID)

  datatype Network = Network(nodes: map<nat, RoundState>, log: seq<Vote>)
  datatype Event = NodeStep(id: nat, action: Action, env: Env) | FaultyVote(signed: Vote)

  ghost predicate Enabled(c: Ctx, rs: RoundState, a: Action, log: seq<Vote>) {
    match a
    case DeliverVote(vote, _) => vote in log && Sized(|c.powers|, rs.votes)
    case Tick(t) => t in rs.timeouts
    case _ => true
  }

  ghost function React(c: Ctx, rs: RoundState, a: Action, e: Env, log: seq<Vote>): RoundState
    requires Enabled(c, rs, a, log)
  {
    match a
    case DeliverVote(vote, peer) => HandleVote(c, rs, vote, peer, e)
    case DeliverInvalid(round, peer) => HandleInvalidVote(c, rs, round, peer)
    case Tick(t) => HandleTimeout(c, rs, t, e)
    case TxsAvailable => HandleTxsAvailable(c, rs, e)
    case DeliverProposal(p) => HandleProposal(rs, p)
    case DeliverPart(p) => HandlePart(c, rs, p, e)
    case ClaimMaj23(kind, round, peer, b) => HandlePeerMaj23(rs, kind, round, peer, b)
  }

  /** One atomic step: a node handles a message or timeout and its votes join the log, or a
      validator that is not one of the nodes signs anything. A locked node whose cross-shard
      signatures fail would prevote against its lock, so it counts among the latter. */
  ghost predicate Step(powers: seq<nat>, s: Network, ev: Event, s': Network) {
    match ev
    case NodeStep(id, a, e) =>
      && id in s.nodes && Enabled(Ctx(powers, id), s.nodes[id], a, s.log)
      && SignsLock(s.nodes[id], e)
      && var rs' := React(Ctx(powers, id), s.nodes[id], a, e, s.log);
         s' == Network(s.nodes[id := rs'.(out := [])], s.log + rs'.out)
    case FaultyVote(v) =>
      v.validator < |powers| && v.validator !in s.nodes && s' == s.(log := s.log + [v])
  }

  ghost predicate Init(powers: seq<nat>, s: Network) {
    s.log == [] && forall id <- s.nodes :: s.nodes[id] == NewHeightState(|powers|)
  }

  /** A run of the height: any number of steps, in any order. */
  ghost predicate Run(powers: seq<nat>, tr: seq<Network>, evs: seq<Event>) {
    && |tr| == |evs| + 1
    && Init(powers, tr[0])
    && forall i :: 0 <= i < |evs| ==> Step(powers, tr[i], evs[i], tr[i + 1])
  }

  ghost predicate NetworkInv(powers: seq<nat>, s: Network) {
    forall id <- s.nodes :: NodeInv(Ctx(powers, id), s.nodes[id], s.log) && s.nodes[id].out == []
  }

  lemma InitHolds(powers: seq<nat>, s: Network)
    requires Init(powers, s)
    ensures NetworkInv(powers, s)
  {
    EmptyIsValid(powers);
  }

  lemma ReactKeeps(c: Ctx, rs: RoundState, a: Action, e: Env, log: seq<Vote>)
    requires SignsLock(rs, e)
    requires NodeInv(c, rs, log) && rs.out == [] && Enabled(c, rs, a, log)
    ensures MidInv(c, React(c, rs, a, e, log), log)
    ensures Forward(rs, React(c, rs, a, e, log))
  {
    hide NodeInv, HandleVote, HandleInvalidVote, HandleTimeout, HandleTxsAvailable, HandleProposal, HandlePart, HandlePeerMaj23;
    assert log + rs.out == log;
    match a {
      case DeliverVote(vote, peer) => HandleVoteKeeps(c, rs, vote, peer, e, log);
      case DeliverInvalid(round, peer) => HandleInvalidVoteKeeps(c, rs, round, peer, log);
      case Tick(t) => HandleTimeoutKeeps(c, rs, t, e, log);
      case TxsAvailable => HandleTxsAvailableKeeps(c, rs, e, log);
      case DeliverProposal(p) => HandleProposalKeeps(c, rs, p, log);
      case DeliverPart(p) => HandlePartKeeps(c, rs, p, e, log);
      case ClaimMaj23(kind, round, peer, b) => HandlePeerMaj23Keeps(c, rs, kind, round, peer, b, log);
    }
  }

  lemma StepKeeps(powers: seq<nat>, s: Network, ev: Event, s': Network)
    requires NetworkInv(powers, s) && Step(powers, s, ev, s')
    ensures NetworkInv(powers, s')
    ensures s'.nodes.Keys == s.nodes.Keys && s.log <= s'.log
    ensures forall id <- s.nodes :: Forward(s.nodes[id], s'.nodes[id])
  {
    hide NodeInv, React, Enabled;
    match ev {
      case NodeStep(id, a, e) =>
        var c := Ctx(powers, id);
        ReactKeeps(c, s.nodes[id], a, e, s.log);
        var rs' := React(c, s.nodes[id], a, e, s.log);
        ForgetOut(c, rs', s'.log);
        forall other | other in s.nodes && other != id ensures NodeInv(Ctx(powers, other), s'.nodes[other], s'.log) {
          OthersVote(Ctx(powers, other), s.nodes[other], s.log, rs'.out);
        }
      case FaultyVote(v) =>
        forall id | id in s.nodes ensures NodeInv(Ctx(powers, id), s'.nodes[id], s'.log) {
          OthersVote(Ctx(powers, id), s.nodes[id], s.log, [v]);
        }
    }
  }

  lemma ForgetOut(c: Ctx, rs: RoundState, log: seq<Vote>)
    requires NodeInv(c, rs, log)
    ensures NodeInv(c, rs.(out := []), log)
  {
    hide LockKept, Accounted, Justified, OwnVotesOrdered, Seen;
    MoveForward(c, rs, rs.(out := []), log);
  }

  // ----- theorems over every run -------------------------------------------------------------------------

  /** The validators that are not among the nodes. */
  function Faulty(powers: seq<nat>, s: Network): set<nat> {
    set v: nat | v < |powers| && v !in s.nodes
  }

  ghost predicate FewFaulty(powers: seq<nat>, s: Network) {
    3 * Tally(powers, Faulty(powers, s)) < Total(powers)
  }

  lemma {:induction false} RunInvariant(powers: seq<nat>, tr: seq<Network>, evs: seq<Event>, i: nat)
    requires Run(powers, tr, evs) && i < |tr|
    ensures NetworkInv(powers, tr[i])
    ensures tr[i].nodes.Keys == tr[0].nodes.Keys
  {
    hide NodeInv, Step, Init, NetworkInv;
    if i == 0 {
      InitHolds(powers, tr[0]);
    } else {
      RunInvariant(powers, tr, evs, i - 1);
      assert Step(powers, tr[i - 1], evs[i - 1], tr[i - 1 + 1]);
      StepKeeps(powers, tr[i - 1], evs[i - 1], tr[i]);
    }
  }

  /** Over every run a node's (round, step) never goes back and the vote log only grows. */
  lemma {:induction false} RoundStepNeverDecreases(powers: seq<nat>, tr: seq<Network>, evs: seq<Event>, i: nat, j: nat, id: nat)
    requires Run(powers, tr, evs) && i <= j < |tr| && id in tr[0].nodes
    ensures id in tr[i].nodes && id in tr[j].nodes
    ensures Forward(tr[i].nodes[id], tr[j].nodes[id]) && tr[i].log <= tr[j].log
  {
    hide NodeInv, Step, Init, NetworkInv;
    RunInvariant(powers, tr, evs, i);
    if i < j {
      RoundStepNeverDecreases(powers, tr, evs, i, j - 1, id);
      RunInvariant(powers, tr, evs, j - 1);
      assert Step(powers, tr[j - 1], evs[j - 1], tr[j - 1 + 1]);
      StepKeeps(powers, tr[j - 1], evs[j - 1], tr[j]);
    }
  }

  /** Over every run a node signs at most one prevote and one precommit per round. */
  lemma OneVotePerRound(powers: seq<nat>, tr: seq<Network>, evs: seq<Event>, n: nat, i: nat, j: nat)
    requires Run(powers, tr, evs) && n < |tr| && i < |tr[n].log| && j < |tr[n].log|
    requires tr[n].log[i].validator == tr[n].log[j].validator && tr[n].log[i].validator in tr[0].nodes
    requires tr[n].log[i].kind == tr[n].log[j].kind && tr[n].log[i].round == tr[n].log[j].round
    ensures i == j
  {
    hide Step, Init, HasQuorum;
    RunInvariant(powers, tr, evs, n);
    var id := tr[n].log[i].validator;
    assert NodeInv(Ctx(powers, id), tr[n].nodes[id], tr[n].log);
  }

  /** Over every run: the locked round and block are set together, never ahead of the node, and the
      node holds a prevote majority, of votes that were signed, for the locked block in that round. */
  lemma LockHasPolka(powers: seq<nat>, tr: seq<Network>, evs: seq<Event>, n: nat, id: nat)
    requires Run(powers, tr, evs) && n < |tr| && id in tr[0].nodes
    ensures id in tr[n].nodes
    ensures var rs := tr[n].nodes[id];
            && (rs.lockedBlock.Some? <==> rs.lockedRound >= 0)
            && rs.lockedRound <= rs.round
            && (rs.lockedBlock.Some? ==> Polka(rs.votes, rs.lockedRound, rs.lockedBlock)
                                         && HasQuorum(powers, tr[n].log, Prevote, rs.lockedRound, rs.lockedBlock))
  {
    hide Step, Init, HasQuorum;
    RunInvariant(powers, tr, evs, n);
    var rs := tr[n].nodes[id];
    assert NodeInv(Ctx(powers, id), rs, tr[n].log);
    if rs.lockedBlock.Some? {
      MajorityIsQuorum(Ctx(powers, id), rs, tr[n].log, Prevote, rs.lockedRound);
    }
  }

  /** Over every run: the valid round and block, which the node proposes again when it is its turn,
      are set together, never ahead of the node, and the node holds a prevote majority, of votes
      that were signed, for that block in that round. */
  lemma ValidHasPolka(powers: seq<nat>, tr: seq<Network>, evs: seq<Event>, n: nat, id: nat)
    requires Run(powers, tr, evs) && n < |tr| && id in tr[0].nodes
    ensures id in tr[n].nodes
    ensures var rs := tr[n].nodes[id];
            && (rs.validBlock.Some? <==> rs.validRound >= 0)
            && rs.validRound <= rs.round
            && (rs.validBlock.Some? ==> Polka(rs.votes, rs.validRound, rs.validBlock)
                                        && HasQuorum(powers, tr[n].log, Prevote, rs.validRound, rs.validBlock))
  {
    hide Step, Init, HasQuorum;
    RunInvariant(powers, tr, evs, n);
    var rs := tr[n].nodes[id];
    assert NodeInv(Ctx(powers, id), rs, tr[n].log);
    if rs.validBlock.Some? {
      MajorityIsQuorum(Ctx(powers, id), rs, tr[n].log, Prevote, rs.validRound);
    }
  }

  /** Over every run: a node that precommitted a block and later prevotes anything else holds, from
      the state in which it signs on, a prevote majority against that block from a round in between,
      and the votes of such a majority were cast before that prevote. */
  lemma LockJustification(powers: seq<nat>, tr: seq<Network>, evs: seq<Event>, n: nat, i: nat, j: nat)
    requires Run(powers, tr, evs) && n < |tr| && i < |tr[n].log| && j < |tr[n].log|
    requires var log := tr[n].log;
             && log[i].validator == log[j].validator && log[i].validator in tr[0].nodes
             && log[i].kind == Precommit && log[i].block.hash.Some?
             && log[j].kind == Prevote && log[j].block.hash != log[i].block.hash
             && log[i].round < log[j].round
    ensures i < j && tr[n].log[i].validator in tr[n].nodes
    ensures HoldsOther(tr[n].nodes[tr[n].log[i].validator].votes, tr[n].log[i].block.hash.value, tr[n].log[i].round, tr[n].log[j].round)
    ensures OtherPolka(powers, tr[n].log[..j], tr[n].log[i].block.hash.value, tr[n].log[i].round, tr[n].log[j].round)
  {
    hide Step, Init, HasQuorum, HoldsOther, OtherPolka;
    RunInvariant(powers, tr, evs, n);
    var id := tr[n].log[i].validator;
    assert NodeInv(Ctx(powers, id), tr[n].nodes[id], tr[n].log);
    assert BlockPrecommit(tr[n].log[i], id);
  }

  /** Two quorums share a node, which signed a vote of each. */
  lemma SharedSigner(powers: seq<nat>, s: Network, a: seq<Vote>, k1: VoteKind, r1: int, h1: Option<Hash>,
                     b: seq<Vote>, k2: VoteKind, r2: int, h2: Option<Hash>) returns (v: nat, i: nat, j: nat)
    requires FewFaulty(powers, s) && HasQuorum(powers, a, k1, r1, h1) && HasQuorum(powers, b, k2, r2, h2)
    ensures v in s.nodes && i < |a| && IsVote(a[i], k1, r1, h1) && a[i].validator == v
    ensures j < |b| && IsVote(b[j], k2, r2, h2) && b[j].validator == v
  {
    v := QuorumsShareHonest(powers, Voters(a, k1, r1, h1), Voters(b, k2, r2, h2), Faulty(powers, s));
    i :| 0 <= i < |a| && IsVote(a[i], k1, r1, h1) && a[i].validator == v;
    j :| 0 <= j < |b| && IsVote(b[j], k2, r2, h2) && b[j].validator == v;
  }

  /** Once a block has a precommit quorum, no later round has a prevote quorum against it.
      The induction is on the log prefix that first holds such a quorum. */
  lemma {:induction false} NoConflictingPolka(powers: seq<nat>, s: Network, r: int, b: Hash, k: nat, r': int, h: Option<Hash>)
    requires NetworkInv(powers, s) && FewFaulty(powers, s)
    requires HasQuorum(powers, s.log, Precommit, r, Some(b))
    requires r < r' && h != Some(b) && k <= |s.log|
    ensures !HasQuorum(powers, s.log[..k], Prevote, r', h)
    decreases k
  {
    hide Seen, LockKept, Accounted, Shape, DecisionBacked, HasQuorum, FewFaulty;
    var log := s.log;
    if HasQuorum(powers, log[..k], Prevote, r', h) {
      var v, j, i := SharedSigner(powers, s, log[..k], Prevote, r', h, log, Precommit, r, Some(b));
      assert NodeInv(Ctx(powers, v), s.nodes[v], log);
      assert log[j] == log[..k][j] && BlockPrecommit(log[i], v);
      assert i < j;
      var r2: int, h2: Option<Hash> :| r < r2 <= r' && h2 != Some(b) && HasQuorum(powers, log[..j], Prevote, r2, h2);
      NoConflictingPolka(powers, s, r, b, j, r2, h2);
    }
  }

  /** Two precommit quorums of one height name the same block. */
  lemma CommitsAgree(powers: seq<nat>, s: Network, r1: int, b1: Hash, r2: int, b2: Hash)
    requires NetworkInv(powers, s) && FewFaulty(powers, s) && r1 <= r2
    requires HasQuorum(powers, s.log, Precommit, r1, Some(b1))
    requires HasQuorum(powers, s.log, Precommit, r2, Some(b2))
    ensures b1 == b2
  {
    hide Seen, LockKept, Accounted, Shape, DecisionBacked, HasQuorum, FewFaulty;
    var log := s.log;
    var v, i, j := SharedSigner(powers, s, log, Precommit, r1, Some(b1), log, Precommit, r2, Some(b2));
    assert NodeInv(Ctx(powers, v), s.nodes[v], log);
    if r1 == r2 {
      assert VoteRank(log[i]) == VoteRank(log[j]);
      assert i == j;
    } else if b1 != b2 {
      assert BlockPrecommit(log[j], v);
      NoConflictingPolka(powers, s, r1, b1, j, r2, Some(b2));
      assert false;
    }
  }

  /** A decision rests on a precommit quorum in the log. */
  lemma DecisionHasCommit(powers: seq<nat>, tr: seq<Network>, evs: seq<Event>, i: nat, p: nat) returns (r: int)
    requires Run(powers, tr, evs) && i < |tr| && p in tr[i].nodes && tr[i].nodes[p].status.Decided?
    ensures HasQuorum(powers, tr[i].log, Precommit, r, Some(tr[i].nodes[p].status.hash))
  {
    hide Step, Init, HasQuorum;
    RunInvariant(powers, tr, evs, i);
    assert NodeInv(Ctx(powers, p), tr[i].nodes[p], tr[i].log);
    r :| HasQuorum(powers, tr[i].log, Precommit, r, Some(tr[i].nodes[p].status.hash));
  }

  /** Agreement: with less than a third of the power faulty, over every run, no two nodes
      finalize different blocks, whenever they do. */
  lemma Agreement(powers: seq<nat>, tr: seq<Network>, evs: seq<Event>, i: nat, j: nat, p: nat, q: nat)
    requires Run(powers, tr, evs) && FewFaulty(powers, tr[0])
    requires i <= j < |tr| && p in tr[i].nodes && q in tr[j].nodes
    requires tr[i].nodes[p].status.Decided? && tr[j].nodes[q].status.Decided?
    ensures tr[i].nodes[p].status.hash == tr[j].nodes[q].status.hash
  {
    hide NodeInv, Step, Init, HasQuorum;
    RunInvariant(powers, tr, evs, i);
    RunInvariant(powers, tr, evs, j);
    RoundStepNeverDecreases(powers, tr, evs, i, j, p);
    var b1, b2 := tr[i].nodes[p].status.hash, tr[j].nodes[q].status.hash;
    var r1 := DecisionHasCommit(powers, tr, evs, i, p);
    var r2 := DecisionHasCommit(powers, tr, evs, j, q);
    var later := tr[j].log[|tr[i].log|..];
    assert tr[i].log + later == tr[j].log;
    QuorumMonotone(powers, tr[i].log, later, Precommit, r1, Some(b1));
    assert Faulty(powers, tr[j]) == Faulty(powers, tr[0]);
    if r1 <= r2 {
      CommitsAgree(powers, tr[j], r1, b1, r2, b2);
    } else {
      CommitsAgree(powers, tr[j], r2, b2, r1, b1);
    }
  }
}
