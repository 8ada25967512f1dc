# Verification of the sharded Tendermint fork

This project models the core of a Tendermint-based blockchain with a cross-shard message layer, and
proves what its parts promise each other: agreement of the consensus rounds, the double-sign guard,
crash recovery, the light client, the sparse history of validators, and the bookkeeping around them.
`dafny verify dfyconfig.toml` checks all of it.

How the files follow the system:

- `VotingPower`, `VoteSet`, `Consensus`, `ConsensusNode`, `ConsensusSafety`, `ConsensusProgress`,
  `ConsensusRun`: one height of the round state machine. `Consensus` gives every step as a function on the round state,
  `ConsensusNode` is the object that updates it in place, `ConsensusSafety` runs any number of such
  nodes over an append-only log of all votes ever signed, among validators that sign what they like;
  `ConsensusProgress` says exactly what each step does do, and `ConsensusRun` gives, for any block,
  a run that decides it.
- `PrivVal`: the file-backed signing key under requests, crashes and restarts.
- `ChainState`, `Recovery`, `RecoverySafety`, `BlockStore`, `StateStore`: executing blocks, the
  order of durable writes, the handshake after a crash, and the two stores. A routine is the sequence
  of its durable writes, so a crash is a prefix of it.
- `Commits`, `LightClient`, `LightSafety`, `LightTermination`, `LightComplete`, `LightWitness`:
  verifying commits, the bisecting light client over its database, exactly when it accepts, what its
  trust rests on, when it ends, that it accepts a consistent chain, and two runs on which these fail.
- `KeyedList`, `CrossMessages`, `TxCache`, `Mempool`, `MempoolSafety`: cross-shard messages in the
  mempool: resending, receipts, admission, reaping and the cache.
- `Merkle`, `PartSets`, `BlockPools`, `Wal`, `Ledger`, `PeerIds`: block parts with their proofs, fast
  sync, the write-ahead log, the account ledger with its snapshot, and peer IDs.

What enters as a parameter: signatures and hashes (`Commits.Crypto`, any functions), the digest of
Merkle trees (`Merkle.Digest`, without collisions where asked; bytes are unbounded numbers, so such a
digest exists: `Merkle.IdealDigestIsCollisionFree`), encodings (`PrivVal.Codec`, `Wal.Codec`,
round-trip laws), the application (`Recovery.Application`, a deterministic function of the blocks
committed to it), validator-set arithmetic (`ChainState.Rules`), the clock, the network's choices, the light
client's source, and the outcome of the checks a step merely consults (`Consensus.Env`,
`Mempool.Checks`). Hash-based identifiers are the values they are computed from. Each handler the
source runs under a lock is one step.

Where code and comments disagree the code is followed:

- `types/vote_set.go:40-43` says every vote has an entry under its block; the code can drop one
  (`VoteSets.TrackingKeptExactlyWhen`).
- `blockchain/store.go:67-69` asks that the meta entry be saved after the block; it is saved first
  (`BlockStore.HalfSavedPanicsExactlyWhen`).
- `lite/dynamic_verifier.go:186-189` promises that two thirds of a lower trusted commit's next
  validators signed what is trusted; that fails, because saving a commit overwrites the set due after
  the header below (`LightWitness.LowerSupportCanFail`). It holds when every save lines up with the
  header stored right below it (`LightSafety.StrictlyLowerSupport`), a check the code does not make;
  what always holds is `LightSafety.EveryTrustedIsRooted`.
- `lite/dynamic_verifier.go:206-210` promises an answer for every height; on a chain of valid commits
  there may be none (`LightWitness.ForeignAddressNeverEnds`). There is one whenever no adjacent pair
  reports too much change (`LightTermination.UpdateAnswers`); right above the trusted height the
  condition is exact (`LightTermination.NeverEndsExactlyWhen`), and at any height a bounded run decides
  (`LightTermination.NeverEndsDecided`).
- `types/part_set.go:188-215` adds a part whose proof verifies; the proof may be for another index, or
  carry the total of another tree (`PartSets.SwappedPartsAccepted`, `PartSets.OtherTotalAccepted`).
- `mempool/mempool.go:746-775` answers a message that has its receipt from the database;
  `mempool/reactor.go:169-184` lets a peer bring it back (`MempoolSafety.MessageComesBack`).
- `consensus/state.go:1154-1159` prevotes the locked block; signing reads the proposal block and may
  drop the hash (`Consensus.PrevoteHaltsExactlyWhen`, `Consensus.PrevoteFollowsLockExactlyWhen`).
  A locked node whose signer reports such a failure counts among the faulty in the agreement theorem;
  an unlocked one does not, and the file-backed signer never reports one (`privval/file.go:144-159`).
- The fast-sync pending counter can leak (`BlockPools.LeaksHappen`) and then never recovers
  (`BlockPools.SyncStops`).

## Model

| member | source | states |
|---|---|---|
| VotingPower.QuorumsShareHonest | types/vote_set.go:281-303 | two sets each holding `total*2/3 + 1` of the power share a member outside any set holding less than a third |
| VoteSets.AddVoteKeepsValid | types/vote_set.go:148-304 | over any votes, conflicting ones included, every per-block sum is the power of that block's voters, the overall sum that of all voters, and the recorded majority is a block whose voters hold a quorum |
| VoteSets.SetPeerMaj23KeepsValid | types/vote_set.go:311-344 | a peer's claim of a majority keeps that invariant |
| VoteSets.AddVoteExactly | types/vote_set.go:223-304 | a vote is added exactly when it is no repeat and its validator has not voted otherwise, unless a peer claimed a majority for its block; it then counts for that block and no other, and the vote it conflicts with is reported exactly with a vote that is no repeat |
| VoteSets.VoterSeen | types/vote_set.go:223-250 | after any vote the power seen is that of everyone who voted before and this validator, and a validator's first vote is its canonical one |
| VoteSets.ClaimExactly | types/vote_set.go:311-344 | a peer's first claim marks its block as claimed and changes no vote, sum or majority; a second claim changes nothing |
| VoteSets.MajorityIsFinal | types/vote_set.go:281-303 | the first majority seen is the majority reported ever after |
| VoteSets.CommitCarriesQuorum | types/vote_set.go:551-569 | a commit made from a set with a majority carries more than two thirds of the power for that block |
| VoteSets.TrackingKeptExactlyWhen | types/vote_set.go:40-43 | the documented claim that every vote has an entry under its block is kept by adding a vote exactly when the vote is not a second vote of its validator for the majority block that no peer claimed |
| VoteSets.TrackingCanBeLost | types/vote_set.go:247-264 | four equal validators and five votes after which the documented claim no longer holds |
| VoteSets.AddHeightVoteKeepsValid | consensus/types/height_vote_set.go:112-132 | adding or refusing a vote of any round, tracking catch-up rounds per peer, keeps every round's sets valid |
| VoteSets.AddHeightVoteExactly | consensus/types/height_vote_set.go:112-132 | a vote of a tracked round, or of one of the two rounds a peer may open, goes to the set of its round and kind while every other set stays; any other vote changes nothing |
| VoteSets.RefuseVoteExactly | consensus/types/height_vote_set.go:112-132 | a vote its set refuses opens its round like any other and counts for nothing |
| VoteSets.SetRoundKeepsValid | consensus/types/height_vote_set.go:82-95 | tracking further rounds keeps every round's sets valid |
| VoteSets.PolRoundFinds | consensus/types/height_vote_set.go:148-159 | the proof-of-lock search finds the last round up to its start that has a prevote majority, and none exactly when there is none |
| ConsensusNode.ConsensusState.constructor | consensus/state.go:563-633 | a new height starts at round 0, unlocked, with round 0 scheduled, and the node invariant holds |
| ConsensusNode.ConsensusState.SignAndAddVote | consensus/state.go:2191-2270 | at most one vote is signed, by this validator and for the round it is in, for the block asked or, on a prevote whose cross-shard signatures fail, for none; nothing else but the status changes |
| ConsensusNode.ConsensusState.DoPrevote | consensus/state.go:1151-1199 | at most one prevote, for the current round; a locked node whose cross-shard signatures succeed prevotes its lock, which stays |
| ConsensusNode.ConsensusState.EnterPrevoteStep | consensus/state.go:1128-1149 | keeps the node invariant, never goes back, and signs at most one prevote, for exactly the round entered |
| ConsensusNode.ConsensusState.EnterProposeStep | consensus/state.go:927-982 | the same for the propose step, which prevotes at once when the proposal is complete |
| ConsensusNode.ConsensusState.SetupRoundStep | consensus/state.go:870-897 | from an invariant state a later round, or the first, is set up with the invariant kept and without reaching the panic of the vote sets |
| ConsensusNode.ConsensusState.EnterNewRoundStep | consensus/state.go:844-911 | entering any round at or ahead of the node keeps the node invariant, never goes back, and signs at most one prevote, for that round |
| ConsensusNode.ConsensusState.EnterPrevoteWaitStep | consensus/state.go:1202-1222 | keeps the node invariant, never goes back and signs nothing |
| ConsensusNode.ConsensusState.LockOnPolka | consensus/state.go:1270-1323 | exactly what a polka does: a block the node has locked or proposed is locked in this round with its parts and chosen; any other polka gives the lock up, and fetches the block if it is for one; without a polka the lock stays; otherwise nil is chosen. From an invariant state the lock left is one the invariant allows at the precommit step |
| ConsensusNode.ConsensusState.DoPrecommitVote | consensus/state.go:1248-1324 | signs exactly one precommit, if it is a validator whose signer signs, for the block locked on this round's polka or else nil, with the lock `LockOnPolka` leaves; from an invariant state it halts exactly on a polka for a proposed block, not the one locked, that does not validate |
| ConsensusNode.ConsensusState.EnterPrecommitStep | consensus/state.go:1230-1324 | keeps the node invariant, never goes back, and signs at most one precommit, for exactly the round entered |
| ConsensusNode.ConsensusState.EnterPrecommitWaitStep | consensus/state.go:1327-1352 | keeps the node invariant, never goes back and signs nothing |
| ConsensusNode.ConsensusState.TryFinalize | consensus/state.go:1570-1637 | keeps the node invariant and changes only the status; a decision rests on a precommit quorum of signed votes in the commit round |
| ConsensusNode.ConsensusState.EnterCommitStep | consensus/state.go:1355-1408 | keeps the node invariant and signs nothing; at the commit step a precommit majority is held and its block is in hand or being fetched |
| ConsensusNode.ConsensusState.OnPolkaSeen | consensus/state.go:2064-2077 | on a polka in view keeps the node invariant; the lock is left alone or given up, and given up only for another block |
| ConsensusNode.ConsensusState.UpdateValid | consensus/state.go:2079-2103 | on a polka in view keeps the node invariant and the lock; a new valid block is the polka's, of this very round |
| ConsensusNode.ConsensusState.AddedPrevote | consensus/state.go:2053-2121 | reacting to a prevote keeps the node invariant and never goes back |
| ConsensusNode.ConsensusState.AddedPrecommit | consensus/state.go:2123-2146 | reacting to a precommit keeps the node invariant and never goes back |
| ConsensusNode.ConsensusState.AddVoteMessage | consensus/state.go:1978-2149 | handling any signed vote keeps the node invariant and never goes back |
| ConsensusNode.ConsensusState.AddInvalidVote | consensus/types/height_vote_set.go:112-132 | a refused vote keeps the node invariant, changes only which rounds are tracked, and no majority |
| ConsensusNode.ConsensusState.OnTimeout | consensus/state.go:790-824 | handling any scheduled timeout keeps the node invariant and never goes back |
| ConsensusNode.ConsensusState.OnTxsAvailable | consensus/state.go:826-832 | keeps the node invariant and never goes back |
| ConsensusNode.ConsensusState.SetProposal | consensus/state.go:1837-1869 | keeps the node invariant; takes only the first proposal, for this round, with a proof-of-lock round below it |
| ConsensusNode.ConsensusState.CompleteBlock | consensus/state.go:1913-1930 | keeps the node invariant; the block becomes the valid one only with this round's polka for it in view |
| ConsensusNode.ConsensusState.AddProposalBlockPart | consensus/state.go:1876-1946 | handling any block part keeps the node invariant and never goes back |
| ConsensusNode.ConsensusState.SetPeerMajority | consensus/types/height_vote_set.go:181-192 | no claim of a peer changes a majority held, or anything but the vote sets; the node invariant is kept |
| ConsensusNode.ConsensusState.Receive | consensus/state.go:654-788 | one turn of the receive routine is one network step, its votes sent to the log, and keeps the node invariant the agreement proof rests on; only a locked node is asked to have its cross-shard signatures succeed |
| Consensus.PrevoteHaltsExactlyWhen | consensus/state.go:2211-2227 | a validator entering prevote halts exactly when it is locked and has no proposal block |
| Consensus.PrevoteFollowsLockExactlyWhen | consensus/state.go:2215-2223 | what a locked validator prevotes is its locked block exactly when the cross-shard signatures succeed; otherwise the vote has no hash and the lock stands |
| Consensus.LockedNodeHaltsWithoutProposal | consensus/state.go:1151-1159 | every locked validator that changes round and times out before a proposal halts without having prevoted |
| ConsensusSafety.EnterPrevoteKeeps | consensus/state.go:1128-1149 | in every reachable state the prevote step keeps the node invariant and signs at most one vote, for exactly the round being entered, whether or not an unlocked node's cross-shard signatures succeed |
| ConsensusSafety.EnterPrecommitKeeps | consensus/state.go:1230-1324 | the same for the precommit step: a block is precommitted only when locked in that very round |
| ConsensusSafety.PrecommitChoiceKeeps | consensus/state.go:1270-1323 | relocking, locking and unlocking on the round's polka keep the node invariant, and leave exactly the lock and the choice that the polka and the blocks in hand demand |
| ConsensusSafety.OnPolkaKeeps | consensus/state.go:2064-2103 | unlocking on a later polka and tracking the valid block keep the node invariant |
| ConsensusSafety.TryFinalizeKeeps | consensus/state.go:1570-1637 | finalizing keeps the node invariant, and a decision rests on a precommit quorum of signed votes in the commit round |
| ConsensusSafety.SetupRoundKeeps | consensus/types/height_vote_set.go:82-95 | entering a round never reaches the panic of the vote sets' round change |
| ConsensusSafety.PolInfoIsCurrent | consensus/state.go:1262-1266 | in every reachable state a polka of the current round is found, so the proof-of-lock panic is out of reach |
| ConsensusSafety.StepKeeps | consensus/state.go:654-832 | every step of every node, and every vote of anyone else, keeps all nodes' invariants |
| ConsensusSafety.RunInvariant | consensus/state.go:563-2149 | the invariants hold in every state of every run |
| ConsensusSafety.RoundStepNeverDecreases | consensus/state.go:790-832 | over every run a node's round and step never go back in lexicographic order, and the vote log only grows |
| ConsensusSafety.OneVotePerRound | consensus/state.go:2191-2270 | over every run a node signs at most one prevote and one precommit per round |
| ConsensusSafety.LockHasPolka | consensus/state.go:1283-1308 | over every run a node is locked exactly when its locked round is not negative, never ahead of its round, and then holds a two-thirds majority of prevotes for the locked block in that round |
| ConsensusSafety.ValidHasPolka | consensus/state.go:2079-2103 | over every run the valid block and round are set together, never ahead of the node, and the node holds a two-thirds majority of prevotes for that block in that round |
| ConsensusSafety.LockJustification | consensus/state.go:2059-2077 | over every run a node that precommitted a block and later prevotes anything else holds, from the state in which it signs, a prevote majority against that block from a round in between, cast before that prevote |
| ConsensusSafety.NoConflictingPolka | consensus/state.go:1151-1324 | once a block has a precommit quorum no later round ever gets a prevote quorum for anything else |
| ConsensusSafety.CommitsAgree | consensus/state.go:1355-1408 | two precommit quorums of one height name one block, whatever their rounds |
| ConsensusSafety.DecisionHasCommit | consensus/state.go:1620-1637 | every decision rests on a precommit quorum of signed votes |
| ConsensusSafety.Agreement | consensus/state.go:1128-2149 | with less than a third of the power outside the nodes, over every interleaving of deliveries, timeouts and round skips, no two nodes finalize different blocks |
| ConsensusProgress.PrecommitExactly | consensus/state.go:1230-1324 | entering precommit in its round, a reachable node halts exactly on a polka for a proposed block other than its lock that does not validate; otherwise it locks and precommits a block exactly when that has the polka and is locked or proposed here, gives its lock up on any other polka, keeps it without one, and precommits nil then |
| ConsensusProgress.PrevoteExactly | consensus/state.go:1128-1199 | entering prevote in its round, a node prevotes its lock; unlocked, the proposed block if it validates and its transactions are signed; else nil; it drops the hash when the cross-shard signatures fail, and halts exactly for want of a proposal block to read |
| ConsensusProgress.DecidesExactlyWhen | consensus/state.go:1570-1637 | a running node decides a block exactly when, at the commit step, the precommits of its commit round have a majority for it and it has the block with the parts they name |
| ConsensusProgress.CommitExactly | consensus/state.go:1355-1408 | a precommit majority for a block puts a running node at the commit step of that round, with its locked block if that is the one; it decides at once exactly when it then has the block with the parts named, and fetches a block it does not have |
| ConsensusProgress.PolkaExactly | consensus/state.go:2064-2103 | a polka takes the lock exactly when it is later than it, not ahead of the node and for something else; it makes its block the valid one exactly when it is this round's, later than the one before, and for the proposed block |
| ConsensusProgress.NewRoundEntered | consensus/state.go:844-911 | a round ahead is entered from any reachable state: proposal dropped, next round's votes tracked, lock and valid block kept, proposing with the timeout that ends it |
| ConsensusProgress.FirstRoundEntered | consensus/state.go:844-911 | the first round is entered proposing, or prevoting if the proposal is there, unless the node waits for transactions |
| ConsensusProgress.WaitForTxsEnds | consensus/state.go:826-832 | transactions, or the timeout of the wait for them, make a node that waited propose |
| ConsensusProgress.TimeoutMovesOn | consensus/state.go:790-824 | in every reachable state a node that waits has the timeout that ends its wait, and that takes it to the prevote, the precommit or the next round |
| ConsensusProgress.StaleTimeout | consensus/state.go:790-797 | a timeout of an earlier round or step changes nothing |
| ConsensusProgress.ProposalExactly | consensus/state.go:1837-1869 | a proposal is taken exactly when it is the first of the node's round and names no proof of lock or one of an earlier round |
| ConsensusProgress.BlockArrives | consensus/state.go:1876-1946 | a block that arrives whole becomes the valid one exactly with this round's polka for it; it makes a node that has not prevoted prevote, and precommit if there is a polka, once the proposal is complete; at the commit step it is decided exactly when it is the block committed with the parts named |
| ConsensusProgress.PartsWithoutBlock | consensus/state.go:1876-1905 | any other part leaves all but the parts as they were |
| ConsensusProgress.VoteReaction | consensus/state.go:1978-2149 | every vote is counted; the node reacts exactly to a vote that is added, unless it has a block whose checkpoint does not match |
| ConsensusProgress.InvalidVoteReaction | consensus/types/height_vote_set.go:112-132 | a vote that is not authentic opens its round for the peer if that may open one, and does nothing else |
| ConsensusProgress.ClaimRecorded | consensus/types/height_vote_set.go:181-192 | a peer's claim is recorded with exactly the votes it is about, if those are tracked |
| ConsensusProgress.PrevoteReaction | consensus/state.go:2053-2121 | after a prevote a node that has prevoted precommits on a polka for nil or a complete proposal and else waits once two thirds voted; a round ahead in which two thirds voted is entered; a proof of lock that arrives makes it prevote |
| ConsensusProgress.PrecommitReaction | consensus/state.go:2123-2146 | from any reachable state before the commit step, a precommit majority of a round not behind takes the node, unless it halts, to that round's commit, or its wait if for nil, and two thirds of any precommits to its wait |
| ConsensusRun.AnyBlockCanBeDecided | consensus/state.go:654-832 | for any validators of some power and any block there is a run from the initial state, every validator a correct node, at whose end every node has decided that block |
| PrivVal.FilePV.constructor | privval/file.go:163-186 | a fresh signer has signed nothing, in memory and on disk |
| PrivVal.FilePV.Load | privval/file.go:199-233 | a restart keeps exactly what the file holds |
| PrivVal.FilePV.SaveSigned | privval/file.go:388-397 | the saved state lets through exactly later heights, rounds and steps, and after a reload offers the signature again at this one exactly when bytes and signature are not empty |
| PrivVal.FilePV.SignVote | privval/file.go:306-343 | a vote for a later height, round and step than the state holds is signed as asked, or refused if the key fails; in memory and on file what `PrivVal.Decide` and `PrivVal.AfterSigning` say, exactly described by `PrivVal.SignedExactlyWhen`; the file changes only with a fresh signature |
| PrivVal.FilePV.SignProposal | privval/file.go:348-385 | the same for proposals |
| PrivVal.PatchRestoresBytes | privval/file.go:403-444 | the timestamp patch is offered exactly when nothing but the timestamp differs, and then the patched message has the bytes signed before; neither decoder fails |
| PrivVal.DecideIsSafe | privval/file.go:88-114 | against a state that covers what it signed, only an unknown vote type panics, and a signed message carries the bytes and signature the state then holds |
| PrivVal.SignedExactlyWhen | privval/file.go:306-385 | against a state that covers what it signed, a known request is signed exactly when it is later than what the state holds and the key signs, which the state then holds, or repeats that up to the timestamp, with the saved time and signature; any other is refused and changes nothing |
| PrivVal.NextKeepsInv | privval/file.go:306-397 | every request, with a crash before or after the file is replaced, and every restart keeps the signer's invariant and releases at most one more message |
| PrivVal.NoDoubleSigning | privval/file.go:306-444 | over every sequence of requests, crashes and restarts, messages released for one height, round and step carry one signature over one byte string, made by the key over exactly those bytes, and releases never go back |
| PrivVal.FreshRequestReleases | privval/file.go:306-397 | over every run, a request later than what the file holds, whose key signs and which does not crash, releases exactly its own message with the key's signature, and the file then holds it; a request that is neither that nor a repeat changes nothing |
| PrivVal.PanicsUnreachable | privval/file.go:88-114 | the decode and nil-signature panics are never reached |
| PrivVal.CrashThenResign | privval/file.go:318-332 | after a crash between saving and releasing, asking again with any timestamp releases the very message signed before and uses the key no second time |
| PrivVal.ObjectMatchesRun | privval/file.go:388-397 | a request without a crash leaves memory and file equal |
| Recovery.NodeStorage.DoApplyBlock | state/execution.go:200-331 | makes exactly the durable writes of `Recovery.ApplyBlock`, in order: responses, application commit, state; an error keeps those made so far; on success the state saved has the block's height, time and identity, its transactions counted and the sets moved up by one |
| Recovery.NodeStorage.DoFinalizeCommit | consensus/state.go:1654-1723 | makes exactly the writes of `Recovery.FinalizeCommit`: the block first, unless stored already; every prefix is repairable by `RecoverySafety.FinalizeCommitSafe` |
| Recovery.NodeStorage.DoReplayBlock | consensus/replay.go:466-488 | applies one stored block on the given connection and counts it exactly if that succeeds |
| Recovery.NodeStorage.ExecCommitBlocks | consensus/replay.go:446-455 | commits to the real application exactly the stored blocks it lacks up to a height, once each and in order, and nothing else changes |
| Recovery.NodeStorage.DoReplayRange | consensus/replay.go:426-463 | makes exactly the writes of `Recovery.ReplayRange`, the last block through the state if asked, and checks the hash |
| Recovery.NodeStorage.DoInitChain | consensus/replay.go:311-351 | takes the application's initial answer into a state at height 0 only, and refuses to start without any validators |
| Recovery.NodeStorage.DoAfterInit | consensus/replay.go:353-423 | makes exactly the writes of `Recovery.AfterInit` in each case of application, store and state height, the silent return included |
| Recovery.NodeStorage.DoReplayBlocks | consensus/replay.go:298-424 | the whole handshake makes exactly the writes of `Recovery.ReplayBlocks`, of which `RecoverySafety.HandshakeRecovers` is proved |
| RecoverySafety.MockRepeatsReal | consensus/replay.go:501-535 | saved results and the reported hash give the state the real execution gave |
| RecoverySafety.ApplyBlockIgnoresSignature | state/execution.go:803-881 | the attached signature influences nothing but itself |
| RecoverySafety.RealBlockSafe | state/execution.go:254-318 | one block behind: running it on the application succeeds, commits just that block, and every prefix of its writes is repairable |
| RecoverySafety.MockBlockSafe | consensus/replay.go:401-412 | committed but not saved: the stand-in restores the state without asking the application, and every prefix is repairable |
| RecoverySafety.HandshakeRecovers | consensus/replay.go:298-488 | from any disk a crash may leave, with the application arbitrarily far behind, the handshake succeeds with application, state and store at one height and the uncrashed run's state, commits exactly the missing blocks once each and in order, and stays repairable if it crashes itself |
| RecoverySafety.FinalizeCommitSafe | consensus/state.go:1654-1723 | finalizing a block leaves a repairable disk after any prefix of its writes and keeps the three together after all of them |
| RecoverySafety.EveryRunRecovers | consensus/replay.go:298-488 | over every run of finalized blocks, handshakes and application fall-backs, each cut off anywhere, the disk stays repairable, a running node is in sync with the uncrashed run, and the application's history is a prefix of the chain |
| RecoverySafety.ReferenceDescribed | state/execution.go:803-881 | the state after any blocks is what they say: count of transactions, identity and time of the last block, validators two heights after each change with priorities advanced at even heights, parameters as last asked for, both change heights, and the results of the last block |
| RecoverySafety.AppliesExactlyWhen | state/execution.go:197-331 | a block applies exactly when it is accepted, its updates have powers that are not negative and, unless they remove, allowed key types, the set can be so changed and the parameters are valid; then responses, application and state are saved |
| RecoverySafety.RunningStateDescribed | state/execution.go:803-881 | over every run with crashes, a running node's state, and the one after any handshake, is what its stored chain says, with the application's hash |
| RecoverySafety.SilentExactlyWhen | consensus/replay.go:353-423 | on an arbitrary disk the handshake reports success with the heights apart exactly when the store is empty and the state carries the application's hash elsewhere, or the state is neither at the store nor one below |
| BlockStore.Store.SaveBlock | blockchain/store.go:145-187 | refuses anything but the next, complete block; otherwise writes its entries in order, the height descriptor last |
| BlockStore.SaveIsAtomic | blockchain/store.go:145-187 | a save cut off after any write leaves height and all blocks below as they were; a complete one makes the block readable whole |
| BlockStore.CommitsSaved | blockchain/store.go:145-187 | a complete save leaves the commit of the block before and the one seen for this block; wherever it is cut off, the commits of lower heights are as they were |
| BlockStore.HalfSavedPanicsExactlyWhen | blockchain/store.go:54-74 | on a clean store, reading the next height panics exactly when its save was cut off after the meta entry and before the last part, against the comment that meta implies the block |
| StateStore.Store.SaveValidatorsInfo | state/store.go:249-262 | stores a set exactly at its change height and every 100000 heights; refuses a change height beyond the entry |
| StateStore.Store.SaveState | state/store.go:96-110 | writes exactly `StateStore.SaveEntries`, block 1 covered at genesis; a save that refuses leaves the database as it was but for that genesis entry |
| StateStore.UpdateTakesEffect | state/execution.go:814-846 | an update decided in a block is in force two heights later, exactly as the set due was changed by it, and not before; without one the set stays; priorities advance at even heights only |
| StateStore.UnchangedSince | state/execution.go:803-881 | between its last change height and any height, membership, powers and change height are constant |
| StateStore.LoadValidatorsExact | state/store.go:188-223 | after any block-by-block run from genesis, loading any height from 1 to two past the last block gives the members and powers in force there, never by the fallback or a panic, advancing priorities by a positive count |
| StateStore.LoadParamsExact | state/store.go:278-333 | parameters are exact from 1 to one past the last block, even when they equal the value that marks an entry as pointing back |
| StateStore.InterruptedSaveHarmless | state/store.go:96-110 | with any part of the next state's entries already written, every load below answers as before |
| Commits.VerifyCommit | types/validator_set.go:591-632 | invalid exactly when the shape is wrong or a vote present is not signed by the validator at its position; else fine exactly when the votes for the block hold more than two thirds of the power, and too much change otherwise |
| Commits.VerifyFutureCommit | types/validator_set.go:663-716 | its own set's verdict unless that is fine; then invalid exactly when some old member's first vote, by claimed address, is badly signed, and else fine exactly when the old members counted hold a quorum; its height, round and type checks cannot fail |
| Commits.FindOldExactly | types/validator_set.go:676-708 | of each old member only the first vote claiming its address is looked at, and it is counted exactly when that vote is for the block |
| Commits.FineMeansQuorum | lite/commit.go:36-71 | a fine verdict means members holding a quorum signed this header |
| Commits.HashFixesCommit | lite/commit.go:36-71 | with hashes that do not collide, the block hash a valid full commit signs fixes its header, its chain and height and both validator sets |
| Commits.FutureFineMeansQuorum | types/validator_set.go:663-716 | a fine verdict of an older set means a quorum of the older set signed this header |
| Commits.ConsensusCommitIsFine | types/vote_set.go:551-569 | what consensus commits the light client accepts: the commit of a valid vote set with properly signed votes is fine against its validators exactly when its majority is for a block |
| LightClient.DynamicVerifier.constructor | lite/dynamic_verifier.go:46-54 | a new verifier trusts nothing |
| LightClient.DynamicVerifier.SaveFullCommit | lite/dbprovider.go:53-95 | the header and both validator sets are written under their heights, then the lowest heights are dropped |
| LightClient.DynamicVerifier.VerifyAndSave | lite/dynamic_verifier.go:190-204 | saves exactly when the trusted commit is lower and its next set accepts the commit; panics exactly when it is not lower |
| LightClient.DynamicVerifier.UpdateTo | lite/dynamic_verifier.go:211-267 | loop and recursion equal `LightClient.UpdateToHeight` for every source and fuel; sound by `LightSafety.UpdateSound`, answering by `LightTermination.UpdateAnswers` |
| LightClient.DynamicVerifier.VerifyHeader | lite/dynamic_verifier.go:73-184 | a header is accepted exactly when a commit stored at its height has its hash, or, nothing being half-stored there, it rests on a trusted commit whose next validators signed it and the source does not contradict its next set; the database is left as `LightClient.Verify` says, for every source and fuel |
| LightClient.AcceptedExactlyWhen | lite/dynamic_verifier.go:73-184 | the same of the specification function, for every client, trust and header |
| LightClient.StoredExactlyWhen | lite/dynamic_verifier.go:150-184 | what a header leaves behind: what finding its base brought and, exactly when it is accepted with a next set from the source, itself with the set it was checked against and that one |
| LightComplete.LatestExactly | lite/dbprovider.go:98-145 | looking up finds exactly the highest header within the limits with the sets of its height and the next, and misses exactly when there is no header within them; an upper limit of zero is none |
| LightComplete.SaveExactly | lite/dbprovider.go:53-95 | a save leaves of the heights kept exactly the commit's header and two sets and what else was there, and nothing below |
| LightComplete.ChainHeaderAccepted | lite/dynamic_verifier.go:73-184 | with set hashes that do not collide, against a consistent chain whose source offers no other next set, nothing pruned, every header above a trusted one is accepted with fuel twice the distance, and trusted from then on if its next set is offered |
| LightSafety.UpdateSound | lite/dynamic_verifier.go:211-267 | for every source, fuel and pruning an update keeps every trusted commit rooted, and a commit it returns is at exactly the height asked for and, without pruning, in the store |
| LightSafety.VerifySound | lite/dynamic_verifier.go:73-184 | verifying any header keeps every trusted commit rooted |
| LightSafety.AcceptedMeans | lite/dynamic_verifier.go:73-184 | an accepted header has the hash of a trusted commit, or a quorum of the validators a trusted commit names for its height signed it |
| LightSafety.EveryTrustedIsRooted | lite/dynamic_verifier.go:73-267 | over every run each commit ever trusted is a root or linked to one by a chain in which more than two thirds of the validators an earlier trusted commit names signed the next: those due after it, or, beside a commit one height below, its own |
| LightSafety.StrictlyLowerSupport | lite/dynamic_verifier.go:186-204 | the documented promise: with set hashes that do not collide and valid roots, over every run whose saves each line up with the header stored right below, every trusted commit but a root was signed by more than two thirds of the next validators of a strictly lower commit trusted before it |
| LightSafety.AlignedExactlyWhen | lite/dynamic_verifier.go:190-204 | saving a valid commit keeps every stored header's next-validators hash that of the set stored above it exactly when the header stored right below, if it is kept, announces the commit's validators; saving does not check this |
| LightWitness.LowerSupportCanFail | lite/dynamic_verifier.go:190-204 | two requests, from a valid root and without pruning, after which a commit is trusted that no lower commit's next validators signed: the first one's save does not line up |
| LightSafety.LoadReturnsSaved | lite/dbprovider.go:170-190 | a commit comes back with the next set it was saved with exactly when the commit saved after it one height up carries that set |
| LightSafety.PanicsExactlyWhen | lite/dynamic_verifier.go:190-193 | the impossible case is reached exactly when height zero is asked for, the source has a valid commit for it and anything is trusted |
| LightTermination.OwnSetAccepts | types/validator_set.go:663-716 | a set accepts as the older set whatever it signed itself, if votes claim the addresses of their positions |
| LightTermination.ChainVerdict | lite/dynamic_verifier.go:231-266 | along a consistent chain no trusted set ever finds a bad signature, and adjacent heights never report too much change |
| LightTermination.UpdateEnds | lite/dynamic_verifier.go:211-267 | against a consistent chain, nothing pruned, bisection reaches its height: the distance to the latest trusted height shrinks through recursion and retry |
| LightTermination.UpdateAnswers | lite/dynamic_verifier.go:211-267 | against any steady source, nothing pruned, an update to any height comes to an answer whenever no adjacent pair it can reach, of a commit stored or served and the one served right above, reports too much change |
| LightTermination.NeverEndsExactlyWhen | lite/dynamic_verifier.go:249-263 | right above the trusted height bisection answers for no fuel exactly when the trusted set reports too much change and the source keeps offering a valid commit at the trusted height |
| LightTermination.NeverEndsDecided | lite/dynamic_verifier.go:211-267 | against any steady source, nothing pruned, an update to any height never ends exactly when it has not ended with fuel twice the distance to the latest trusted height |
| LightWitness.ForeignAddressNeverEnds | lite/dynamic_verifier.go:206-263 | for any crypto under which the lone validator's signatures check: a chain of valid commits, each signed by the validators due after the one before, on which an update from height 1 to 2 ends for no fuel, because one vote claims an address that is not its validator's |
| CrossMessages.CrossMessageDB.Add | mempool/mempool.go:555-563 | the next call emits the message, after everything else due; a receipt removes it only after every earlier entry with its key |
| CrossMessages.CrossMessageDB.RemoveOne | mempool/mempool.go:571-579 | removes the first entry with the key, if any |
| CrossMessages.CrossMessageDB.Remove | mempool/mempool.go:565-584 | one first entry per receipt, in turn |
| CrossMessages.CrossMessageDB.Update | mempool/mempool.go:585-605 | emits the entries due, in order, and moves every timer on |
| CrossMessages.ResendFollowsPlan | mempool/mempool.go:555-605 | over every interleaving of additions, receipts and calls, what is emitted call by call is what a plan without timers has due: each entry on its 1st, 21st, 41st, ... call |
| CrossMessages.ReceiptsRemoveExactly | mempool/mempool.go:565-584 | a receipt list removes per key exactly the lesser of receipts and entries, leaving the rest in order with their timers |
| KeyedList.RemoveEachIsOnePass | mempool/mempool.go:565-584 | removing first entries key by key is one pass that drops per key as many as are named |
| Mempool.MempoolNode.AddRelationTable | mempool/mempool.go:880-899 | the message's key joins the keys packed at that height, and no other height's |
| Mempool.MempoolNode.SyncRelationTable | mempool/mempool.go:799-812 | the same for a message another node packed |
| Mempool.MempoolNode.ModifyRelationTable | mempool/mempool.go:919-931 | exactly the rows of the height take the confirmed packages |
| Mempool.MempoolNode.RemoveRelationTable | mempool/mempool.go:934-965 | the first row with the key, at whatever height, becomes its receipt |
| Mempool.MempoolNode.RemovePacked | mempool/mempool.go:1611-1637 | one walk equals `Mempool.RemoveCm`: every pool message packed at the height goes, each with a row, and the bytes follow |
| Mempool.MempoolNode.RemoveCommitted | mempool/mempool.go:1691-1731 | one walk equals `Mempool.RemoveTxs`: the committed transactions go and the bytes follow |
| Mempool.MempoolNode.UpdatePool | mempool/mempool.go:1639-1689 | equals `Mempool.Update`, of which `MempoolSafety.UpdateSettles` says what is left, receipted and removed |
| Mempool.MempoolNode.Check | mempool/mempool.go:742-791 | added exactly when every guard of admission passes, and otherwise answered by the first guard that fails; a settled key stays settled, and a foreign message whose key has a receipt changes nothing; the pool grows by the transaction exactly when it is added, and the byte counter stays the pool's size |
| Mempool.MempoolNode.CheckWithInfo | mempool/mempool.go:1003-1110 | added exactly when every guard passes, otherwise answered by the first that fails; the pool grows by the transaction exactly when it is added; it is remembered exactly once the first three guards pass, unless the application rejects it; rows and receipts stay, and the byte counter stays the pool's size |
| Mempool.AnsweredExactly | mempool/mempool.go:1003-1110 | for every pool and transaction: the answer, the cache and the pool after, and that the packages a foreign message confirms are cleared exactly once its list and signature are good, even if it is refused afterwards |
| Mempool.SubmittedExactly | mempool/mempool.go:742-791 | the same for what is submitted: answered from the database exactly when it is a foreign message whose key has a receipt; one from this zone is checked as a receipt and clears what it confirms whatever the answer |
| Mempool.MempoolNode.Receive | mempool/reactor.go:158-189 | a gossiped transaction keeps a settled key settled exactly when it is not a foreign message with that key that passes all of admission's guards; receipts and rows stay |
| Mempool.GossipReopensExactlyWhen | mempool/reactor.go:169-184 | gossip, which asks for no receipt, puts a foreign message of a settled key back into the pool exactly when admission's guards all pass |
| Mempool.MempoolNode.CollectRelays | mempool/mempool.go:1475-1484 | the relay transactions of a message, in order |
| Mempool.MempoolNode.Reap | mempool/mempool.go:1435-1562 | the result is the in-order expansion of the longest readable prefix that fits by size and gas, and the rows added are its messages' in order, plus one for a message only gas kept out |
| MempoolSafety.UpdateSettles | mempool/mempool.go:1611-1689 | after an update no message packed at the height is left; a key newly has a receipt exactly when it was packed and some pool message carried it; the rows gone are per key the oldest, one per message |
| MempoolSafety.SettledForever | mempool/mempool.go:742-791 | in every later state of every run, gossip and restarts that lose all but the receipts included, the settled key has its receipt and submitting a foreign message with it leaves the whole mempool unchanged; the pool holds none such all the way exactly when no peer gossiped one that was admitted |
| MempoolSafety.CommittedIsRefused | mempool/mempool.go:1639-1689 | over every run, the cache after a block lists exactly the most recent of what was there and the block's own transactions, up to its size; so unless those outnumber its places, each is refused as cached when it passes the guards asked before |
| MempoolSafety.RowsTell | mempool/mempool.go:880-931 | in every state of every run each row tells the zones of a message that was in the pool when it was reaped for the row's height, or what another node packed, with the packages that height was given last |
| MempoolSafety.ReceiptsTell | mempool/mempool.go:934-965 | in every state of every run each receipt tells the zones and packages of a row of its key that was in the table when a block was committed |
| MempoolSafety.ExpandExactly | mempool/mempool.go:1470-1516 | what is reaped are the ordinary transactions taken and the relay transactions of the messages taken |
| MempoolSafety.MessageComesBack | mempool/reactor.go:169-184 | two runs in which a settled message is gossiped, after a restart or in other bytes, is in the pool again and is packed a second time |
| MempoolSafety.BytesCounted | mempool/mempool.go:1193-1222 | the byte counter is the pool's size in every state of every run |
| MempoolSafety.LongestIsUnique | mempool/mempool.go:1497-1512 | there is exactly one longest prefix that fits |
| MempoolSafety.ReapWithoutGas | mempool/mempool.go:1497-1516 | without a gas limit the prefix is the longest whose total size fits, and no row is written for a message left out |
| TxCache.MapTxCache.constructor | mempool/mempool.go:1800-1806 | an empty cache, map and list in bijection |
| TxCache.MapTxCache.Push | mempool/mempool.go:1818-1840 | keeps map and list in bijection without duplicates and within the size; false exactly when the hash is listed |
| TxCache.MapTxCache.Remove | mempool/mempool.go:1843-1853 | the hash leaves map and list, the others keep their order |
| TxCache.MapTxCache.Reset | mempool/mempool.go:1809-1814 | map and list are empty again |
| TxCache.CacheHoldsMostRecent | mempool/mempool.go:1818-1840 | after any pushes the cache lists exactly the most recently pushed distinct hashes up to its size, none if that is zero, in order of last use |
| TxCache.PushedOntoHoldsMostRecent | mempool/mempool.go:1818-1840 | the same from any cache: after any pushes it lists the most recent of what it held and what was pushed, up to its size |
| PartSets.ChunksRejoin | types/part_set.go:97-110 | the chunks put together are the data |
| PartSets.ChunkCount | types/part_set.go:99-99 | the division rounded up counts the chunks |
| PartSets.ChunkAt | types/part_set.go:103-107 | the i-th part is the i-th stretch of the part size, the last one shorter, none empty |
| PartSets.PartSet.FromBytes | types/part_set.go:97-124 | a full set of the produced parts under their root; panics exactly on no data |
| PartSets.PartSet.FromHeader | types/part_set.go:127-135 | an empty set of the announced size |
| PartSets.PartSet.AddPart | types/part_set.go:188-215 | places a part exactly when its index is in range, its slot free and its proof verifies, with the answer that says which failed; keeps counter and bit array equal to the filled slots |
| PartSets.Reassembles | types/part_set.go:188-225 | adding the produced parts in any order with repetitions is complete exactly when every index was added, and then the parts hold the data |
| PartSets.AnyPartsReassemble | types/part_set.go:188-215 | whatever parts were accepted, a complete set holds in each slot the chunk the turns of that part's proof lead to; it holds the data if every proof is for the part's own index in a tree of as many parts as the set has, a check the code does not make; and where the parts have their slots' lengths, as when the data fills its parts, exactly when each slot's chunk equals the one due there |
| PartSets.SwappedPartsAccepted | types/part_set.go:188-215 | two parts with each other's index are accepted, complete the set, and read back the wrong way round |
| PartSets.OtherTotalAccepted | types/part_set.go:188-215 | three parts whose proofs carry the parts' own indexes are accepted and complete the set, one of them with the total of a smaller tree, and the second of three chunks is lost |
| Merkle.ProofsVerify | crypto/merkle/simple_proof.go:27-40 | every proof made for an item verifies against the root, with any digest |
| Merkle.VerifiedItem | crypto/merkle/simple_proof.go:67-145 | with a digest without collisions, whatever proof verifies against the root of some items, of any claimed index, total and aunts, verifies the item its turns lead to in that tree |
| Merkle.OwnTotalVerifiesExactly | crypto/merkle/simple_proof.go:67-145 | a proof that claims the tree's own total verifies exactly when it is the one made for the item at its index |
| Merkle.OtherTotalVerifies | crypto/merkle/simple_proof.go:67-145 | a proof that claims another total may verify an item that is not at its index: the last of three as the second of two |
| PartSets.PartSet.GetReader | types/part_set.go:227-246 | a reader over exactly the bytes of the parts; panics exactly when a part is missing or there is none |
| PartSets.PartSetReader.Read | types/part_set.go:248-267 | a non-empty buffer gets the next bytes; end of file exactly when too few remain, possibly with bytes; the recursion ends |
| PartSets.PartSetReader.ReadAll | types/part_set.go:248-267 | reading with any non-empty buffers to the end of file ends and returns exactly the bytes of the parts |
| BlockPools.BlockPool.constructor | blockchain/pool.go:84-97 | an empty pool at the start height |
| BlockPools.BlockPool.MakeNextRequester | blockchain/pool.go:386-404 | exactly the next height is asked for, if it is not above the maximum; contiguity is kept and the counter's surplus unchanged |
| BlockPools.BlockPool.PopRequest | blockchain/pool.go:230-246 | contiguity is kept; the counter's surplus over the requesters lacking a block grows by one exactly when the one popped lacks its block; panics exactly without a requester at the pool height |
| BlockPools.BlockPool.AddBlock | blockchain/pool.go:265-292 | stores exactly this block, when its requester lacks one and asked this peer, which then has one request less; a height far off is told from an unexpected one; the counter's surplus, the requesters' heights and the maximum's dominance are kept |
| BlockPools.BlockPool.SetPeerHeight | blockchain/pool.go:302-318 | the peer is there at exactly that height, with its requests if it was known, and every other peer stays; the maximum keeps dominating every peer and is its old value or this height |
| BlockPools.BlockPool.RemovePeer | blockchain/pool.go:329-350 | exactly the requesters of the peer are told to start over, the peer is gone, and a lost maximum is found anew |
| BlockPools.BlockPool.UpdateMaxPeerHeight | blockchain/pool.go:353-361 | the maximum of the heights, or zero |
| BlockPools.BlockPool.PickIncrAvailablePeer | blockchain/pool.go:365-384 | finds a peer exactly when one can serve, dropping only peers that timed out |
| BlockPools.BlockPool.IsCaughtUp | blockchain/pool.go:191-210 | true exactly with peers, a block or enough waiting, and no known height more than one above; then, the maximum dominating, at most one behind every connected peer |
| BlockPools.RunInvariant | blockchain/pool.go:191-404 | over every run requester keys are the contiguous interval from the pool height, the maximum dominates every connected peer, and the pending counter is the requesters lacking a block plus what has leaked |
| BlockPools.CounterExactWhen | blockchain/pool.go:549-590 | the counter is exact exactly when no pop lacked a block and no popped requester gave its block back afterwards |
| BlockPools.NeverOverloaded | blockchain/pool.go:365-384 | over every run no peer has more than twenty requests open |
| BlockPools.LeaksHappen | blockchain/pool.go:549-625 | two scheduled runs in which the reactor sees the blocks of two heights, and which end with no requester lacking a block and one request counted as pending: the lower requester is popped after it gave its block back, or gives it back after it was popped |
| BlockPools.AnyLeakHappens | blockchain/pool.go:139-152 | for every amount up to the pending limit there is a scheduled run in which exactly that much has leaked |
| BlockPools.SyncStops | blockchain/pool.go:139-152 | over every run of the scheduling routine, once the leak alone fills the pending limit the pool never gets past the heights asked for by then and one more |
| BlockPools.CaughtUpMeans | blockchain/pool.go:191-210 | caught up means at most one behind every connected peer |
| Wal.DecodeRecord | consensus/wal.go:282-380 | one record followed by anything decodes to its message and leaves the rest |
| Wal.DecodeExactly | consensus/wal.go:330-380 | a record is accepted exactly when its length is from one to the maximum and all there, its checksum is that of its data and the data unmarshals; anything else is corruption, and where reading goes on |
| Wal.DamageDetected | consensus/wal.go:364-368 | bytes in place of the data that do not have its checksum are corruption |
| Wal.TornRecord | consensus/wal.go:330-362 | a record torn off anywhere is the end of the log or corruption, never a message |
| Wal.LogRoundTrip | consensus/wal.go:282-380 | decoding the concatenation of any encoded messages yields those messages, then the end |
| Wal.ScanReader | consensus/wal.go:229-257 | reads to just behind the marker or to the end with the last marker seen, skipping corruption if asked; exact by `Wal.ScanExactly` |
| Wal.ScanExactly | consensus/wal.go:229-257 | on any log of records and damaged stretches a scan stops behind the first marker of the height, skipping the damage before it or failing on it unless told to ignore it, and otherwise ends with the last marker seen |
| Wal.SearchForEndHeight | consensus/wal.go:213-263 | loops equal `Wal.Search`: newest file first, early stop; exact by `Wal.SearchIsExact` |
| Wal.SearchIsExact | consensus/wal.go:213-263 | on any log of records and damaged stretches whose positive markers increase: a marker found is one of the height with the reader just behind it, none is reported only if there is none, and it fails only on damage not ignored; ignoring damage, or with none, a marker is found exactly when there is one |
| Ledger.ItoaRoundTrip | account/account.go:343-350 | a stored balance reads back as the number written |
| Ledger.ParseRoundTrip | account/account.go:246-287 | a formatted transfer parses back to itself |
| Ledger.ParseGivesParsed | account/account.go:246-287 | only a plain transaction carries a transfer |
| Ledger.ParsesExactly | account/account.go:246-287 | a plain transaction parses exactly when it is four fields joined by underscores of which the third is a number, and then to those fields |
| Ledger.AtoiExactly | account/account.go:343-346 | a number is at least one digit, with or without a sign, and its value that of the digits |
| Ledger.AccountBook.SaveLog | account/account.go:150-188 | from books where snapshot plus differences is the ledger, a parsed log leaves them so exactly when it is harmless |
| Ledger.AccountBook.SetSnapshotCache | account/account.go:651-662 | the difference of that named account moves by the amount, every other stays, and nothing else changes |
| Ledger.AccountBook.GenerateSnapshotFast | account/account.go:414-433 | merges every difference into the snapshot and empties the cache; where snapshot plus differences was the ledger, the snapshot now is |
| Ledger.AgreementKeptExactlyWhen | account/account.go:150-188 | saving a parsed log keeps snapshot plus differences equal to the ledger exactly when a transfer names its recipient or moves nothing and a mint meets an empty account |
| Ledger.MintTwice | account/account.go:166-174 | two mints to one account after which ledger and snapshot differ |
| Ledger.RunsAgree | account/account.go:150-188 | over every run of parsed logs and snapshots, snapshot plus differences is the ledger after every entry exactly when every log is harmless where it stands |
| Ledger.MergeMakesLedger | account/account.go:414-433 | merging then makes the snapshot the ledger |
| Ledger.TransferConserves | account/account.go:156-177 | a transfer leaves the total over any accounts that include both ends unchanged |
| PeerIds.MempoolIDs.constructor | mempool/reactor.go:100-106 | zero is reserved and the counter starts at one |
| PeerIds.MempoolIDs.NextPeerID | mempool/reactor.go:65-78 | ends despite the wrap-around with the first inactive ID from the counter on; panics exactly when 65535 are active |
| PeerIds.MempoolIDs.ReserveForPeer | mempool/reactor.go:54-61 | connected peers hold distinct, non-zero, active IDs; an ID is lost exactly when a peer that has one reserves again |
| PeerIds.MempoolIDs.Reclaim | mempool/reactor.go:81-90 | gives the peer's ID back and keeps all of that |

## Left out

- ConsensusRun.AnyBlockCanBeDecided: one run, not that every fair run decides; who proposes and how timers run is not part of the model.
- VoteSets.AddVoteKeepsValid: the vote sets are values that are replaced, not objects updated in place; signature and address checks of a vote come before the model.
- ConsensusSafety.Agreement: one height; a node that crashes stops, and the change of height, the votes of the previous height and skipping the commit timeout are not part of a run.
- ConsensusNode.ConsensusState.AddProposalBlockPart: parts are counted as more, last or undecodable; a block that fails to decode leaves the old proposal block in place.
- PrivVal.NoDoubleSigning: the two cross-shard signatures made beside a prevote are outside the guard and outside the model; so is the unsafe reset.
- RecoverySafety.EveryRunRecovers: connection errors of the application, the account ledger applied again on replay, snapshots, cross-message bookkeeping, events and the protocol version are not modelled; an uncrashed run that fails on a block has no state to recover.
- StateStore.LoadValidatorsExact: membership and powers only; proposer priorities differ because they advance on even heights when saved and on every height when loaded.
- LightClient.DynamicVerifier.VerifyHeader: concurrent requests for one height are not modelled; fuel stands in for running on, and every statement is for all fuels.
- LightSafety.EveryTrustedIsRooted: allows a step to the validators of a commit at the same height, because the code does; `LightWitness.LowerSupportCanFail` shows that without it the statement is false.
- LightTermination.UpdateEnds: asks that votes claim the addresses of their positions, which verification by position does not check; without it there may be no end (`LightWitness.ForeignAddressNeverEnds`).
- LightTermination.UpdateAnswers: a source that changes its answers, and pruning, are not covered.
- MempoolSafety.SettledForever: a key packed while no pool message carries it gets no receipt and is not settled.
- Mempool.MempoolNode.CheckWithInfo: the record of which peer sent what, the map from hashes to elements, the mempool's own log and its notifications are not modelled.
- Mempool.MempoolNode.Reap: compressing a message again after reading it cannot fail here.
- PartSets.AnyPartsReassemble: where a shorter last chunk sits in another slot the condition is sufficient only, since it can by chance join to the same bytes.
- Merkle.ProofsVerify: the tree of nodes a proof is read off from is a recursive function here, not a linked structure.
- BlockPools.RunInvariant: without snapshot sync, which sets the heights directly; receive rates only as peers timing out.
- Wal.SearchIsExact: file rotation and flushing are not modelled; files hold whole records and whole damaged stretches.
- Ledger.RunsAgree: balances do not overflow; the other two snapshot versions are not modelled.
- PartSets.PartSet.AddPart: a negative index, which validation refuses beforehand, is not modelled.
- Integers are unbounded except where a width matters: peer IDs wrap at 16 bits, record lengths at 32.
- Block validation, proposer selection, evidence, BLS aggregation, gossip, RPC, reconfiguration, health scores and metrics: plumbing, or members that would only be easy.
