/** Commits and their verification against a validator set (`types/validator_set.go`,
    `types/block.go`, `lite/commit.go`, `lite/base_verifier.go`).

    Signature checking and hashing are parameters: nothing below relies on what they are. */
module Commits {
  import opened Options
  import opened VotingPower
  import VoteSets
  import PrivVal

  type Hash = nat
  type Key = nat
  type Address = nat
  type Signature = nat
  type BlockID = VoteSets.BlockID

  datatype Validator = Validator(address: Address, key: Key, power: nat)
  type ValidatorSet = seq<Validator>

  function Powers(vals: ValidatorSet): (p: seq<nat>)
    ensures |p| == |vals| && forall i :: 0 <= i < |vals| ==> p[i] == vals[i].power
  {
    seq(|vals|, i requires 0 <= i < |vals| => vals[i].power)
  }

  datatype Precommit = Precommit(
    kind: nat, height: int, round: int, block: BlockID, time: int, address: Address, signature: Signature)

  datatype Commit = Commit(block: BlockID, precommits: seq<Option<Precommit>>)

  datatype Header = Header(chain: string, height: nat, validatorsHash: Hash, nextValidatorsHash: Hash, rest: nat)

  datatype SignedHeader = SignedHeader(header: Header, commit: Commit)

  datatype FullCommit = FullCommit(signed: SignedHeader, validators: ValidatorSet, next: ValidatorSet)

  datatype Crypto = Crypto(
    verify: (Key, PrivVal.Canonical, Signature) -> bool,
    hashHeader: Header -> Hash,
    hashSet: ValidatorSet -> Hash)

  datatype Verdict = Fine | Invalid | TooMuchChange

  // ----- one commit ------------------------------------------------------------------------------

  /** Height and round are those of the first vote present, zero when there is none. */
  function FirstVote(ps: seq<Option<Precommit>>): Option<Precommit> {
    if ps == [] then None else if ps[0].Some? then ps[0] else FirstVote(ps[1..])
  }

  function CommitHeight(c: Commit): int {
    if FirstVote(c.precommits).Some? then FirstVote(c.precommits).value.height else 0
  }

  function CommitRound(c: Commit): int {
    if FirstVote(c.precommits).Some? then FirstVote(c.precommits).value.round else 0
  }

  predicate IsZero(b: BlockID) {
    b == VoteSets.NIL_BLOCK
  }

  predicate CommitBasic(c: Commit) {
    && !IsZero(c.block) && c.precommits != []
    && (forall i :: 0 <= i < |c.precommits| && c.precommits[i].Some? ==>
          c.precommits[i].value.kind == PrivVal.PRECOMMIT_TYPE
          && c.precommits[i].value.height == CommitHeight(c)
          && c.precommits[i].value.round == CommitRound(c))
  }

  /** What a validator signs: everything but its address. */
  function SignedForm(chain: string, p: Precommit): PrivVal.Canonical {
    PrivVal.CanonicalVote(p.kind, p.height, p.round, p.block, p.time, chain)
  }

  predicate GoodSignature(k: Crypto, chain: string, v: Validator, p: Precommit) {
    k.verify(v.key, SignedForm(chain, p), p.signature)
  }

  predicate Shaped(vals: ValidatorSet, block: BlockID, height: int, c: Commit) {
    CommitBasic(c) && |vals| == |c.precommits| && height == CommitHeight(c) && block == c.block
  }

  /** The positions, among the first `n`, that vote for the block. */
  function VotersFor(block: BlockID, c: Commit, n: nat): set<nat>
    requires n <= |c.precommits|
  {
    if n == 0 then {}
    else
      var p := c.precommits[n - 1];
      VotersFor(block, c, n - 1) + (if p.Some? && p.value.block == block then {n - 1} else {})
  }

  predicate SignaturesGood(k: Crypto, vals: ValidatorSet, chain: string, c: Commit, n: nat)
    requires n <= |vals| == |c.precommits|
  {
    forall i :: 0 <= i < n && c.precommits[i].Some? ==> GoodSignature(k, chain, vals[i], c.precommits[i].value)
  }

  /** The verdict by position: every vote present is properly signed, and those for the block carry
      a quorum. */
  function CommitVerdict(k: Crypto, vals: ValidatorSet, chain: string, block: BlockID, height: int, c: Commit): Verdict {
    if !Shaped(vals, block, height, c) || !SignaturesGood(k, vals, chain, c, |vals|) then Invalid
    else if Tally(Powers(vals), VotersFor(block, c, |vals|)) >= Quorum(Powers(vals)) then Fine
    else TooMuchChange
  }

  lemma {:induction false} VotersForExactly(block: BlockID, c: Commit, n: nat, i: nat)
    requires n <= |c.precommits|
    ensures i in VotersFor(block, c, n) <==> i < n && c.precommits[i].Some? && c.precommits[i].value.block == block
  {
    if n > 0 {
      VotersForExactly(block, c, n - 1, i);
    }
  }

  method VerifyCommit(k: Crypto, vals: ValidatorSet, chain: string, block: BlockID, height: int, c: Commit) returns (r: Verdict)
    ensures r.Invalid? <==> !(Shaped(vals, block, height, c) && SignaturesGood(k, vals, chain, c, |vals|))
    ensures !r.Invalid? ==> (r.Fine? <==> 3 * Tally(Powers(vals), VotersFor(block, c, |vals|)) > 2 * Total(Powers(vals)))
    ensures r == CommitVerdict(k, vals, chain, block, height, c)
  {
    if !CommitBasic(c) || |vals| != |c.precommits| || height != CommitHeight(c) || block != c.block {
      return Invalid;
    }
    var tallied := 0;
    var i := 0;
    EmptyTally(Powers(vals), {}, |vals|);
    while i < |c.precommits|
      invariant 0 <= i <= |c.precommits|
      invariant SignaturesGood(k, vals, chain, c, i)
      invariant tallied == TallyUpTo(Powers(vals), VotersFor(block, c, i), |vals|)
    {
      VotersForExactly(block, c, i, i);
      if c.precommits[i].Some? {
        var p := c.precommits[i].value;
        if !GoodSignature(k, chain, vals[i], p) {
          return Invalid;
        }
        if p.block == block {
          TallyInsert(Powers(vals), VotersFor(block, c, i), i, |vals|);
          tallied := tallied + vals[i].power;
        }
      }
      assert VotersFor(block, c, i) + {} == VotersFor(block, c, i);
      i := i + 1;
    }
    if tallied > Total(Powers(vals)) * 2 / 3 {
      return Fine;
    }
    return TooMuchChange;
  }

  // ----- a commit against an older set -----------------------------------------------------------

  /** The first validator with an address. */
  function ByAddress(vals: ValidatorSet, a: Address): (r: Option<nat>)
    ensures r.Some? ==> r.value < |vals| && vals[r.value].address == a
    ensures r.None? <==> forall i :: 0 <= i < |vals| ==> vals[i].address != a
  {
    if vals == [] then None
    else if vals[0].address == a then Some(0)
    else
      var rest := ByAddress(vals[1..], a);
      assert vals == [vals[0]] + vals[1..];
      if rest.Some? then Some(rest.value + 1) else None
  }

  /** Old members found so far, and those of them counted for the block; a bad signature ends it. */
  datatype Found = Found(seen: set<nat>, counted: set<nat>) | BadSignature

  function FindOld(k: Crypto, vals: ValidatorSet, chain: string, block: BlockID, c: Commit, n: nat): Found
    requires n <= |c.precommits|
  {
    if n == 0 then Found({}, {})
    else
      var f := FindOld(k, vals, chain, block, c, n - 1);
      if f.BadSignature? || c.precommits[n - 1].None? then f
      else
        var p := c.precommits[n - 1].value;
        var v := ByAddress(vals, p.address);
        if v.None? || v.value in f.seen then f
        else if !GoodSignature(k, chain, vals[v.value], p) then BadSignature
        else Found(f.seen + {v.value}, if p.block == block then f.counted + {v.value} else f.counted)
  }

  /** The verdict of an older set: valid for its own set, and a quorum of the old one among the
      voters, looked up by the address each vote claims and counted once. */
  function FutureVerdict(k: Crypto, vals: ValidatorSet, newer: ValidatorSet, chain: string, block: BlockID, height: int, c: Commit): Verdict {
    var own := CommitVerdict(k, newer, chain, block, height, c);
    if !own.Fine? then own
    else
      var f := FindOld(k, vals, chain, block, c, |c.precommits|);
      if f.BadSignature? then Invalid
      else if Tally(Powers(vals), f.counted) >= Quorum(Powers(vals)) then Fine
      else TooMuchChange
  }

  lemma {:induction false} FoundWithin(k: Crypto, vals: ValidatorSet, chain: string, block: BlockID, c: Commit, n: nat, v: nat)
    requires n <= |c.precommits| && FindOld(k, vals, chain, block, c, n).Found?
    ensures var f := FindOld(k, vals, chain, block, c, n);
            f.counted <= f.seen && (v in f.seen ==> v < |vals|)
  {
    if n > 0 {
      FoundWithin(k, vals, chain, block, c, n - 1, v);
    }
  }

  lemma {:induction false} BadSignatureStays(k: Crypto, vals: ValidatorSet, chain: string, block: BlockID, c: Commit, i: nat, n: nat)
    requires i <= n <= |c.precommits| && FindOld(k, vals, chain, block, c, i).BadSignature?
    ensures FindOld(k, vals, chain, block, c, n).BadSignature?
    decreases n
  {
    if i < n {
      BadSignatureStays(k, vals, chain, block, c, i, n - 1);
    }
  }

  lemma FineVotes(k: Crypto, vals: ValidatorSet, chain: string, block: BlockID, height: int, c: Commit, i: nat)
    requires CommitVerdict(k, vals, chain, block, height, c).Fine? && i < |c.precommits| && c.precommits[i].Some?
    ensures var p := c.precommits[i].value;
            p.height == height && p.round == CommitRound(c) && p.kind == PrivVal.PRECOMMIT_TYPE
  {
  }

  /** The i-th vote is the first that claims the address of old member `v`. */
  ghost predicate FirstBy(vals: ValidatorSet, c: Commit, i: nat, v: nat) {
    && i < |c.precommits| && ClaimedBy(vals, c, i) == Some(v)
    && forall j: nat :: j < i ==> ClaimedBy(vals, c, j) != Some(v)
  }

  /** The old member whose address the i-th vote claims. */
  function ClaimedBy(vals: ValidatorSet, c: Commit, i: nat): Option<nat>
    requires i < |c.precommits|
  {
    if c.precommits[i].None? then None else ByAddress(vals, c.precommits[i].value.address)
  }

  /** Of each old member only the first vote claiming its address is looked at: a bad signature on one of
      those refuses the commit, and the members counted are those whose first vote is for the block. */
  lemma {:induction false} FindOldExactly(k: Crypto, vals: ValidatorSet, chain: string, block: BlockID, c: Commit, n: nat, v: nat)
    requires n <= |c.precommits|
    ensures var f := FindOld(k, vals, chain, block, c, n);
            && (f.BadSignature? <==> SomeBad(k, vals, chain, c, n))
            && (f.Found? ==>
                  && (v in f.seen <==> exists i: nat :: i < n && FirstBy(vals, c, i, v))
                  && (v in f.counted <==> exists i: nat :: i < n && FirstBy(vals, c, i, v) && c.precommits[i].value.block == block))
  {
    hide ByAddress, GoodSignature;
    if n > 0 {
      var i: nat := n - 1;
      FindOldExactly(k, vals, chain, block, c, i, v);
      var w := ClaimedBy(vals, c, i);
      if w.Some? {
        FindOldExactly(k, vals, chain, block, c, i, w.value);
        FirstClaim(vals, c, i, w.value);
      }
    }
  }

  lemma {:induction false} FirstClaim(vals: ValidatorSet, c: Commit, i: nat, v: nat)
    requires i < |c.precommits| && ClaimedBy(vals, c, i) == Some(v)
    ensures FirstBy(vals, c, i, v) <==> !(exists j: nat :: j < i && FirstBy(vals, c, j, v))
    ensures exists j: nat :: j <= i && FirstBy(vals, c, j, v)
  {
    if j: nat :| j < i && ClaimedBy(vals, c, j) == Some(v) {
      FirstClaim(vals, c, j, v);
    }
  }

  /** Among the first `n` votes, the first by some old member is not signed by it. */
  ghost predicate SomeBad(k: Crypto, vals: ValidatorSet, chain: string, c: Commit, n: nat) {
    exists i: nat, w: nat :: i < n && FirstBy(vals, c, i, w) && BadAt(k, vals, chain, c, i, w)
  }

  predicate BadAt(k: Crypto, vals: ValidatorSet, chain: string, c: Commit, i: nat, v: nat) {
    i < |c.precommits| && c.precommits[i].Some? && v < |vals| && !GoodSignature(k, chain, vals[v], c.precommits[i].value)
  }

  method VerifyFutureCommit(k: Crypto, vals: ValidatorSet, newer: ValidatorSet, chain: string, block: BlockID, height: int, c: Commit) returns (r: Verdict)
    ensures var own := CommitVerdict(k, newer, chain, block, height, c);
            if !own.Fine? then r == own
            else r.Invalid? <==> SomeBad(k, vals, chain, c, |c.precommits|)
    ensures r == FutureVerdict(k, vals, newer, chain, block, height, c)
  {
    hide SomeBad, CommitVerdict, VotersFor, TotalUpTo, ByAddress;
    FindOldExactly(k, vals, chain, block, c, |c.precommits|, 0);
    r := VerifyCommit(k, newer, chain, block, height, c);
    if !r.Fine? {
      return;
    }
    var oldPower := 0;
    var seen := {};
    ghost var counted := {};
    EmptyTally(Powers(vals), {}, |vals|);
    var round := CommitRound(c);
    var i := 0;
    while i < |c.precommits|
      invariant 0 <= i <= |c.precommits|
      invariant FindOld(k, vals, chain, block, c, i) == Found(seen, counted)
      invariant oldPower == TallyUpTo(Powers(vals), counted, |vals|)
    {
      if c.precommits[i].Some? {
        var p := c.precommits[i].value;
        if p.height != height || p.round != round || p.kind != PrivVal.PRECOMMIT_TYPE {
          FineVotes(k, newer, chain, block, height, c, i);
          assert false;
        }
        var v := ByAddress(vals, p.address);
        if v.Some? && v.value !in seen {
          FoundWithin(k, vals, chain, block, c, i, v.value);
          seen := seen + {v.value};
          if !GoodSignature(k, chain, vals[v.value], p) {
            BadSignatureStays(k, vals, chain, block, c, i + 1, |c.precommits|);
            return Invalid;
          }
          if p.block == block {
            TallyInsert(Powers(vals), counted, v.value, |vals|);
            counted := counted + {v.value};
            oldPower := oldPower + vals[v.value].power;
          }
        }
      }
      i := i + 1;
    }
    if oldPower <= Total(Powers(vals)) * 2 / 3 {
      return TooMuchChange;
    }
    return Fine;
  }

  // ----- full commits ----------------------------------------------------------------------------

  predicate HeaderBasic(k: Crypto, chain: string, s: SignedHeader) {
    && s.header.chain == chain
    && CommitHeight(s.commit) == s.header.height
    && s.commit.block.hash == Some(k.hashHeader(s.header))
    && CommitBasic(s.commit)
  }

  predicate FullValid(k: Crypto, chain: string, fc: FullCommit) {
    && fc.validators != [] && fc.signed.header.validatorsHash == k.hashSet(fc.validators)
    && fc.next != [] && fc.signed.header.nextValidatorsHash == k.hashSet(fc.next)
    && HeaderBasic(k, chain, fc.signed)
    && CommitVerdict(k, fc.validators, fc.signed.header.chain, fc.signed.commit.block, fc.signed.header.height, fc.signed.commit).Fine?
  }

  /** The fixed-set verifier: the height is not below its own, the set matches, a quorum signed. */
  predicate BaseVerified(k: Crypto, chain: string, height: nat, vals: ValidatorSet, s: SignedHeader) {
    && s.header.chain == chain && s.header.height >= height
    && s.header.validatorsHash == k.hashSet(vals)
    && HeaderBasic(k, chain, s)
    && CommitVerdict(k, vals, chain, s.commit.block, s.header.height, s.commit).Fine?
  }

  // ----- what a verdict means --------------------------------------------------------------------

  /** Validator `v` has a vote in the commit for its block, at the given height, whose signature
      checks under `v`'s key. */
  ghost predicate Signed(k: Crypto, chain: string, height: int, c: Commit, v: Validator) {
    exists i :: 0 <= i < |c.precommits| && SignedAt(k, chain, height, c, v, i)
  }

  predicate SignedAt(k: Crypto, chain: string, height: int, c: Commit, v: Validator, i: int)
    requires 0 <= i < |c.precommits|
  {
    && c.precommits[i].Some?
    && var p := c.precommits[i].value;
       p.block == c.block && p.height == height && p.kind == PrivVal.PRECOMMIT_TYPE && GoodSignature(k, chain, v, p)
  }

  /** More than two thirds of a set's power signed the header: some set of its members, all of whom
      signed, holds a quorum. */
  ghost predicate SignedByQuorum(k: Crypto, chain: string, vals: ValidatorSet, s: SignedHeader) {
    && s.commit.block.hash == Some(k.hashHeader(s.header))
    && exists members: set<nat> ::
         QuorumOf(k, chain, vals, s, members)
  }

  ghost predicate QuorumOf(k: Crypto, chain: string, vals: ValidatorSet, s: SignedHeader, members: set<nat>) {
    && (forall v :: v in members ==> v < |vals| && Signed(k, chain, s.header.height, s.commit, vals[v]))
    && Tally(Powers(vals), members) >= Quorum(Powers(vals))
  }

  lemma FineMeansQuorum(k: Crypto, chain: string, vals: ValidatorSet, s: SignedHeader)
    requires HeaderBasic(k, chain, s)
    requires CommitVerdict(k, vals, chain, s.commit.block, s.header.height, s.commit).Fine?
    ensures SignedByQuorum(k, chain, vals, s)
  {
    var members := VotersFor(s.commit.block, s.commit, |vals|);
    forall v | v in members
      ensures v < |vals| && Signed(k, chain, s.header.height, s.commit, vals[v])
    {
      VotersForExactly(s.commit.block, s.commit, |vals|, v);
      assert SignedAt(k, chain, s.header.height, s.commit, vals[v], v);
    }
    assert QuorumOf(k, chain, vals, s, members);
  }

  lemma {:induction false} CountedSigned(k: Crypto, vals: ValidatorSet, chain: string, height: int, c: Commit, n: nat, v: nat)
    requires n <= |c.precommits| && CommitBasic(c) && CommitHeight(c) == height
    requires FindOld(k, vals, chain, c.block, c, n).Found? && v in FindOld(k, vals, chain, c.block, c, n).counted
    ensures v < |vals| && Signed(k, chain, height, c, vals[v])
  {
    hide CommitHeight, CommitRound;
    FoundWithin(k, vals, chain, c.block, c, n, v);
    if v in FindOld(k, vals, chain, c.block, c, n - 1).counted {
      CountedSigned(k, vals, chain, height, c, n - 1, v);
    } else {
      assert SignedAt(k, chain, height, c, vals[v], n - 1);
    }
  }

  lemma FutureFineMeansQuorum(k: Crypto, chain: string, vals: ValidatorSet, newer: ValidatorSet, s: SignedHeader)
    requires HeaderBasic(k, chain, s)
    requires FutureVerdict(k, vals, newer, chain, s.commit.block, s.header.height, s.commit).Fine?
    ensures SignedByQuorum(k, chain, vals, s)
  {
    var c := s.commit;
    var members := FindOld(k, vals, chain, c.block, c, |c.precommits|).counted;
    forall v | v in members
      ensures v < |vals| && Signed(k, chain, s.header.height, c, vals[v])
    {
      CountedSigned(k, vals, chain, s.header.height, c, |c.precommits|, v);
    }
    assert QuorumOf(k, chain, vals, s, members);
  }

  /** With hashes that do not collide, the block hash a valid full commit signs fixes its header and
      both its validator sets. */
  lemma HashFixesCommit(k: Crypto, chain: string, a: FullCommit, b: FullCommit)
    requires forall x: Header, y: Header :: k.hashHeader(x) == k.hashHeader(y) ==> x == y
    requires forall x: ValidatorSet, y: ValidatorSet :: k.hashSet(x) == k.hashSet(y) ==> x == y
    requires FullValid(k, chain, a) && FullValid(k, chain, b) && a.signed.commit.block.hash == b.signed.commit.block.hash
    ensures a.signed.header == b.signed.header && a.validators == b.validators && a.next == b.next
    ensures a.signed.header.chain == chain && CommitHeight(a.signed.commit) == a.signed.header.height
    ensures SignedByQuorum(k, chain, b.validators, a.signed)
  {
    FineMeansQuorum(k, chain, a.validators, a.signed);
  }

  // ----- commits made by consensus ---------------------------------------------------------------

  /** What a vote adds to its block: time and signature. */
  datatype Mark = Mark(time: int, signature: Signature)

  /** The commit a vote set of precommits makes for its majority block. */
  function MakeCommit(vs: VoteSets.VoteSet, vals: ValidatorSet, height: int, round: int, marks: nat -> Mark): Commit
    requires vs.maj23.Some? && |vs.votes| == |vals|
  {
    Commit(vs.maj23.value,
           seq(|vals|, i requires 0 <= i < |vals| => PrecommitAt(vs, vals, height, round, marks, i)))
  }

  function PrecommitAt(vs: VoteSets.VoteSet, vals: ValidatorSet, height: int, round: int, marks: nat -> Mark, i: nat): Option<Precommit>
    requires i < |vals| == |vs.votes|
  {
    if vs.votes[i].None? then None
    else Some(Precommit(PrivVal.PRECOMMIT_TYPE, height, round, vs.votes[i].value, marks(i).time, vals[i].address, marks(i).signature))
  }

  lemma {:induction false} FirstVoteIs(ps: seq<Option<Precommit>>, height: int, round: int)
    requires forall i :: 0 <= i < |ps| && ps[i].Some? ==> ps[i].value.height == height && ps[i].value.round == round
    requires exists i :: 0 <= i < |ps| && ps[i].Some?
    ensures FirstVote(ps).Some? && FirstVote(ps).value.height == height && FirstVote(ps).value.round == round
  {
    if ps[0].None? {
      FirstVoteIs(ps[1..], height, round);
    }
  }

  /** What consensus commits, the light client accepts: the commit of a valid vote set with properly
      signed votes is fine against its own validators exactly when its majority is for a block. */
  lemma ConsensusCommitIsFine(k: Crypto, vs: VoteSets.VoteSet, vals: ValidatorSet, chain: string, height: int, round: int, marks: nat -> Mark)
    requires VoteSets.Valid(Powers(vals), vs) && vs.maj23.Some?
    requires forall i: nat :: i < |vals| && PrecommitAt(vs, vals, height, round, marks, i).Some? ==>
               GoodSignature(k, chain, vals[i], PrecommitAt(vs, vals, height, round, marks, i).value)
    ensures |vs.votes| == |vals|
    ensures CommitVerdict(k, vals, chain, vs.maj23.value, height, MakeCommit(vs, vals, height, round, marks)).Fine?
            <==> !IsZero(vs.maj23.value)
  {
    var b := vs.maj23.value;
    var c := MakeCommit(vs, vals, height, round, marks);
    VoteSets.CommitCarriesQuorum(Powers(vals), vs);
    var voters := VotersFor(b, c, |vals|);
    forall i: nat
      ensures i in voters <==> i in VoteSets.CanonicalVoters(vs, b)
    {
      VotersForExactly(b, c, |vals|, i);
    }
    assert voters == VoteSets.CanonicalVoters(vs, b);
    if forall i: nat :: i < |vals| ==> i !in voters {
      TallyMonotone(Powers(vals), voters, {}, |vals|);
      EmptyTally(Powers(vals), {}, |vals|);
      assert false;
    }
    var i: nat :| i < |vals| && i in voters;
    VotersForExactly(b, c, |vals|, i);
    FirstVoteIs(c.precommits, height, round);
  }
}
