/** Two light client runs that show what the results about runs rest on: a header accepted although no
    lower commit's next validators signed it, and an update that never ends. */
module LightWitness {
  import opened Options
  import opened VotingPower
  import opened Commits
  import opened LightClient
  import opened LightSafety
  import LightTermination
  import VoteSets
  import PrivVal

  const ALONE: ValidatorSet := [Validator(0, 0, 1)]
  const JOINED: ValidatorSet := [Validator(0, 0, 1), Validator(1, 1, 3)]

  function HeaderAt(k: Crypto, h: nat, vals: ValidatorSet, next: ValidatorSet, rest: nat): Header {
    Header("", h, k.hashSet(vals), k.hashSet(next), rest)
  }

  function BlockOf(k: Crypto, header: Header): BlockID {
    VoteSets.BlockID(Some(k.hashHeader(header)), VoteSets.NO_PARTS)
  }

  /** A vote of the validator whose address, key and signature are all `who`. */
  function VoteOf(k: Crypto, header: Header, who: nat): Option<Precommit> {
    Some(Precommit(PrivVal.PRECOMMIT_TYPE, header.height, 0, BlockOf(k, header), 0, who, who))
  }

  function SignedWith(k: Crypto, header: Header, votes: seq<Option<Precommit>>): SignedHeader {
    SignedHeader(header, Commit(BlockOf(k, header), votes))
  }

  // ----- a header without lower support ----------------------------------------------------------

  function Root(k: Crypto): FullCommit {
    var header := HeaderAt(k, 1, ALONE, ALONE, 10);
    FullCommit(SignedWith(k, header, [VoteOf(k, header, 0)]), ALONE, ALONE)
  }

  /** At height 2 a larger set signs, though the root announces the same small one. */
  function Grown(k: Crypto): FullCommit {
    var header := HeaderAt(k, 2, JOINED, JOINED, 20);
    FullCommit(SignedWith(k, header, [VoteOf(k, header, 0), VoteOf(k, header, 1)]), JOINED, JOINED)
  }

  /** Another header at height 2, signed by the newcomer alone. */
  function Other(k: Crypto): SignedHeader {
    var header := HeaderAt(k, 2, JOINED, JOINED, 21);
    SignedWith(k, header, [None, VoteOf(k, header, 1)])
  }

  /** A header at height 3 with no votes: asking about it makes the client fetch height 2. */
  function Ahead(k: Crypto): SignedHeader {
    SignedWith(k, HeaderAt(k, 3, JOINED, JOINED, 30), [])
  }

  function Asked(k: Crypto): Client {
    Client("", k, (n, h) => if h == 2 then Some(Grown(k)) else None, (n, h) => GotSet(JOINED), n => 0)
  }

  ghost predicate KeySigns(k: Crypto) {
    forall key: Key, msg: PrivVal.Canonical, sig: Signature :: k.verify(key, msg, sig) <==> key == sig
  }

  lemma Counts()
    ensures Quorum(Powers(ALONE)) == 1 && Quorum(Powers(JOINED)) == 3
    ensures Tally(Powers(ALONE), {0}) == 1 && Tally(Powers(ALONE), {}) == 0
    ensures Tally(Powers(JOINED), {0, 1}) == 4 && Tally(Powers(JOINED), {1}) == 3
  {
    var p, q := Powers(JOINED), Powers(ALONE);
    assert p == [1, 3] && q == [1];
    assert TotalUpTo(q, 0) == 0 && TallyUpTo(q, {0}, 0) == 0 && TallyUpTo(q, {}, 0) == 0;
    assert TotalUpTo(p, 1) == 1 && TotalUpTo(p, 2) == 4;
    assert TallyUpTo(p, {0, 1}, 1) == 1 && TallyUpTo(p, {1}, 1) == 0;
  }

  lemma RootValid(k: Crypto)
    requires KeySigns(k)
    ensures FullValid(k, "", Root(k))
  {
    Counts();
    var c := Root(k).signed.commit;
    assert FirstVote(c.precommits) == c.precommits[0];
    assert VotersFor(c.block, c, 1) == {0} by { VotersForExactly(c.block, c, 1, 0); }
  }

  lemma GrownValid(k: Crypto)
    requires KeySigns(k)
    ensures FullValid(k, "", Grown(k))
    ensures Future(Asked(k), Root(k), Grown(k)).Fine?
  {
    Counts();
    var c := Grown(k).signed.commit;
    assert FirstVote(c.precommits) == c.precommits[0];
    assert VotersFor(c.block, c, 1) == {0};
    assert VotersFor(c.block, c, 2) == {0, 1};
    assert ByAddress(ALONE, 0) == Some(0);
    assert ByAddress(ALONE, 1).None?;
    assert FindOld(k, ALONE, "", c.block, c, 1) == Found({0}, {0});
    assert FindOld(k, ALONE, "", c.block, c, 2) == Found({0}, {0});
  }

  lemma OtherValid(k: Crypto)
    requires KeySigns(k)
    ensures FullValid(k, "", FullCommit(Other(k), JOINED, JOINED)) && BaseVerified(k, "", 2, JOINED, Other(k))
  {
    Counts();
    var c := Other(k).commit;
    assert c.precommits[1..] == [c.precommits[1]];
    assert FirstVote(c.precommits) == FirstVote(c.precommits[1..]) == c.precommits[1];
    assert VotersFor(c.block, c, 1) == {};
    assert VotersFor(c.block, c, 2) == {1};
  }

  lemma OtherNotSignedByAlone(k: Crypto)
    requires KeySigns(k)
    ensures !SignedByQuorum(k, "", ALONE, Other(k))
  {
    Counts();
    forall members: set<nat>
      ensures !QuorumOf(k, "", ALONE, Other(k), members)
    {
      if forall v :: v in members ==> v < |ALONE| && Signed(k, "", 2, Other(k).commit, ALONE[v]) {
        assert 0 !in members;
        assert members == {};
      }
    }
  }

  /** The first request brings in the grown set and with it overwrites the set due after the root. */
  lemma FirstRequest(k: Crypto)
    requires KeySigns(k) && k.hashSet(ALONE) != k.hashSet(JOINED)
    ensures var c := Asked(k);
            var t := SaveTrusted(c, NO_TRUST, Root(k));
            Verify(c, t, Ahead(k), 2).0 == SaveTrusted(c, t.(calls := 1), Grown(k))
  {
    hide FullValid, FutureVerdict, BaseVerified;
    GrownValid(k);
    var c := Asked(k);
    var t := SaveTrusted(c, NO_TRUST, Root(k));
    assert LatestFullCommit(t.db, 3, 3).Miss?;
    assert Highest(t.db, 1, 1) == Some(1);
    assert LatestFullCommit(t.db, 1, 2) == Hit(Root(k));
    var t1 := t.(calls := 1);
    assert Bisect(c, t1, Grown(k), 1) == (SaveTrusted(c, t1, Grown(k)), Got(Grown(k)));
    assert Base(c, t, Ahead(k), 2) == (SaveTrusted(c, t1, Grown(k)), Got(Grown(k)));
    assert !BaseVerified(k, "", 3, JOINED, Ahead(k)) by { NoVotes(k); }
  }

  lemma NoVotes(k: Crypto)
    ensures !BaseVerified(k, "", 3, JOINED, Ahead(k))
  {
  }

  lemma SecondRequest(k: Crypto, t: Trust)
    requires KeySigns(k) && k.hashHeader(Grown(k).signed.header) != k.hashHeader(Other(k).header)
    requires t == SaveTrusted(Asked(k), SaveTrusted(Asked(k), NO_TRUST, Root(k)).(calls := 1), Grown(k))
    ensures Verify(Asked(k), t, Other(k), 2) == (SaveTrusted(Asked(k), t.(calls := 2), FullCommit(Other(k), JOINED, JOINED)), Accepted)
  {
    hide FullValid, FutureVerdict, BaseVerified;
    OtherValid(k);
    assert Highest(t.db, 2, 2) == Some(2) && Highest(t.db, 1, 1) == Some(1);
    assert LatestFullCommit(t.db, 2, 2) == Hit(Grown(k));
    assert LatestFullCommit(t.db, 1, 1) == Hit(FullCommit(Root(k).signed, ALONE, JOINED));
  }

  /** Two requests after which the client trusts a commit no lower commit's next validators signed, from
      a valid root and without pruning: of the commits trusted before it, one is not lower, and of the
      next validators of the other none signed. */
  lemma LowerSupportCanFail(k: Crypto)
    requires KeySigns(k) && k.hashSet(ALONE) != k.hashSet(JOINED)
    requires k.hashHeader(Grown(k).signed.header) != k.hashHeader(Other(k).header)
    ensures NoPruning(Asked(k)) && FullValid(k, "", Root(k))
    ensures var saved := RunAll(Asked(k), [Root(k)], [Request(Ahead(k), 2), Request(Other(k), 2)]).saved;
            && saved == [Root(k), Grown(k), FullCommit(Other(k), JOINED, JOINED)]
            && !Stands(Asked(k), saved, 2)
            && !LinesUp(Saves(Asked(k), saved[..1]), saved[1])
  {
    hide FullValid, SaveTrusted, Verify, SignedByQuorum;
    RootValid(k);
    var c := Asked(k);
    var t := SaveTrusted(c, NO_TRUST, Root(k));
    var one := [Request(Ahead(k), 2)];
    var two := [Request(Ahead(k), 2), Request(Other(k), 2)];
    assert [Root(k)][..0] == [] && one[..0] == [] && two[..1] == one;
    assert WithRoots(c, [Root(k)]) == t;
    FirstRequest(k);
    assert RunAll(c, [Root(k)], one) == SaveTrusted(c, t.(calls := 1), Grown(k));
    SecondRequest(k, RunAll(c, [Root(k)], one));
    OtherNotSignedByAlone(k);
    AfterTwo(k);
    RootAnnounces(k);
  }

  lemma AfterTwo(k: Crypto)
    ensures var c := Asked(k);
            var t := SaveTrusted(c, SaveTrusted(c, NO_TRUST, Root(k)).(calls := 1), Grown(k));
            SaveTrusted(c, t.(calls := 2), FullCommit(Other(k), JOINED, JOINED)).saved
            == [Root(k), Grown(k), FullCommit(Other(k), JOINED, JOINED)]
  {
  }

  lemma RootAnnounces(k: Crypto)
    requires k.hashSet(ALONE) != k.hashSet(JOINED)
    ensures !LinesUp(Saves(Asked(k), [Root(k)]), Grown(k))
  {
    assert [Root(k)][..0] == [];
    var db := Saves(Asked(k), [Root(k)]);
    assert 1 in db.headers;
  }

  // ----- an update that never ends ---------------------------------------------------------------

  /** The lone validator signs every height; only its vote at height 2 claims an address that is not
      its own, which is no part of what it signs. */
  function LoneVote(k: Crypto, h: nat): FullCommit {
    var header := HeaderAt(k, h, ALONE, ALONE, 0);
    var vote := Precommit(PrivVal.PRECOMMIT_TYPE, h, 0, BlockOf(k, header), 0, if h == 2 then 1 else 0, 0);
    FullCommit(SignedWith(k, header, [Some(vote)]), ALONE, ALONE)
  }

  function LoneClient(k: Crypto): Client {
    Client("", k, (n, h) => if h >= 0 then Some(LoneVote(k, h)) else None, (n, h) => SetError, n => 0)
  }

  /** Its signatures check under its key. */
  ghost predicate LoneSigns(k: Crypto) {
    forall h: nat :: GoodSignature(k, "", ALONE[0], LoneVote(k, h).signed.commit.precommits[0].value)
  }

  lemma LoneVoteValid(k: Crypto, h: nat)
    requires LoneSigns(k)
    ensures FullValid(k, "", LoneVote(k, h))
  {
    Counts();
    var c := LoneVote(k, h).signed.commit;
    assert FirstVote(c.precommits) == c.precommits[0];
    assert VotersFor(c.block, c, 1) == {0} by { VotersForExactly(c.block, c, 1, 0); }
  }

  lemma ForeignAddressIsNotFound(k: Crypto)
    requires LoneSigns(k)
    ensures Future(LoneClient(k), LoneVote(k, 1), LoneVote(k, 2)).TooMuchChange?
  {
    hide LoneSigns;
    LoneVoteValid(k, 2);
    Counts();
    var c := LoneVote(k, 2).signed.commit;
    assert ByAddress(ALONE, 1).None?;
    assert FindOld(k, ALONE, "", c.block, c, 1) == Found({}, {});
  }

  /** A chain of valid commits, each signed by the validators due after the one before, on which an
      update from height 1 to height 2 ends for no fuel: the vote at height 2 is counted by its own set,
      which looks at positions, and not found by the trusted set, which looks at addresses. */
  lemma ForeignAddressNeverEnds(k: Crypto, fuel: nat)
    requires LoneSigns(k)
    ensures forall h: nat, n: nat :: FullValid(k, "", LoneVote(k, h)) && LoneClient(k).source(n, h) == Some(LoneVote(k, h))
    ensures forall h: nat :: LoneVote(k, h).next == LoneVote(k, h + 1).validators
    ensures UpdateToHeight(LoneClient(k), SaveTrusted(LoneClient(k), NO_TRUST, LoneVote(k, 1)), 2, fuel).1.OutOfFuel?
  {
    hide FullValid, FutureVerdict, LoneSigns;
    forall h: nat
      ensures FullValid(k, "", LoneVote(k, h))
    {
      LoneVoteValid(k, h);
    }
    var c := LoneClient(k);
    var t := SaveTrusted(c, NO_TRUST, LoneVote(k, 1));
    assert Highest(t.db, 1, 1) == Some(1) && Highest(t.db, 1, 2) == Some(1);
    if fuel > 0 {
      ForeignAddressIsNotFound(k);
      LightTermination.NeverEnds(c, t.(calls := 1), LoneVote(k, 2), fuel - 1);
    }
  }
}
