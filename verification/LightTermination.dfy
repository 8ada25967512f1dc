/** When bisection ends: against a consistent chain it reaches the height asked for, and against any
    steady source it answers unless two adjacent heights report too much change, in which case it may
    run forever. */
module LightTermination {
  import opened Options
  import opened VotingPower
  import opened Commits
  import opened LightClient
  import VoteSets
  import PrivVal

  // ----- a set judging its own commit ------------------------------------------------------------

  ghost predicate DistinctAddresses(vals: ValidatorSet) {
    forall i, j :: 0 <= i < j < |vals| ==> vals[i].address != vals[j].address
  }

  /** Each vote claims the address of the validator at its position. */
  ghost predicate AddressesMatch(vals: ValidatorSet, c: Commit) {
    && |vals| == |c.precommits|
    && (forall i :: 0 <= i < |vals| && c.precommits[i].Some? ==> c.precommits[i].value.address == vals[i].address)
  }

  lemma FoundAtOwnPlace(vals: ValidatorSet, i: nat)
    requires DistinctAddresses(vals) && i < |vals|
    ensures ByAddress(vals, vals[i].address) == Some(i)
  {
  }

  /** Looked up by address, the voters of a commit are its voters by position. */
  lemma {:induction false} OwnVotersFound(k: Crypto, vals: ValidatorSet, chain: string, block: BlockID, c: Commit, n: nat, i: nat)
    requires DistinctAddresses(vals) && AddressesMatch(vals, c) && SignaturesGood(k, vals, chain, c, |vals|) && n <= |vals|
    ensures var f := FindOld(k, vals, chain, block, c, n);
            f.Found? && f.counted == VotersFor(block, c, n) && (i in f.seen ==> i < n)
  {
    if n > 0 {
      OwnVotersFound(k, vals, chain, block, c, n - 1, i);
      OwnVotersFound(k, vals, chain, block, c, n - 1, n - 1);
      FoundAtOwnPlace(vals, n - 1);
    }
  }

  /** A set accepts, as the older set, whatever it signed itself. */
  lemma OwnSetAccepts(k: Crypto, vals: ValidatorSet, chain: string, block: BlockID, height: int, c: Commit)
    requires DistinctAddresses(vals) && AddressesMatch(vals, c)
    requires CommitVerdict(k, vals, chain, block, height, c).Fine?
    ensures FutureVerdict(k, vals, vals, chain, block, height, c).Fine?
  {
    OwnVotersFound(k, vals, chain, block, c, |vals|, 0);
  }

  /** Keys are determined by addresses, so no older set finds a bad signature. */
  ghost predicate KeysFrom(keyOf: Address -> Key, vals: ValidatorSet) {
    forall i :: 0 <= i < |vals| ==> vals[i].key == keyOf(vals[i].address)
  }

  lemma {:induction false} NoBadSignature(k: Crypto, keyOf: Address -> Key, vals: ValidatorSet, newer: ValidatorSet,
                                          chain: string, block: BlockID, c: Commit, n: nat)
    requires KeysFrom(keyOf, vals) && KeysFrom(keyOf, newer) && AddressesMatch(newer, c)
    requires SignaturesGood(k, newer, chain, c, |newer|) && n <= |newer|
    ensures FindOld(k, vals, chain, block, c, n).Found?
  {
    if n > 0 {
      NoBadSignature(k, keyOf, vals, newer, chain, block, c, n - 1);
    }
  }

  // ----- a consistent chain ----------------------------------------------------------------------

  /** A chain of valid commits up to `top`, each signed by the validators due after the one before. */
  ghost predicate Consistent(c: Client, blocks: nat -> FullCommit, keyOf: Address -> Key, top: nat) {
    && (forall h :: 1 <= h <= top ==>
          Height(blocks(h)) == h && FullValid(c.crypto, c.chain, blocks(h))
          && AddressesMatch(blocks(h).validators, blocks(h).signed.commit)
          && DistinctAddresses(blocks(h).validators)
          && KeysFrom(keyOf, blocks(h).validators) && KeysFrom(keyOf, blocks(h).next))
    && (forall h :: 1 <= h < top ==> blocks(h).next == blocks(h + 1).validators)
  }

  ghost predicate Serves(c: Client, blocks: nat -> FullCommit, top: nat) {
    && (forall n: nat, h: int :: 1 <= h <= top ==> c.source(n, h) == Some(blocks(h)))
    && (forall n: nat :: c.keep(n) == 0)
  }

  /** The database holds only commits of the chain. */
  ghost predicate Holds(t: Trust, blocks: nat -> FullCommit, top: nat) {
    forall a :: a in t.db.headers ==> HoldsAt(t, blocks, top, a)
  }

  ghost predicate HoldsAt(t: Trust, blocks: nat -> FullCommit, top: nat, a: nat) {
    && a in t.db.headers && a in t.db.sets && a + 1 in t.db.sets
    && 1 <= a <= top && t.db.headers[a] == blocks(a).signed && t.db.sets[a + 1] == blocks(a).next
  }

  lemma SaveHolds(c: Client, t: Trust, blocks: nat -> FullCommit, keyOf: Address -> Key, top: nat, h: nat)
    requires Consistent(c, blocks, keyOf, top) && Serves(c, blocks, top) && Holds(t, blocks, top) && 1 <= h <= top
    ensures var t' := SaveTrusted(c, t, blocks(h));
            Holds(t', blocks, top) && t'.db.headers.Keys == t.db.headers.Keys + {h}
  {
    hide FullValid, AddressesMatch, DistinctAddresses, KeysFrom;
    var t' := SaveTrusted(c, t, blocks(h));
    forall a | a in t'.db.headers
      ensures HoldsAt(t', blocks, top, a)
    {
      assert a != h ==> HoldsAt(t, blocks, top, a);
    }
  }

  /** The highest stored height not above h. */
  function Latest(t: Trust, h: nat): (a: nat)
    requires exists k :: 1 <= k <= h && k in t.db.headers
    ensures 1 <= a <= h && a in t.db.headers && forall k :: a < k <= h ==> k !in t.db.headers
  {
    Highest(t.db, 1, h).value
  }

  lemma LookupLatest(t: Trust, blocks: nat -> FullCommit, top: nat, h: nat)
    requires Holds(t, blocks, top) && 1 <= h && exists k :: 1 <= k <= h && k in t.db.headers
    ensures LatestFullCommit(t.db, 1, h).Hit?
    ensures LatestFullCommit(t.db, 1, h).fc.signed == blocks(Latest(t, h)).signed
    ensures LatestFullCommit(t.db, 1, h).fc.next == blocks(Latest(t, h)).next
  {
    assert HoldsAt(t, blocks, top, Latest(t, h));
  }

  /** Against a chain commit no trusted one objects, and the one right below it accepts. */
  lemma ChainVerdict(c: Client, blocks: nat -> FullCommit, keyOf: Address -> Key, top: nat, trusted: FullCommit, a: nat, h: nat)
    requires Consistent(c, blocks, keyOf, top) && 1 <= a < h <= top && trusted.next == blocks(a).next
    ensures !Future(c, trusted, blocks(h)).Invalid?
    ensures a + 1 == h ==> Future(c, trusted, blocks(h)).Fine?
  {
    var fc := blocks(h);
    assert Height(fc) == h && FullValid(c.crypto, c.chain, fc) && Height(blocks(a)) == a;
    var commit := fc.signed.commit;
    NoBadSignature(c.crypto, keyOf, trusted.next, fc.validators, c.chain, commit.block, commit, |fc.validators|);
    if a + 1 == h {
      OwnSetAccepts(c.crypto, fc.validators, c.chain, commit.block, h, commit);
    }
  }

  lemma HeightOf(c: Client, t: Trust, blocks: nat -> FullCommit, keyOf: Address -> Key, top: nat, a: nat, h: nat)
    requires Consistent(c, blocks, keyOf, top) && Holds(t, blocks, top) && a in t.db.headers && 1 <= h <= top
    ensures Height(blocks(h)) == h && Height(blocks(a)) == a
  {
    assert HoldsAt(t, blocks, top, a);
  }

  lemma LatestOf(t: Trust, h: nat, a: nat)
    requires 1 <= a <= h && a in t.db.headers && forall k :: a < k <= h ==> k !in t.db.headers
    ensures Latest(t, h) == a
  {
  }

  lemma LatestAtLeast(t: Trust, h: nat, k: nat)
    requires 1 <= k <= h && k in t.db.headers
    ensures Latest(t, h) >= k
  {
  }

  /** The loop's exits and its retry, for a trusted commit not above the one sought. */
  lemma BisectCases(c: Client, t: Trust, fc: FullCommit, fuel: nat)
    requires fuel > 0 && LatestFullCommit(t.db, 1, Height(fc)).Hit? && Height(LatestFullCommit(t.db, 1, Height(fc)).fc) <= Height(fc)
    ensures var trusted := LatestFullCommit(t.db, 1, Height(fc)).fc;
            var mid := (Height(trusted) + Height(fc)) / 2;
            var out := Bisect(c, t, fc, fuel);
            && (Height(trusted) == Height(fc) ==> out == (t, Got(trusted)))
            && (Height(trusted) < Height(fc) && Future(c, trusted, fc).Fine? ==> out == (SaveTrusted(c, t, fc), Got(fc)))
            && (Height(trusted) < Height(fc) && Future(c, trusted, fc).TooMuchChange?
                && UpdateToHeight(c, t, mid, fuel - 1).1.Got? ==>
                  out == Bisect(c, UpdateToHeight(c, t, mid, fuel - 1).0, fc, fuel - 1))
  {
    hide LatestFullCommit, Future, SaveTrusted, UpdateToHeight;
  }

  // ----- it ends ---------------------------------------------------------------------------------

  ghost predicate Reached(t: Trust, t': Trust, blocks: nat -> FullCommit, top: nat, h: nat, r: Result) {
    && r.Got? && r.fc.signed == blocks(h).signed && r.fc.next == blocks(h).next
    && Holds(t', blocks, top) && h in t'.db.headers && t.db.headers.Keys <= t'.db.headers.Keys
  }

  /** Against a consistent chain, with fuel twice the distance to the latest trusted height, an
      update reaches its height: the distance shrinks through the recursion and through the retry. */
  lemma {:induction false} UpdateEnds(c: Client, t: Trust, blocks: nat -> FullCommit, keyOf: Address -> Key, top: nat, h: nat, fuel: nat)
    requires Consistent(c, blocks, keyOf, top) && Serves(c, blocks, top) && Holds(t, blocks, top) && 1 <= h <= top
    requires exists k :: 1 <= k <= h && k in t.db.headers
    requires fuel >= 2 * (h - Latest(t, h)) + 2
    ensures var (t', r) := UpdateToHeight(c, t, h, fuel); Reached(t, t', blocks, top, h, r)
    decreases fuel, 1
  {
    hide FullValid, AddressesMatch, DistinctAddresses, KeysFrom, Bisect;
    var t1 := t.(calls := t.calls + 1);
    assert c.source(t.calls, h) == Some(blocks(h)) && Height(blocks(h)) == h;
    assert Holds(t1, blocks, top) by {
      forall a | a in t1.db.headers
        ensures HoldsAt(t1, blocks, top, a)
      {
        assert HoldsAt(t, blocks, top, a);
      }
    }
    BisectEnds(c, t1, blocks, keyOf, top, h, fuel - 1);
  }

  lemma {:induction false} BisectEnds(c: Client, t: Trust, blocks: nat -> FullCommit, keyOf: Address -> Key, top: nat, h: nat, fuel: nat)
    requires Consistent(c, blocks, keyOf, top) && Serves(c, blocks, top) && Holds(t, blocks, top) && 1 <= h <= top
    requires exists k :: 1 <= k <= h && k in t.db.headers
    requires fuel >= 2 * (h - Latest(t, h)) + 1
    ensures var (t', r) := Bisect(c, t, blocks(h), fuel); Reached(t, t', blocks, top, h, r)
    decreases fuel, 0
  {
    hide Consistent, LatestFullCommit, Future, SaveTrusted, Serves, Holds, Latest, Bisect, UpdateToHeight;
    var fc := blocks(h);
    var a := Latest(t, h);
    HeightOf(c, t, blocks, keyOf, top, a, h);
    LookupLatest(t, blocks, top, h);
    var trusted := LatestFullCommit(t.db, 1, h).fc;
    BisectCases(c, t, fc, fuel);
    if a < h {
      ChainVerdict(c, blocks, keyOf, top, trusted, a, h);
      if Future(c, trusted, fc).Fine? {
        SaveHolds(c, t, blocks, keyOf, top, h);
      } else {
        var mid := (a + h) / 2;
        assert a < mid < h;
        LatestOf(t, mid, a);
        UpdateEnds(c, t, blocks, keyOf, top, mid, fuel - 1);
        var (t1, r) := UpdateToHeight(c, t, mid, fuel - 1);
        LatestAtLeast(t1, h, mid);
        BisectEnds(c, t1, blocks, keyOf, top, h, fuel - 1);
      }
    }
  }

  /** Chains as asked for exist, of any length: one validator that signs every height. */
  lemma ConsistentChainsExist(top: nat) returns (c: Client, t: Trust, blocks: nat -> FullCommit, keyOf: Address -> Key)
    requires top >= 1
    ensures Consistent(c, blocks, keyOf, top) && Serves(c, blocks, top) && Holds(t, blocks, top) && 1 in t.db.headers
  {
    var vals := [Validator(0, 0, 1)];
    var crypto := Crypto((key, msg, sig) => true, (h: Header) => h.height, (v: ValidatorSet) => 0);
    blocks := (h: nat) => LoneCommit(vals, h);
    keyOf := a => 0;
    c := Client("", crypto, (n, h) => if h >= 0 then Some(LoneCommit(vals, h)) else None, (n, h) => SetError, n => 0);
    t := SaveTrusted(c, NO_TRUST, blocks(1));
    forall h: nat
      ensures FullValid(crypto, "", LoneCommit(vals, h))
    {
      LoneCommitValid(crypto, vals, h);
    }
    assert Consistent(c, blocks, keyOf, top);
    forall a | a in t.db.headers
      ensures HoldsAt(t, blocks, top, a)
    {
    }
  }

  function LoneCommit(vals: ValidatorSet, h: nat): FullCommit {
    var b := VoteSets.BlockID(Some(h), VoteSets.NO_PARTS);
    FullCommit(SignedHeader(Header("", h, 0, 0, 0), Commit(b, [Some(Precommit(PrivVal.PRECOMMIT_TYPE, h, 0, b, 0, 0, 0))])), vals, vals)
  }

  lemma LoneCommitValid(k: Crypto, vals: ValidatorSet, h: nat)
    requires vals == [Validator(0, 0, 1)] && k.hashSet(vals) == 0 && k.hashHeader(Header("", h, 0, 0, 0)) == h
    requires forall key: Key, msg: PrivVal.Canonical, sig: Signature :: k.verify(key, msg, sig)
    ensures FullValid(k, "", LoneCommit(vals, h))
  {
    var fc := LoneCommit(vals, h);
    var c := fc.signed.commit;
    assert FirstVote(c.precommits) == c.precommits[0];
    VotersForExactly(c.block, c, 1, 0);
    assert Powers(vals) == [1];
    assert Total([1]) == 1 && Quorum(Powers(vals)) == 1;
    assert TallyUpTo(Powers(vals), VotersFor(c.block, c, 1), 1) == 1;
  }

  // ----- it may not end --------------------------------------------------------------------------

  /** The source gives the same answer for a height every time. */
  ghost predicate Steady(c: Client, h: int) {
    forall n: nat :: c.source(n, h) == c.source(0, h)
  }

  predicate Valid(c: Client, h: int) {
    c.source(0, h).Some? && Height(c.source(0, h).value) == h && FullValid(c.crypto, c.chain, c.source(0, h).value)
  }

  /** One round of the loop right above the trusted height: the midpoint is that height again, and
      asking for it only costs a call. */
  lemma MidpointIsStart(c: Client, t: Trust, h: nat, fuel: nat)
    requires h >= 1 && Steady(c, h) && LatestFullCommit(t.db, 1, h).Hit? && Height(LatestFullCommit(t.db, 1, h).fc) == h
    ensures (h + (h + 1)) / 2 == h
    ensures UpdateToHeight(c, t, h, fuel) ==
            if fuel == 0 then (t, OutOfFuel)
            else if !Valid(c, h) then (t.(calls := t.calls + 1), Failed)
            else if fuel == 1 then (t.(calls := t.calls + 1), OutOfFuel)
            else (t.(calls := t.calls + 1), Got(LatestFullCommit(t.db, 1, h).fc))
  {
    hide FullValid, LatestFullCommit;
    assert c.source(t.calls, h) == c.source(0, h);
  }

  /** Right above the trusted height, bisection answers for no fuel exactly when the trusted set
      reports too much change and the source keeps offering a valid commit at the trusted height. */
  lemma NeverEndsExactlyWhen(c: Client, t: Trust, fc: FullCommit)
    requires Height(fc) >= 2 && Steady(c, Height(fc) - 1)
    requires RightBelow(t, Height(fc))
    ensures (forall fuel: nat :: Bisect(c, t, fc, fuel).1.OutOfFuel?)
            <==> Future(c, LatestFullCommit(t.db, 1, Height(fc)).fc, fc).TooMuchChange? && Valid(c, Height(fc) - 1)
  {
    hide FullValid, LatestFullCommit, FutureVerdict;
    var h := Height(fc);
    var trusted := LatestFullCommit(t.db, 1, h).fc;
    if Future(c, trusted, fc).TooMuchChange? {
      if Valid(c, h - 1) {
        forall fuel: nat
          ensures Bisect(c, t, fc, fuel).1.OutOfFuel?
        {
          NeverEnds(c, t, fc, fuel);
        }
      } else {
        var two: nat := 2;
        MidpointIsStart(c, t, h - 1, two - 1);
        assert !Bisect(c, t, fc, two).1.OutOfFuel?;
      }
    } else {
      var one: nat := 1;
      assert !Bisect(c, t, fc, one).1.OutOfFuel?;
    }
  }

  /** The latest trusted commit, for h and for h - 1, is the one at h - 1. */
  predicate RightBelow(t: Trust, h: nat)
    requires h >= 1
  {
    && LatestFullCommit(t.db, 1, h).Hit? && Height(LatestFullCommit(t.db, 1, h).fc) == h - 1
    && LatestFullCommit(t.db, 1, h - 1) == LatestFullCommit(t.db, 1, h)
  }

  lemma {:induction false} NeverEnds(c: Client, t: Trust, fc: FullCommit, fuel: nat)
    requires Height(fc) >= 2 && Steady(c, Height(fc) - 1) && RightBelow(t, Height(fc))
    requires Future(c, LatestFullCommit(t.db, 1, Height(fc)).fc, fc).TooMuchChange? && Valid(c, Height(fc) - 1)
    ensures Bisect(c, t, fc, fuel).1.OutOfFuel?
    decreases fuel
  {
    hide FullValid, LatestFullCommit, FutureVerdict;
    if fuel > 0 {
      MidpointIsStart(c, t, Height(fc) - 1, fuel - 1);
      var t1 := t.(calls := t.calls + 1);
      NeverEnds(c, t1, fc, fuel - 1);
    }
  }

  // ----- any steady source -----------------------------------------------------------------------

  /** The set refuses, as the older set, the valid commit the source has for a height. */
  ghost predicate Troubles(c: Client, next: ValidatorSet, h: int) {
    && Valid(c, h)
    && var fc := c.source(0, h).value;
       FutureVerdict(c.crypto, next, fc.validators, c.chain, fc.signed.commit.block, h, fc.signed.commit).TooMuchChange?
  }

  /** The heights an update works at: from the latest trusted one to the one asked for. */
  datatype Span = Span(low: int, top: int)

  /** No valid commit the source has in the span has a next set that troubles right above it. */
  ghost predicate SourceCalm(c: Client, w: Span) {
    forall a: nat, b: int :: w.low < a < w.top && b == a + 1 && Valid(c, a) ==> !Troubles(c, c.source(0, a).value.next, b)
  }

  /** Nor has a stored one, if nothing is stored right above it. */
  ghost predicate StoreCalm(c: Client, t: Trust, w: Span) {
    forall a :: a in t.db.headers ==> CalmAt(c, t, w, a)
  }

  ghost predicate CalmAt(c: Client, t: Trust, w: Span, a: nat) {
    && a in t.db.headers && t.db.headers[a].header.height == a
    && (w.low <= a < w.top && a + 1 !in t.db.headers && a + 1 in t.db.sets ==> !Troubles(c, t.db.sets[a + 1], a + 1))
  }

  ghost predicate AllSteady(c: Client) {
    (forall h: int :: Steady(c, h)) && forall n: nat :: c.keep(n) == 0
  }

  /** How far the latest trusted height is below h. */
  function Gap(t: Trust, h: int): (g: nat) {
    var a := Highest(t.db, 1, h);
    if a.None? then 0 else h - a.value
  }

  ghost predicate Answered(c: Client, t: Trust, t': Trust, w: Span, h: int, r: Result) {
    && !r.OutOfFuel? && (r.Panicked? ==> h == 0)
    && StoreCalm(c, t', w) && t.db.headers.Keys <= t'.db.headers.Keys && (r.Got? && h > 0 ==> h in t'.db.headers)
  }

  lemma SaveKeepsCalm(c: Client, t: Trust, w: Span, fc: FullCommit)
    requires AllSteady(c) && SourceCalm(c, w) && StoreCalm(c, t, w) && Valid(c, Height(fc)) && fc == c.source(0, Height(fc)).value
    requires w.low < Height(fc)
    ensures var t' := SaveTrusted(c, t, fc);
            StoreCalm(c, t', w) && t'.db.headers.Keys == t.db.headers.Keys + {Height(fc)}
  {
    hide Troubles, FullValid;
    var t' := SaveTrusted(c, t, fc);
    forall a | a in t'.db.headers
      ensures CalmAt(c, t', w, a)
    {
      assert a != Height(fc) ==> CalmAt(c, t, w, a);
    }
  }

  lemma CalmIgnoresCalls(c: Client, t: Trust, t': Trust, w: Span)
    requires StoreCalm(c, t, w) && t' == t.(calls := t'.calls)
    ensures StoreCalm(c, t', w)
  {
    hide Troubles;
    forall a | a in t'.db.headers
      ensures CalmAt(c, t', w, a)
    {
      assert CalmAt(c, t, w, a);
    }
  }

  /** Against any steady source and without pruning, an update to any height comes to an answer, with
      fuel twice the distance to the latest trusted height, whenever no adjacent pair it can reach
      reports too much change: a commit stored or served from the latest trusted height on, and the
      commit served right above it. */
  lemma {:induction false} UpdateAnswers(c: Client, t: Trust, w: Span, h: int, fuel: nat)
    requires AllSteady(c) && SourceCalm(c, w) && StoreCalm(c, t, w) && fuel >= 2 * Gap(t, h) + 2
    requires w.low <= h - Gap(t, h) && h <= w.top
    ensures var (t', r) := UpdateToHeight(c, t, h, fuel); Answered(c, t, t', w, h, r)
    decreases fuel, 1
  {
    hide FullValid, Bisect, SourceCalm, StoreCalm, Highest;
    assert c.source(t.calls, h) == c.source(0, h) by {
      assert Steady(c, h);
    }
    var t1 := t.(calls := t.calls + 1);
    CalmIgnoresCalls(c, t, t1, w);
    if Valid(c, h) {
      BisectAnswers(c, t1, w, c.source(0, h).value, fuel - 1);
    }
  }

  /** What a lookup up to a height finds in a store whose headers sit at their own heights. */
  lemma LookupGap(c: Client, t: Trust, w: Span, h: nat)
    requires StoreCalm(c, t, w) && LatestFullCommit(t.db, 1, h).Hit?
    ensures var fc := LatestFullCommit(t.db, 1, h).fc;
            var a := Height(fc);
            && a in t.db.headers && CalmAt(c, t, w, a)
            && (h == 0 ==> a > 0)
            && (h > 0 ==> 1 <= a <= h && Gap(t, h) == h - a && (a < h ==> a + 1 !in t.db.headers)
                          && a + 1 in t.db.sets && fc.next == t.db.sets[a + 1])
            && (forall m: nat :: a <= m <= h && h > 0 ==> Gap(t, m) == m - a)
  {
    hide Troubles;
    var a := Highest(t.db, 1, if h == 0 then t.db.top else h).value;
    assert CalmAt(c, t, w, a);
  }

  lemma GapAtMost(t: Trust, h: int, k: nat)
    requires 1 <= k <= h && k in t.db.headers
    ensures Gap(t, h) <= h - k
  {
  }

  lemma {:induction false} BisectAnswers(c: Client, t: Trust, w: Span, fc: FullCommit, fuel: nat)
    requires AllSteady(c) && SourceCalm(c, w) && StoreCalm(c, t, w) && Valid(c, Height(fc)) && fc == c.source(0, Height(fc)).value
    requires fuel >= 2 * Gap(t, Height(fc)) + 1 && w.low <= Height(fc) - Gap(t, Height(fc)) && Height(fc) <= w.top
    ensures var (t', r) := Bisect(c, t, fc, fuel); Answered(c, t, t', w, Height(fc), r)
    decreases fuel, 0
  {
    hide AllSteady, SourceCalm, StoreCalm, FullValid, LatestFullCommit, FutureVerdict, SaveTrusted, UpdateToHeight, Gap;
    var h := Height(fc);
    var lookup := LatestFullCommit(t.db, 1, h);
    if lookup.Hit? {
      LookupGap(c, t, w, h);
      var a := Height(lookup.fc);
      if a < h {
        match Future(c, lookup.fc, fc) {
          case Fine => SaveKeepsCalm(c, t, w, fc);
          case Invalid =>
          case TooMuchChange =>
            assert a + 1 != h;
            var mid := (a + h) / 2;
            UpdateAnswers(c, t, w, mid, fuel - 1);
            var (t1, r) := UpdateToHeight(c, t, mid, fuel - 1);
            if r.Got? {
              GapAtMost(t1, h, mid);
              BisectAnswers(c, t1, w, fc, fuel - 1);
            }
        }
      }
    }
  }

  // ----- how much fuel decides -------------------------------------------------------------------

  /** Every stored header sits at its own height. */
  ghost predicate Kept(t: Trust) {
    forall a :: a in t.db.headers ==> t.db.headers[a].header.height == a
  }

  lemma SaveKeepsKept(c: Client, t: Trust, fc: FullCommit)
    requires Kept(t) && AllSteady(c)
    ensures var t' := SaveTrusted(c, t, fc);
            Kept(t') && t'.db.headers.Keys == t.db.headers.Keys + {Height(fc)}
  {
    hide Steady;
  }

  lemma KeptLookup(t: Trust, h: nat)
    requires Kept(t) && h > 0 && LatestFullCommit(t.db, 1, h).Hit?
    ensures var a := Height(LatestFullCommit(t.db, 1, h).fc);
            && 1 <= a <= h && a in t.db.headers
            && (forall m: nat :: a <= m <= h ==> Gap(t, m) == m - a && LatestFullCommit(t.db, 1, m) == LatestFullCommit(t.db, 1, h))
  {
    var a := Highest(t.db, 1, h).value;
    forall m: nat | a <= m <= h
      ensures Highest(t.db, 1, m) == Some(a)
    {
      assert a in t.db.headers;
    }
  }

  ghost predicate Progressed(t: Trust, t': Trust, h: int, r: Result) {
    Kept(t') && t.db.headers.Keys <= t'.db.headers.Keys && (r.Got? && h > 0 ==> h in t'.db.headers)
  }

  /** An answer does not depend on the fuel, and needs no more than twice the distance to the latest
      trusted height. */
  lemma {:induction false} UpdateNeeds(c: Client, t: Trust, h: int, fuel: nat, enough: nat)
    requires AllSteady(c) && Kept(t) && h > 0 && enough >= 2 * Gap(t, h) + 2
    requires !UpdateToHeight(c, t, h, fuel).1.OutOfFuel?
    ensures UpdateToHeight(c, t, h, enough) == UpdateToHeight(c, t, h, fuel)
    ensures Progressed(t, UpdateToHeight(c, t, h, fuel).0, h, UpdateToHeight(c, t, h, fuel).1)
    decreases fuel, 1
  {
    hide FullValid, Bisect, Highest;
    assert c.source(t.calls, h) == c.source(0, h) by {
      assert Steady(c, h);
    }
    var t1 := t.(calls := t.calls + 1);
    if Valid(c, h) {
      assert Gap(t1, h) == Gap(t, h);
      BisectNeeds(c, t1, c.source(0, h).value, fuel - 1, enough - 1);
    }
  }

  lemma {:induction false} BisectNeeds(c: Client, t: Trust, fc: FullCommit, fuel: nat, enough: nat)
    requires AllSteady(c) && Kept(t) && Height(fc) > 0 && enough >= 2 * Gap(t, Height(fc)) + 1
    requires !Bisect(c, t, fc, fuel).1.OutOfFuel?
    ensures Bisect(c, t, fc, enough) == Bisect(c, t, fc, fuel)
    ensures Progressed(t, Bisect(c, t, fc, fuel).0, Height(fc), Bisect(c, t, fc, fuel).1)
    decreases fuel, 0
  {
    hide AllSteady, FullValid, LatestFullCommit, FutureVerdict, SaveTrusted, UpdateToHeight, Gap, Kept;
    var h := Height(fc);
    var lookup := LatestFullCommit(t.db, 1, h);
    if lookup.Hit? {
      KeptLookup(t, h);
      var a := Height(lookup.fc);
      if a < h {
        match Future(c, lookup.fc, fc) {
          case Fine => SaveKeepsKept(c, t, fc);
          case Invalid =>
          case TooMuchChange =>
            var mid := (a + h) / 2;
            assert a + 1 < h || mid == a;
            if a + 1 == h {
              StuckOrFails(c, t, fc, fuel, enough);
            } else {
              UpdateNeeds(c, t, mid, fuel - 1, enough - 1);
              var (t1, r) := UpdateToHeight(c, t, mid, fuel - 1);
              if r.Got? {
                GapAtMost(t1, h, mid);
                BisectNeeds(c, t1, fc, fuel - 1, enough - 1);
              }
            }
        }
      }
    }
  }

  /** Too much change right above the trusted height: either the source fails at that height, or there
      is never an answer. */
  lemma StuckOrFails(c: Client, t: Trust, fc: FullCommit, fuel: nat, enough: nat)
    requires AllSteady(c) && Kept(t) && Height(fc) > 1 && LatestFullCommit(t.db, 1, Height(fc)).Hit? && enough >= 2
    requires Height(LatestFullCommit(t.db, 1, Height(fc)).fc) + 1 == Height(fc)
    requires Future(c, LatestFullCommit(t.db, 1, Height(fc)).fc, fc).TooMuchChange?
    requires !Bisect(c, t, fc, fuel).1.OutOfFuel?
    ensures Bisect(c, t, fc, enough) == Bisect(c, t, fc, fuel) == (t.(calls := t.calls + 1), Failed)
    ensures Kept(t.(calls := t.calls + 1))
  {
    hide FullValid, LatestFullCommit, FutureVerdict;
    var h := Height(fc);
    KeptLookup(t, h);
    assert Steady(c, h - 1);
    if Valid(c, h - 1) {
      NeverEnds(c, t, fc, fuel);
    } else {
      MidpointIsStart(c, t, h - 1, fuel - 1);
      MidpointIsStart(c, t, h - 1, enough - 1);
    }
  }

  /** Against any steady source and without pruning, whether an update to a height ever ends is decided
      by running it with fuel twice the distance to the latest trusted height. */
  lemma NeverEndsDecided(c: Client, t: Trust, h: int)
    requires AllSteady(c) && Kept(t) && h > 0
    ensures (forall fuel: nat :: UpdateToHeight(c, t, h, fuel).1.OutOfFuel?)
            <==> UpdateToHeight(c, t, h, 2 * Gap(t, h) + 2).1.OutOfFuel?
  {
    hide AllSteady, Kept, Gap, UpdateToHeight;
    forall fuel: nat | !UpdateToHeight(c, t, h, fuel).1.OutOfFuel?
      ensures !UpdateToHeight(c, t, h, 2 * Gap(t, h) + 2).1.OutOfFuel?
    {
      UpdateNeeds(c, t, h, fuel, 2 * Gap(t, h) + 2);
    }
  }
}
