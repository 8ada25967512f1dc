/** What the light client's database holds and finds, exactly, and that every header of a consistent chain
    is accepted and stored. */
module LightComplete {
  import opened Options
  import opened Commits
  import opened LightClient
  import opened LightSafety
  import opened LightTermination

  // ----- the database ----------------------------------------------------------------------------

  /** A height the database holds within the limits; a lower limit below one is one, an upper one of zero is
      none. */
  predicate Within(db: DB, min: int, max: int, h: nat) {
    h in db.headers && h >= 1 && h >= min && (max == 0 || h <= max)
  }

  /** No height stored is above the top. */
  ghost predicate Topped(db: DB) {
    forall h <- db.headers :: h <= db.top
  }

  /** Looking up finds the highest header within the limits, with the sets of its height and the next; it
      fails for want of one of those exactly when the database does not have both, and misses exactly when
      no header is within the limits. */
  lemma LatestExactly(db: DB, min: int, max: int)
    requires Topped(db)
    ensures match LatestFullCommit(db, min, max)
            case Miss => forall h <- db.headers :: !Within(db, min, max, h)
            case Unfilled => exists h: nat :: IsLatest(db, min, max, h) && !(h in db.sets && h + 1 in db.sets)
            case Hit(fc) => exists h: nat :: IsLatest(db, min, max, h) && h in db.sets && h + 1 in db.sets
                                        && fc == FullCommit(db.headers[h], db.sets[h], db.sets[h + 1])
  {
    var lo := if min <= 0 then 1 else min;
    var hi := if max == 0 then db.top else max;
    var h := Highest(db, lo, hi);
    if h.Some? {
      assert IsLatest(db, min, max, h.value);
    }
  }

  ghost predicate IsLatest(db: DB, min: int, max: int, h: nat) {
    Within(db, min, max, h) && forall k <- db.headers :: Within(db, min, max, k) ==> k <= h
  }

  /** A save leaves, of the heights it keeps, the header and the two sets of its commit and whatever else
      was there; nothing below; and no header above the top. */
  lemma SaveExactly(db: DB, fc: FullCommit, keep: nat, h: nat)
    requires Topped(db)
    ensures var after, at := Save(db, fc, keep), Height(fc);
            && Topped(after)
            && (h in after.headers <==> h >= keep && (h == at || h in db.headers))
            && (h in after.headers ==> after.headers[h] == if h == at then fc.signed else db.headers[h])
            && (h in after.sets <==> h >= keep && (h == at || h == at + 1 || h in db.sets))
            && (h in after.sets ==> after.sets[h] == if h == at + 1 then fc.next else if h == at then fc.validators else db.sets[h])
  {
  }

  // ----- consistent chains -----------------------------------------------------------------------

  lemma StoredIsKnown(c: Client, t: Trust, blocks: nat -> FullCommit, top: nat, h: nat)
    requires Holds(t, blocks, top) && h >= 1
    ensures h in t.db.headers ==> KnownAlready(c, t, blocks(h).signed) || blocks(h).signed.header.height != h
    ensures h !in t.db.headers ==> LatestFullCommit(t.db, h, h).Miss?
  {
    if h in t.db.headers {
      assert HoldsAt(t, blocks, top, h);
      assert Highest(t.db, h, h) == Some(h);
    }
  }

  lemma ChainWellSigned(c: Client, blocks: nat -> FullCommit, keyOf: Address -> Key, top: nat, h: nat, base: FullCommit)
    requires Consistent(c, blocks, keyOf, top) && 1 <= h <= top && Height(base) < h && base.next == blocks(h).validators
    ensures WellSigned(c, base, blocks(h).signed) && c.crypto.hashSet(base.next) == blocks(h).signed.header.validatorsHash
    ensures Height(blocks(h)) == h && blocks(h).next != [] && c.crypto.hashSet(blocks(h).next) == blocks(h).signed.header.nextValidatorsHash
  {
    assert Height(blocks(h)) == h && FullValid(c.crypto, c.chain, blocks(h));
  }

  /** The base of a chain's header is found: with set hashes that do not collide, its next set is the
      header's. */
  lemma ChainBase(c: Client, t: Trust, blocks: nat -> FullCommit, keyOf: Address -> Key, top: nat, h: nat, fuel: nat) returns (base: FullCommit, t1: Trust)
    requires Consistent(c, blocks, keyOf, top) && Serves(c, blocks, top) && Holds(t, blocks, top) && 2 <= h <= top
    requires NoSetCollision(c.crypto) && exists k :: 1 <= k <= h - 1 && k in t.db.headers
    requires fuel >= 2 * (h - 1 - Latest(t, h - 1)) + 2
    ensures RestsOn(c, t, blocks(h).signed, fuel, base, t1) && base.next == blocks(h).validators && Height(base) < h
    ensures Holds(t1, blocks, top) && t.db.headers.Keys <= t1.db.headers.Keys
  {
    hide Consistent, LatestFullCommit, UpdateToHeight, Serves, Holds, Latest;
    var a := Latest(t, h - 1);
    HeightOf(c, t, blocks, keyOf, top, a, h);
    LookupLatest(t, blocks, top, h - 1);
    var low := LatestFullCommit(t.db, 1, h - 1).fc;
    ChainSets(c, blocks, keyOf, top, h);
    if c.crypto.hashSet(low.next) == blocks(h).signed.header.validatorsHash {
      base, t1 := low, t;
    } else {
      UpdateEnds(c, t, blocks, keyOf, top, h - 1, fuel);
      var (u, r) := UpdateToHeight(c, t, h - 1, fuel);
      base, t1 := r.fc, u;
    }
  }

  lemma ChainSets(c: Client, blocks: nat -> FullCommit, keyOf: Address -> Key, top: nat, h: nat)
    requires Consistent(c, blocks, keyOf, top) && 2 <= h <= top
    ensures blocks(h - 1).next == blocks(h).validators && Height(blocks(h - 1)) == h - 1
    ensures c.crypto.hashSet(blocks(h).validators) == blocks(h).signed.header.validatorsHash
  {
    assert Height(blocks(h - 1)) == h - 1;
    assert FullValid(c.crypto, c.chain, blocks(h));
    assert blocks(h - 1).next == blocks(h - 1 + 1).validators;
  }

  /** Asked for the set of a height, the source never has another than this. */
  ghost predicate OffersOnly(c: Client, height: int, vals: ValidatorSet) {
    forall n: nat :: c.sourceSet(n, height) == UnknownValidators || c.sourceSet(n, height) == GotSet(vals)
  }

  ghost predicate AlwaysOffers(c: Client, height: int) {
    forall n: nat :: c.sourceSet(n, height).GotSet?
  }

  /** Every header of a consistent chain above a trusted height is accepted, whether or not the source
      knows the set one above it; and if it does, the header is trusted from then on. */
  lemma ChainHeaderAccepted(c: Client, t: Trust, blocks: nat -> FullCommit, keyOf: Address -> Key, top: nat, h: nat, fuel: nat)
    requires Consistent(c, blocks, keyOf, top) && Serves(c, blocks, top) && Holds(t, blocks, top) && 2 <= h <= top
    requires NoSetCollision(c.crypto) && exists k :: 1 <= k <= h - 1 && k in t.db.headers
    requires fuel >= 2 * (h - 1 - Latest(t, h - 1)) + 2
    requires OffersOnly(c, h + 1, blocks(h).next)
    ensures var (t', a) := Verify(c, t, blocks(h).signed, fuel);
            a.Accepted? && (AlwaysOffers(c, h + 1) ==> h in t'.db.headers && Holds(t', blocks, top))
  {
    hide Consistent, LatestFullCommit, UpdateToHeight, Serves, Holds, Latest, Verify, WellSigned, RestsOn, SaveTrusted, NoSetCollision;
    var s := blocks(h).signed;
    HeightIs(c, blocks, keyOf, top, h);
    StoredIsKnown(c, t, blocks, top, h);
    AcceptedExactlyWhen(c, t, s, fuel);
    if h in t.db.headers {
      KnownChangesNothing(c, t, s, fuel);
    } else {
      var base, t1 := ChainBase(c, t, blocks, keyOf, top, h, fuel);
      ChainWellSigned(c, blocks, keyOf, top, h, base);
      assert Accepts(c, t, s, fuel, base, t1);
      NotStoredNotKnown(c, t, s);
      StoredExactlyWhen(c, t, s, fuel, base, t1);
      if AlwaysOffers(c, h + 1) {
        var t2 := t1.(calls := t1.calls + 1);
        CallsHold(t1, t2, blocks, top);
        SaveHolds(c, t2, blocks, keyOf, top, h);
        assert FullCommit(s, base.next, blocks(h).next) == blocks(h);
      }
    }
  }

  lemma HeightIs(c: Client, blocks: nat -> FullCommit, keyOf: Address -> Key, top: nat, h: nat)
    requires Consistent(c, blocks, keyOf, top) && 1 <= h <= top
    ensures blocks(h).signed.header.height == h
  {
    assert Height(blocks(h)) == h;
  }

  lemma NotStoredNotKnown(c: Client, t: Trust, s: SignedHeader)
    requires LatestFullCommit(t.db, s.header.height, s.header.height).Miss?
    ensures !KnownAlready(c, t, s)
  {
  }

  lemma KnownChangesNothing(c: Client, t: Trust, s: SignedHeader, fuel: nat)
    requires KnownAlready(c, t, s)
    ensures Verify(c, t, s, fuel) == (t, Accepted)
  {
  }

  lemma CallsHold(t: Trust, t': Trust, blocks: nat -> FullCommit, top: nat)
    requires Holds(t, blocks, top) && t' == t.(calls := t'.calls)
    ensures Holds(t', blocks, top)
  {
    forall a | a in t'.db.headers
      ensures HoldsAt(t', blocks, top, a)
    {
      assert HoldsAt(t, blocks, top, a);
    }
  }
}
