/** What a light client run guarantees: every trusted commit hangs by signatures from a root, and by
    those of a strictly lower commit's next validators when the saves line up. */
module LightSafety {
  import opened Options
  import opened VotingPower
  import opened Commits
  import opened LightClient

  // ----- provenance ------------------------------------------------------------------------------

  /** `fc` was accepted because of the earlier commit j: a quorum of the validators due after it, or,
      beside a commit one height below, of the validators of a commit at the same height. */
  ghost predicate Supports(c: Client, saved: seq<FullCommit>, j: nat, fc: FullCommit) {
    && j < |saved|
    && (|| (Height(saved[j]) < Height(fc) && SignedByQuorum(c.crypto, c.chain, saved[j].next, fc.signed))
        || (Height(saved[j]) == Height(fc) && SignedByQuorum(c.crypto, c.chain, saved[j].validators, fc.signed)
            && exists k :: 0 <= k < |saved| && Height(saved[k]) + 1 == Height(fc)))
  }

  /** A chain of such steps, each to a commit saved earlier, ends in one of the first `roots`. */
  ghost predicate Rooted(c: Client, saved: seq<FullCommit>, roots: nat, i: nat)
    requires i < |saved|
    decreases i
  {
    i < roots || exists j :: 0 <= j < i && Supports(c, saved[..i], j, saved[i]) && Rooted(c, saved, roots, j)
  }

  // ----- the database and the history ------------------------------------------------------------

  /** The header at a height is that of the commit that last wrote it. */
  ghost predicate HeaderOwned(t: Trust, a: nat) {
    && a in t.db.headers && a in t.owner && t.owner[a] < |t.saved| && a <= t.db.top
    && t.saved[t.owner[a]].signed == t.db.headers[a] && Height(t.saved[t.owner[a]]) == a
  }

  /** The set above a stored header is that commit's next set, or the own set of a commit stored
      right above it. */
  ghost predicate SetOwned(t: Trust, a: nat)
    requires HeaderOwned(t, a)
  {
    && a + 1 in t.db.sets && a + 1 in t.setter && t.setter[a + 1] < |t.saved|
    && (if t.setter[a + 1] == t.owner[a] then t.db.sets[a + 1] == t.saved[t.owner[a]].next
        else a + 1 in t.db.headers && Height(t.saved[t.setter[a + 1]]) == a + 1
             && t.db.sets[a + 1] == t.saved[t.setter[a + 1]].validators)
  }

  ghost predicate Tidy(t: Trust) {
    forall a :: a in t.db.headers ==> HeaderOwned(t, a) && SetOwned(t, a)
  }

  ghost predicate Sound(c: Client, t: Trust, roots: nat) {
    && Tidy(t)
    && (forall i :: 0 <= i < |t.saved| ==> Rooted(c, t.saved, roots, i))
    && Straight(c, t, roots)
  }

  // ----- saves that line up ----------------------------------------------------------------------

  /** Every stored header's next-validators hash is the hash of the set stored above it. */
  ghost predicate Aligned(k: Crypto, db: DB) {
    forall a :: a in db.headers ==> a + 1 in db.sets && k.hashSet(db.sets[a + 1]) == db.headers[a].header.nextValidatorsHash
  }

  /** The check a save could make, and the code does not: the validators of the commit are those the
      header stored right below it, if any, announces. */
  predicate LinesUp(db: DB, fc: FullCommit) {
    forall a :: a in db.headers && a + 1 == Height(fc) ==> db.headers[a].header.nextValidatorsHash == fc.signed.header.validatorsHash
  }

  /** Saving a valid commit keeps the database aligned exactly when the commit lines up, or the header
      below is dropped by the same save. */
  lemma AlignedExactlyWhen(k: Crypto, chain: string, db: DB, fc: FullCommit, keep: nat)
    requires Aligned(k, db) && FullValid(k, chain, fc)
    ensures Aligned(k, Save(db, fc, keep)) <==> LinesUp(db, fc) || Height(fc) <= keep
  {
    hide HeaderBasic, CommitVerdict;
    var d := Save(db, fc, keep);
    if a: nat :| a in db.headers && a + 1 == Height(fc) && keep <= a
                 && db.headers[a].header.nextValidatorsHash != fc.signed.header.validatorsHash {
      assert a in d.headers && d.headers[a] == db.headers[a] && d.sets[a + 1] == fc.validators;
    }
  }

  /** The database is what its saves made it. */
  function Saves(c: Client, saved: seq<FullCommit>): DB {
    if saved == [] then NO_TRUST.db
    else Save(Saves(c, saved[..|saved| - 1]), saved[|saved| - 1], c.keep(|saved| - 1))
  }

  lemma SavesSnoc(c: Client, saved: seq<FullCommit>, fc: FullCommit)
    ensures Saves(c, saved + [fc]) == Save(Saves(c, saved), fc, c.keep(|saved|))
  {
    hide Save;
    assert (saved + [fc])[..|saved|] == saved;
  }

  ghost predicate NoSetCollision(k: Crypto) {
    forall x: ValidatorSet, y: ValidatorSet :: k.hashSet(x) == k.hashSet(y) ==> x == y
  }

  /** Each save was of a valid commit that lined up with the database it was put into. */
  ghost predicate AllLineUp(c: Client, saved: seq<FullCommit>) {
    forall i :: 0 <= i < |saved| ==> FullValid(c.crypto, c.chain, saved[i]) && LinesUp(Saves(c, saved[..i]), saved[i])
  }

  /** A strictly lower commit trusted before it, more than two thirds of whose next validators signed. */
  ghost predicate Stands(c: Client, saved: seq<FullCommit>, i: nat)
    requires i < |saved|
  {
    exists j :: 0 <= j < i && Lower(c, saved[j], saved[i])
  }

  ghost predicate Lower(c: Client, low: FullCommit, fc: FullCommit) {
    Height(low) < Height(fc) && SignedByQuorum(c.crypto, c.chain, low.next, fc.signed)
  }

  ghost predicate Straight(c: Client, t: Trust, roots: nat) {
    && t.db == Saves(c, t.saved)
    && (forall i :: roots <= i < |t.saved| ==> FullValid(c.crypto, c.chain, t.saved[i]))
    && (NoSetCollision(c.crypto) && AllLineUp(c, t.saved) ==> forall i :: roots <= i < |t.saved| ==> Stands(c, t.saved, i))
  }

  lemma LineUpPrefix(c: Client, saved: seq<FullCommit>, more: seq<FullCommit>)
    requires saved <= more && AllLineUp(c, more)
    ensures AllLineUp(c, saved)
  {
    hide FullValid, LinesUp, Saves;
    forall i | 0 <= i < |saved|
      ensures FullValid(c.crypto, c.chain, saved[i]) && LinesUp(Saves(c, saved[..i]), saved[i])
    {
      assert saved[..i] == more[..i] && saved[i] == more[i];
    }
  }

  lemma {:induction false} LinedUpIsAligned(c: Client, saved: seq<FullCommit>)
    requires AllLineUp(c, saved)
    ensures Aligned(c.crypto, Saves(c, saved))
  {
    hide FullValid, LinesUp, Save, Aligned;
    if saved == [] {
      EmptyAligned(c.crypto);
    } else {
      var k := |saved| - 1;
      LineUpPrefix(c, saved[..k], saved);
      LinedUpIsAligned(c, saved[..k]);
      AlignedExactlyWhen(c.crypto, c.chain, Saves(c, saved[..k]), saved[k], c.keep(k));
    }
  }

  lemma EmptyAligned(k: Crypto)
    ensures Aligned(k, NO_TRUST.db)
  {
  }

  lemma StandsStays(c: Client, saved: seq<FullCommit>, more: seq<FullCommit>, i: nat)
    requires saved <= more && i < |saved| && Stands(c, saved, i)
    ensures Stands(c, more, i)
  {
    hide Lower;
    var j :| 0 <= j < i && Lower(c, saved[j], saved[i]);
    assert Lower(c, more[j], more[i]);
  }

  lemma SaveKeepsStraight(c: Client, t: Trust, roots: nat, fc: FullCommit)
    requires Straight(c, t, roots) && FullValid(c.crypto, c.chain, fc)
    requires NoSetCollision(c.crypto) && AllLineUp(c, t.saved) ==> exists j :: 0 <= j < |t.saved| && Lower(c, t.saved[j], fc)
    ensures Straight(c, SaveTrusted(c, t, fc), roots)
  {
    hide FullValid, Saves, Save, Lower, NoSetCollision, AllLineUp, Stands;
    SavesSnoc(c, t.saved, fc);
    var more := t.saved + [fc];
    if NoSetCollision(c.crypto) && AllLineUp(c, more) {
      LineUpPrefix(c, t.saved, more);
      forall i | roots <= i < |more|
        ensures Stands(c, more, i)
      {
        if i < |t.saved| {
          StandsStays(c, t.saved, more, i);
        } else {
          LastStands(c, t.saved, fc);
        }
      }
    }
  }

  lemma LastStands(c: Client, saved: seq<FullCommit>, fc: FullCommit)
    requires exists j :: 0 <= j < |saved| && Lower(c, saved[j], fc)
    ensures Stands(c, saved + [fc], |saved|)
  {
    hide Lower;
    var j :| 0 <= j < |saved| && Lower(c, saved[j], fc);
    assert Lower(c, (saved + [fc])[j], (saved + [fc])[|saved|]);
  }

  /** In an aligned database a lookup finds the next set the header's commit was saved with. */
  lemma AlignedLookup(c: Client, t: Trust, roots: nat, min: int, max: int)
    requires Sound(c, t, roots) && LatestFullCommit(t.db, min, max).Hit?
    requires NoSetCollision(c.crypto) && AllLineUp(c, t.saved)
    ensures exists i :: 0 <= i < |t.saved| && SameNext(t.saved[i], LatestFullCommit(t.db, min, max).fc)
  {
    hide LatestFullCommit, Rooted, Saves, LinesUp;
    TraceLookup(t, min, max);
    LinedUpIsAligned(c, t.saved);
    var fc := LatestFullCommit(t.db, min, max).fc;
    var i := t.owner[Height(fc)];
    assert FullValid(c.crypto, c.chain, t.saved[i]);
    assert c.crypto.hashSet(fc.next) == c.crypto.hashSet(t.saved[i].next);
    assert SameNext(t.saved[i], fc);
  }

  lemma {:induction false} RootedStays(c: Client, saved: seq<FullCommit>, more: seq<FullCommit>, roots: nat, i: nat)
    requires saved <= more && i < |saved| && Rooted(c, saved, roots, i)
    ensures Rooted(c, more, roots, i)
    decreases i
  {
    if i >= roots {
      var j: nat :| j < i && Supports(c, saved[..i], j, saved[i]) && Rooted(c, saved, roots, j);
      assert saved[..i] == more[..i];
      RootedStays(c, saved, more, roots, j);
    }
  }

  lemma SaveKeepsTidy(c: Client, t: Trust, fc: FullCommit)
    requires Tidy(t)
    ensures Tidy(SaveTrusted(c, t, fc))
  {
    var t' := SaveTrusted(c, t, fc);
    forall a | a in t'.db.headers
      ensures HeaderOwned(t', a) && SetOwned(t', a)
    {
      assert a != Height(fc) ==> HeaderOwned(t, a) && SetOwned(t, a);
    }
  }

  /** Saving a commit linked to one saved before. */
  lemma SaveKeepsSound(c: Client, t: Trust, roots: nat, fc: FullCommit, j: nat)
    requires Sound(c, t, roots) && Supports(c, t.saved, j, fc) && FullValid(c.crypto, c.chain, fc)
    requires NoSetCollision(c.crypto) && AllLineUp(c, t.saved) ==> exists k :: 0 <= k < |t.saved| && Lower(c, t.saved[k], fc)
    ensures Sound(c, SaveTrusted(c, t, fc), roots)
  {
    hide Save, Straight, FullValid, HeaderOwned, SetOwned, Lower, SignedByQuorum;
    SaveKeepsTidy(c, t, fc);
    SaveKeepsStraight(c, t, roots, fc);
    var t' := SaveTrusted(c, t, fc);
    forall i | 0 <= i < |t'.saved|
      ensures Rooted(c, t'.saved, roots, i)
    {
      if i < |t.saved| {
        RootedStays(c, t.saved, t'.saved, roots, i);
      } else {
        RootedStays(c, t.saved, t'.saved, roots, j);
        assert t'.saved[..i] == t.saved;
      }
    }
  }

  /** What a lookup found belongs to a stored header. */
  lemma TraceLookup(t: Trust, min: int, max: int)
    requires Tidy(t) && LatestFullCommit(t.db, min, max).Hit?
    ensures var fc := LatestFullCommit(t.db, min, max).fc;
            var a := Height(fc);
            && HeaderOwned(t, a) && SetOwned(t, a)
            && fc.signed == t.db.headers[a] && fc.next == t.db.sets[a + 1]
  {
    var a := Highest(t.db, if min <= 0 then 1 else min, if max == 0 then t.db.top else max).value;
    assert HeaderOwned(t, a) && SetOwned(t, a);
  }

  // ----- soundness -------------------------------------------------------------------------------

  /** A commit returned is at the height asked for, and its next set comes from a commit saved there
      or right above; without pruning it is in the database; the impossible case is left only to
      height zero. */
  ghost predicate Delivers(c: Client, t: Trust, h: int, r: Result) {
    && (r.Panicked? ==> h == 0)
    && (r.Got? ==> Height(r.fc) == h && NextKnown(t, r.fc))
    && (r.Got? && NoPruning(c) ==> h in t.db.headers && t.db.headers[h] == r.fc.signed)
    && (r.Got? && NoSetCollision(c.crypto) && AllLineUp(c, t.saved) ==> exists i :: 0 <= i < |t.saved| && SameNext(t.saved[i], r.fc))
  }

  ghost predicate NoPruning(c: Client) {
    forall n: nat :: c.keep(n) == 0
  }

  /** The next set of a commit in hand is that of a saved commit with this header, or the own set of
      a commit saved and stored one height up. */
  ghost predicate NextKnown(t: Trust, fc: FullCommit) {
    || (exists i :: 0 <= i < |t.saved| && SameNext(t.saved[i], fc))
    || (Height(fc) + 1 in t.db.headers && (exists i :: 0 <= i < |t.saved| && t.saved[i].signed == fc.signed)
        && exists j :: 0 <= j < |t.saved| && OneUp(t.saved[j], fc))
  }

  predicate SameNext(p: FullCommit, fc: FullCommit) {
    p.signed == fc.signed && p.next == fc.next
  }

  predicate OneUp(p: FullCommit, fc: FullCommit) {
    Height(p) == Height(fc) + 1 && p.validators == fc.next
  }

  lemma HitNextKnown(t: Trust, min: int, max: int)
    requires Tidy(t) && LatestFullCommit(t.db, min, max).Hit?
    ensures NextKnown(t, LatestFullCommit(t.db, min, max).fc)
  {
    hide LatestFullCommit;
    TraceLookup(t, min, max);
    var fc := LatestFullCommit(t.db, min, max).fc;
    var a := Height(fc);
    if t.setter[a + 1] == t.owner[a] {
      assert SameNext(t.saved[t.owner[a]], fc);
    } else {
      assert OneUp(t.saved[t.setter[a + 1]], fc);
      assert t.saved[t.owner[a]].signed == fc.signed;
    }
  }

  /** A lookup up to a positive height finds the highest stored height not above it, and if that is
      lower, the next set found is the commit's own. */
  lemma LookupBelow(t: Trust, h: int) returns (i: nat)
    requires Tidy(t) && h > 0 && LatestFullCommit(t.db, 1, h).Hit?
    ensures var fc := LatestFullCommit(t.db, 1, h).fc;
            var a := Height(fc);
            && 1 <= a <= h && a in t.db.headers && (forall k :: a < k <= h ==> k !in t.db.headers)
            && i < |t.saved| && t.saved[i].signed == fc.signed && (a < h ==> t.saved[i].next == fc.next)
  {
    TraceLookup(t, 1, h);
    i := t.owner[Highest(t.db, 1, h).value];
    assert HeaderOwned(t, Highest(t.db, 1, h).value);
  }

  lemma FutureSupports(c: Client, saved: seq<FullCommit>, i: nat, trusted: FullCommit, fc: FullCommit)
    requires i < |saved| && SameNext(saved[i], trusted) && Height(trusted) < Height(fc)
    requires FullValid(c.crypto, c.chain, fc) && Future(c, trusted, fc).Fine?
    ensures Supports(c, saved, i, fc)
  {
    FutureFineMeansQuorum(c.crypto, c.chain, trusted.next, fc.validators, fc.signed);
  }

  lemma SavedIsStored(c: Client, t: Trust, fc: FullCommit)
    ensures NoPruning(c) ==> Height(fc) in SaveTrusted(c, t, fc).db.headers && SaveTrusted(c, t, fc).db.headers[Height(fc)] == fc.signed
  {
  }

  lemma {:induction false} UpdateSound(c: Client, t: Trust, roots: nat, h: int, fuel: nat)
    requires Sound(c, t, roots)
    ensures var (t', r) := UpdateToHeight(c, t, h, fuel);
            Sound(c, t', roots) && Delivers(c, t', h, r) && t.saved <= t'.saved
    decreases fuel, 1
  {
    hide FullValid, Sound, Bisect, NextKnown, NoSetCollision, AllLineUp;
    if fuel > 0 {
      var fc := c.source(t.calls, h);
      var t1 := t.(calls := t.calls + 1);
      SoundIgnoresCalls(c, t, t1, roots);
      if fc.Some? && Height(fc.value) == h && FullValid(c.crypto, c.chain, fc.value) {
        BisectSound(c, t1, roots, fc.value, fuel - 1);
      }
    }
  }

  lemma SoundIsTidy(c: Client, t: Trust, roots: nat)
    requires Sound(c, t, roots)
    ensures Tidy(t)
  {
  }

  lemma SoundIgnoresCalls(c: Client, t: Trust, t': Trust, roots: nat)
    requires t' == t.(calls := t'.calls) && Sound(c, t, roots)
    ensures Sound(c, t', roots)
  {
    hide Rooted, Saves, NoSetCollision, AllLineUp, FullValid, Stands;
    forall a | a in t'.db.headers
      ensures HeaderOwned(t', a) && SetOwned(t', a)
    {
      assert HeaderOwned(t, a) && SetOwned(t, a);
    }
  }

  lemma {:induction false} BisectSound(c: Client, t: Trust, roots: nat, fc: FullCommit, fuel: nat)
    requires Sound(c, t, roots) && FullValid(c.crypto, c.chain, fc)
    ensures var (t', r) := Bisect(c, t, fc, fuel);
            Sound(c, t', roots) && Delivers(c, t', Height(fc), r) && t.saved <= t'.saved
    decreases fuel, 0
  {
    hide FullValid, Sound, FutureVerdict, Save, LatestFullCommit, Tidy, NoSetCollision, AllLineUp, SignedByQuorum;
    SoundIsTidy(c, t, roots);
    if fuel > 0 {
      var h := Height(fc);
      var trusted := LatestFullCommit(t.db, 1, h);
      if trusted.Hit? {
        if NoSetCollision(c.crypto) && AllLineUp(c, t.saved) {
          AlignedLookup(c, t, roots, 1, h);
        }
        HitNextKnown(t, 1, h);
        TraceLookup(t, 1, h);
        if h > 0 {
          var i := LookupBelow(t, h);
        }
        if Height(trusted.fc) < h {
          match Future(c, trusted.fc, fc) {
            case Fine =>
              var i := LookupBelow(t, h);
              FutureSupports(c, t.saved, i, trusted.fc, fc);
              assert Lower(c, t.saved[i], fc);
              SavedIsStored(c, t, fc);
              SaveKeepsSound(c, t, roots, fc, i);
              assert SameNext(SaveTrusted(c, t, fc).saved[|t.saved|], fc);
            case Invalid =>
            case TooMuchChange =>
              var mid := (Height(trusted.fc) + h) / 2;
              UpdateSound(c, t, roots, mid, fuel - 1);
              var (t1, r) := UpdateToHeight(c, t, mid, fuel - 1);
              if r.Got? {
                BisectSound(c, t1, roots, fc, fuel - 1);
              }
          }
        }
      }
    }
  }

  /** The commit a header is checked against traces back to a saved one below it, or to one saved at
      the header's own height. */
  lemma BaseSound(c: Client, t: Trust, roots: nat, s: SignedHeader, fuel: nat) returns (i: nat)
    requires Sound(c, t, roots)
    ensures var (t1, r) := Base(c, t, s, fuel);
            && Sound(c, t1, roots) && t.saved <= t1.saved
            && (r.Panicked? ==> s.header.height == 1)
            && (r.Got? && Height(r.fc) < s.header.height ==>
                  Backs(t1.saved, i, s.header.height, r.fc.next))
            && (r.Got? && Height(r.fc) < s.header.height && NoSetCollision(c.crypto) && AllLineUp(c, t1.saved) ==>
                  Height(t1.saved[i]) < s.header.height && t1.saved[i].next == r.fc.next)
  {
    hide Sound, LatestFullCommit, UpdateToHeight, Tidy, NextKnown, NoSetCollision, AllLineUp;
    SoundIsTidy(c, t, roots);
    i := 0;
    var h: int := s.header.height;
    var trusted := LatestFullCommit(t.db, 1, h - 1);
    if trusted.Hit? {
      if c.crypto.hashSet(trusted.fc.next) == s.header.validatorsHash {
        if Height(trusted.fc) < h {
          i := HitTraced(t, h);
          if NoSetCollision(c.crypto) && AllLineUp(c, t.saved) {
            AlignedLookup(c, t, roots, 1, h - 1);
          }
        }
      } else {
        UpdateSound(c, t, roots, h - 1, fuel);
        var (t1, r) := UpdateToHeight(c, t, h - 1, fuel);
        if r.Got? {
          i := KnownTraced(t1, r.fc);
        }
      }
    }
  }

  /** The set is due after saved commit i, below h, or it is that of saved commit i at h itself with
      some commit saved one height below. */
  ghost predicate Backs(saved: seq<FullCommit>, i: nat, h: nat, vals: ValidatorSet) {
    && i < |saved|
    && (|| (Height(saved[i]) < h && saved[i].next == vals)
        || (Height(saved[i]) == h && saved[i].validators == vals && exists k :: 0 <= k < |saved| && Height(saved[k]) + 1 == h))
  }

  lemma KnownTraced(t: Trust, fc: FullCommit) returns (i: nat)
    requires NextKnown(t, fc)
    ensures Backs(t.saved, i, Height(fc) + 1, fc.next)
    ensures Height(t.saved[i]) > Height(fc) ==> Height(fc) + 1 in t.db.headers
    ensures (exists k :: 0 <= k < |t.saved| && SameNext(t.saved[k], fc)) ==> SameNext(t.saved[i], fc)
  {
    if k: nat :| k < |t.saved| && SameNext(t.saved[k], fc) {
      i := k;
    } else {
      i :| 0 <= i < |t.saved| && OneUp(t.saved[i], fc);
    }
  }

  lemma HitTraced(t: Trust, h: nat) returns (i: nat)
    requires Tidy(t) && h > 0 && LatestFullCommit(t.db, 1, h - 1).Hit? && Height(LatestFullCommit(t.db, 1, h - 1).fc) < h
    ensures var fc := LatestFullCommit(t.db, 1, h - 1).fc;
            && Backs(t.saved, i, h, fc.next)
            && ((exists k :: 0 <= k < |t.saved| && SameNext(t.saved[k], fc)) ==> SameNext(t.saved[i], fc))
  {
    var fc := LatestFullCommit(t.db, 1, h - 1).fc;
    assert h > 1;
    HitNextKnown(t, 1, h - 1);
    i := KnownTraced(t, fc);
    var k := LookupBelow(t, h - 1);
  }

  lemma VerifySound(c: Client, t: Trust, roots: nat, s: SignedHeader, fuel: nat)
    requires Sound(c, t, roots)
    ensures var (t', a) := Verify(c, t, s, fuel);
            Sound(c, t', roots) && t.saved <= t'.saved
  {
    hide Sound, LatestFullCommit, Base, FullValid, BaseVerified, SaveTrusted, NoSetCollision, AllLineUp, SignedByQuorum;
    var i := BaseSound(c, t, roots, s, fuel);
    var (t1, r) := Base(c, t, s, fuel);
    if r.Got? && BaseVerified(c.crypto, c.chain, Height(r.fc) + 1, r.fc.next, s) {
      var t2 := t1.(calls := t1.calls + 1);
      SoundIgnoresCalls(c, t1, t2, roots);
      var reply := c.sourceSet(t1.calls, s.header.height + 1);
      if reply.GotSet? {
        var fc := FullCommit(s, r.fc.next, reply.vals);
        BaseMeans(c, Height(r.fc) + 1, r.fc.next, s);
        assert Supports(c, t2.saved, i, fc);
        if FullValid(c.crypto, c.chain, fc) {
          if NoSetCollision(c.crypto) && AllLineUp(c, t2.saved) {
            assert Lower(c, t2.saved[i], fc);
          }
          SaveKeepsSound(c, t2, roots, fc, i);
          SaveAppends(c, t2, fc);
        }
      }
    }
  }

  /** What an accepted header rests on: a trusted commit with the same hash, or a quorum of the
      validators that a trusted commit names for its height. */
  lemma AcceptedMeans(c: Client, t: Trust, roots: nat, s: SignedHeader, fuel: nat)
    requires Sound(c, t, roots) && Verify(c, t, s, fuel).1.Accepted?
    ensures var t' := Verify(c, t, s, fuel).0;
            || (exists i :: 0 <= i < |t.saved| && c.crypto.hashHeader(t.saved[i].signed.header) == c.crypto.hashHeader(s.header))
            || (exists j :: 0 <= j < |t'.saved| && Supports(c, t'.saved, j, FullCommit(s, [], [])))
  {
    hide Sound, LatestFullCommit, Base, FullValid, BaseVerified, SaveTrusted, Tidy;
    var h := s.header.height;
    var same := LatestFullCommit(t.db, h, h);
    if same.Hit? && c.crypto.hashHeader(same.fc.signed.header) == c.crypto.hashHeader(s.header) {
      SoundIsTidy(c, t, roots);
      TraceLookup(t, h, h);
      assert t.saved[t.owner[Height(same.fc)]].signed == same.fc.signed;
    } else {
      var i := BaseSound(c, t, roots, s, fuel);
      var (t1, r) := Base(c, t, s, fuel);
      BaseMeans(c, Height(r.fc) + 1, r.fc.next, s);
      var fc := FullCommit(s, [], []);
      assert Supports(c, t1.saved, i, fc);
      var t' := Verify(c, t, s, fuel).0;
      VerifyAppends(c, t, s, fuel);
      SupportsStays(c, t1.saved, t'.saved, i, fc);
    }
  }

  lemma VerifyAppends(c: Client, t: Trust, s: SignedHeader, fuel: nat)
    requires var same := LatestFullCommit(t.db, s.header.height, s.header.height);
             !same.Hit? || c.crypto.hashHeader(same.fc.signed.header) != c.crypto.hashHeader(s.header)
    ensures Verify(c, t, s, fuel).1.Accepted? ==> Base(c, t, s, fuel).0.saved <= Verify(c, t, s, fuel).0.saved
  {
    hide LatestFullCommit, Base, FullValid, BaseVerified, Save;
  }

  lemma SupportsStays(c: Client, saved: seq<FullCommit>, more: seq<FullCommit>, j: nat, fc: FullCommit)
    requires saved <= more && Supports(c, saved, j, fc)
    ensures Supports(c, more, j, fc)
  {
    hide SignedByQuorum;
    if Height(saved[j]) == Height(fc) {
      var k :| 0 <= k < |saved| && Height(saved[k]) + 1 == Height(fc);
      assert Height(more[k]) + 1 == Height(fc);
    }
  }

  lemma BaseMeans(c: Client, height: nat, vals: ValidatorSet, s: SignedHeader)
    requires BaseVerified(c.crypto, c.chain, height, vals, s)
    ensures height <= s.header.height && SignedByQuorum(c.crypto, c.chain, vals, s)
  {
    FineMeansQuorum(c.crypto, c.chain, vals, s);
  }

  lemma SaveAppends(c: Client, t: Trust, fc: FullCommit)
    ensures SaveTrusted(c, t, fc).saved == t.saved + [fc] && SaveTrusted(c, t, fc).calls == t.calls
    ensures SaveTrusted(c, t, fc).db == Save(t.db, fc, c.keep(|t.saved|))
  {
  }

  // ----- whole runs ------------------------------------------------------------------------------

  datatype Request = Request(header: SignedHeader, fuel: nat)

  /** A database that holds the given roots, saved one after the other. */
  function WithRoots(c: Client, roots: seq<FullCommit>): Trust {
    if roots == [] then NO_TRUST else SaveTrusted(c, WithRoots(c, roots[..|roots| - 1]), roots[|roots| - 1])
  }

  function RunAll(c: Client, roots: seq<FullCommit>, requests: seq<Request>): Trust {
    if requests == [] then WithRoots(c, roots)
    else
      var q := requests[|requests| - 1];
      Verify(c, RunAll(c, roots, requests[..|requests| - 1]), q.header, q.fuel).0
  }

  lemma {:induction false} RootsTidy(c: Client, roots: seq<FullCommit>)
    ensures WithRoots(c, roots).saved == roots && Tidy(WithRoots(c, roots))
    ensures WithRoots(c, roots).db == Saves(c, roots)
  {
    hide Save, Saves, SaveTrusted, Tidy;
    if roots == [] {
      NothingSaved(c);
    } else {
      var k := |roots| - 1;
      RootsTidy(c, roots[..k]);
      SaveKeepsTidy(c, WithRoots(c, roots[..k]), roots[k]);
      SaveAppends(c, WithRoots(c, roots[..k]), roots[k]);
      SavesSnoc(c, roots[..k], roots[k]);
      assert roots[..k] + [roots[k]] == roots;
    }
  }

  lemma NothingSaved(c: Client)
    ensures Tidy(NO_TRUST) && NO_TRUST.db == Saves(c, [])
  {
  }

  lemma RootsSound(c: Client, roots: seq<FullCommit>)
    ensures WithRoots(c, roots).saved == roots && Sound(c, WithRoots(c, roots), |roots|)
  {
    hide WithRoots, Tidy, Supports;
    RootsTidy(c, roots);
  }

  /** Soundness over every run, source and pruning: every commit ever trusted is a root, or hangs
      from one by a chain in which each commit was signed by more than two thirds of the validators
      an earlier trusted commit names; and every stored header belongs to one of them. */
  lemma EveryTrustedIsRooted(c: Client, roots: seq<FullCommit>, requests: seq<Request>)
    ensures var t := RunAll(c, roots, requests);
            && roots <= t.saved && Tidy(t)
            && (forall i :: 0 <= i < |t.saved| ==> Rooted(c, t.saved, |roots|, i))
  {
    RunSound(c, roots, requests);
  }

  lemma {:induction false} RunSound(c: Client, roots: seq<FullCommit>, requests: seq<Request>)
    ensures roots <= RunAll(c, roots, requests).saved && Sound(c, RunAll(c, roots, requests), |roots|)
  {
    hide Sound, Verify;
    if requests == [] {
      RootsSound(c, roots);
    } else {
      var k := |requests| - 1;
      RunSound(c, roots, requests[..k]);
      VerifySound(c, RunAll(c, roots, requests[..k]), |roots|, requests[k].header, requests[k].fuel);
    }
  }

  /** The documented promise, over every run whose saves line up: with set hashes that do not collide
      and valid roots, each trusted commit that is not a root was signed by more than two thirds of the
      next validators of a strictly lower commit trusted before it. */
  lemma StrictlyLowerSupport(c: Client, roots: seq<FullCommit>, requests: seq<Request>, i: nat) returns (j: nat)
    requires NoSetCollision(c.crypto) && forall fc <- roots :: FullValid(c.crypto, c.chain, fc)
    requires var saved := RunAll(c, roots, requests).saved;
             |roots| <= i < |saved| && forall k :: 0 <= k < |saved| ==> LinesUp(Saves(c, saved[..k]), saved[k])
    ensures var saved := RunAll(c, roots, requests).saved;
            j < i && Height(saved[j]) < Height(saved[i]) && SignedByQuorum(c.crypto, c.chain, saved[j].next, saved[i].signed)
  {
    hide RunAll, LinesUp, FullValid, SignedByQuorum, Tidy, Rooted;
    RunSound(c, roots, requests);
    var saved := RunAll(c, roots, requests).saved;
    forall k | 0 <= k < |saved|
      ensures FullValid(c.crypto, c.chain, saved[k])
    {
      assert k < |roots| ==> saved[k] == roots[k] && roots[k] in roots;
    }
    assert Stands(c, saved, i);
    j :| 0 <= j < i && Lower(c, saved[j], saved[i]);
  }

  /** A commit comes back from the database with the next set it was saved with exactly when the
      commit saved after it one height up carries that same set. */
  lemma LoadReturnsSaved(db: DB, fc: FullCommit, up: FullCommit)
    requires Height(fc) > 0 && Height(up) == Height(fc) + 1 && Height(up) !in db.headers
    ensures var h := Height(fc);
            LatestFullCommit(Save(Save(db, fc, 0), up, 0), h, h) == Hit(fc) <==> up.validators == fc.next
  {
    var h := Height(fc);
    var d := Save(Save(db, fc, 0), up, 0);
    assert Highest(d, h, h) == Some(h);
  }

  /** The verifier's "should not happen" is reached exactly when height zero is asked for, the source
      has a valid commit for it, and anything at all is trusted. */
  lemma PanicsExactlyWhen(c: Client, t: Trust, roots: nat, h: int, fuel: nat)
    requires Sound(c, t, roots)
    ensures UpdateToHeight(c, t, h, fuel).1.Panicked?
            <==> h == 0 && fuel >= 2 && c.source(t.calls, 0).Some? && Height(c.source(t.calls, 0).value) == 0
                 && FullValid(c.crypto, c.chain, c.source(t.calls, 0).value) && LatestFullCommit(t.db, 1, 0).Hit?
  {
    hide FullValid, FutureVerdict, Sound;
    SoundIsTidy(c, t, roots);
    UpdateSound(c, t, roots, h, fuel);
    if h == 0 && LatestFullCommit(t.db, 1, 0).Hit? {
      TraceLookup(t, 1, 0);
    }
  }
}
