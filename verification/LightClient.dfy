/** The dynamic light client (`lite/dynamic_verifier.go`) over its database of trusted commits
    (`lite/dbprovider.go`).

    The source is arbitrary: it may answer each call differently. Bisection need not end, so every
    routine takes a fuel that bounds how deep it nests; results hold for every fuel. */
module LightClient {
  import opened Options
  import opened Commits

  // ----- the trusted database --------------------------------------------------------------------

  /** Headers by height and validator sets by the height they sign at; `top` bounds the heights. A
      commit at h fills the sets at h and h + 1, which a neighbouring commit may overwrite. */
  datatype DB = DB(headers: map<nat, SignedHeader>, sets: map<nat, ValidatorSet>, top: nat)

  function Height(fc: FullCommit): nat {
    fc.signed.header.height
  }

  /** Saving, then dropping every height below `keep` (garbage collection removes the lowest). */
  function Save(db: DB, fc: FullCommit, keep: nat): DB {
    var h := Height(fc);
    var headers := db.headers[h := fc.signed];
    var sets := db.sets[h := fc.validators][h + 1 := fc.next];
    DB(map k | k in headers && k >= keep :: headers[k],
       map k | k in sets && k >= keep :: sets[k],
       if h > db.top then h else db.top)
  }

  datatype Lookup = Hit(fc: FullCommit) | Miss | Unfilled

  /** The highest stored height in a range. */
  function Highest(db: DB, min: nat, max: int): (r: Option<nat>)
    ensures r.Some? ==> min <= r.value <= max && r.value in db.headers
    ensures forall h: nat :: min <= h <= max && h in db.headers ==> r.Some? && h <= r.value
    decreases max - min
  {
    if max < min then None
    else if max in db.headers then Some(max)
    else Highest(db, min, max - 1)
  }

  /** A zero upper limit means none. */
  function LatestFullCommit(db: DB, min: int, max: int): Lookup {
    var lo := if min <= 0 then 1 else min;
    var hi := if max == 0 then db.top else max;
    var h := Highest(db, lo, hi);
    if h.None? then Miss
    else if h.value !in db.sets || h.value + 1 !in db.sets then Unfilled
    else Hit(FullCommit(db.headers[h.value], db.sets[h.value], db.sets[h.value + 1]))
  }

  // ----- the verifier ----------------------------------------------------------------------------

  datatype SetReply = GotSet(vals: ValidatorSet) | UnknownValidators | SetError

  /** What the client is built from. The source answers by call number and height; `keep` is the
      lowest height the n-th save retains. */
  datatype Client = Client(
    chain: string,
    crypto: Crypto,
    source: (nat, int) -> Option<FullCommit>,
    sourceSet: (nat, int) -> SetReply,
    keep: nat -> nat)

  /** The database and the number of source calls made; and, for reasoning, every commit ever saved,
      in order, and which save last wrote each header and each set. */
  datatype Trust = Trust(db: DB, calls: nat, saved: seq<FullCommit>, owner: map<nat, nat>, setter: map<nat, nat>)

  const NO_TRUST := Trust(DB(map[], map[], 0), 0, [], map[], map[])

  function SaveTrusted(c: Client, t: Trust, fc: FullCommit): Trust {
    var n, h := |t.saved|, Height(fc);
    Trust(Save(t.db, fc, c.keep(n)), t.calls, t.saved + [fc], t.owner[h := n], t.setter[h := n][h + 1 := n])
  }

  datatype Result = Got(fc: FullCommit) | Failed | OutOfFuel | Panicked

  function Future(c: Client, trusted: FullCommit, fc: FullCommit): Verdict {
    FutureVerdict(c.crypto, trusted.next, fc.validators, c.chain, fc.signed.commit.block, Height(fc), fc.signed.commit)
  }

  function UpdateToHeight(c: Client, t: Trust, h: int, fuel: nat): (Trust, Result)
    decreases fuel
  {
    if fuel == 0 then (t, OutOfFuel)
    else
      var fc := c.source(t.calls, h);
      var t1 := t.(calls := t.calls + 1);
      if fc.None? || Height(fc.value) != h || !FullValid(c.crypto, c.chain, fc.value) then (t1, Failed)
      else Bisect(c, t1, fc.value, fuel - 1)
  }

  /** The retry loop, from one of its tests on. */
  function Bisect(c: Client, t: Trust, fc: FullCommit, fuel: nat): (Trust, Result)
    decreases fuel
  {
    if fuel == 0 then (t, OutOfFuel)
    else
      var h := Height(fc);
      var trusted := LatestFullCommit(t.db, 1, h);
      if !trusted.Hit? then (t, Failed)
      else if Height(trusted.fc) == h then (t, Got(trusted.fc))
      else if Height(trusted.fc) >= h then (t, Panicked)
      else
        match Future(c, trusted.fc, fc)
        case Fine => (SaveTrusted(c, t, fc), Got(fc))
        case Invalid => (t, Failed)
        case TooMuchChange =>
          var mid := (Height(trusted.fc) + h) / 2;
          var (t1, r) := UpdateToHeight(c, t, mid, fuel - 1);
          if r.Got? then Bisect(c, t1, fc, fuel - 1) else (t1, r)
  }

  /** The commit whose next validators must sign the header: the latest trusted one below it,
      brought up to the height before it if its set does not match. */
  function Base(c: Client, t: Trust, s: SignedHeader, fuel: nat): (Trust, Result) {
    var prev := s.header.height - 1;
    var trusted := LatestFullCommit(t.db, 1, prev);
    if !trusted.Hit? then (t, Failed)
    else if c.crypto.hashSet(trusted.fc.next) == s.header.validatorsHash then (t, Got(trusted.fc))
    else if Height(trusted.fc) == prev then (t, Failed)
    else
      var (t1, r) := UpdateToHeight(c, t, prev, fuel);
      if r.Got? && c.crypto.hashSet(r.fc.next) != s.header.validatorsHash then (t1, Failed) else (t1, r)
  }

  datatype Answer = Accepted | Rejected | NoAnswer | Crashed

  function Verify(c: Client, t: Trust, s: SignedHeader, fuel: nat): (Trust, Answer) {
    var h := s.header.height;
    var same := LatestFullCommit(t.db, h, h);
    if same.Hit? && c.crypto.hashHeader(same.fc.signed.header) == c.crypto.hashHeader(s.header) then (t, Accepted)
    else if same.Unfilled? then (t, Rejected)
    else
      var (t1, base) := Base(c, t, s, fuel);
      match base
      case Failed => (t1, Rejected)
      case OutOfFuel => (t1, NoAnswer)
      case Panicked => (t1, Crashed)
      case Got(trusted) =>
        if trusted.next == [] then (t1, Crashed)
        else if !BaseVerified(c.crypto, c.chain, Height(trusted) + 1, trusted.next, s) then (t1, Rejected)
        else
          var reply := c.sourceSet(t1.calls, h + 1);
          var t2 := t1.(calls := t1.calls + 1);
          match reply
          case UnknownValidators => (t2, Accepted)
          case SetError => (t2, Rejected)
          case GotSet(vals) =>
            var fc := FullCommit(s, trusted.next, vals);
            if FullValid(c.crypto, c.chain, fc) then (SaveTrusted(c, t2, fc), Accepted) else (t2, Rejected)
  }

  // ----- the exact condition ---------------------------------------------------------------------

  /** A commit stored at the header's height has its hash. */
  predicate KnownAlready(c: Client, t: Trust, s: SignedHeader) {
    var same := LatestFullCommit(t.db, s.header.height, s.header.height);
    same.Hit? && c.crypto.hashHeader(same.fc.signed.header) == c.crypto.hashHeader(s.header)
  }

  /** The commit the header rests on, and the trust once it is found: the latest below the header if its
      next set has the hash the header names, or else the one an update to the height below brings. */
  ghost predicate RestsOn(c: Client, t: Trust, s: SignedHeader, fuel: nat, base: FullCommit, t1: Trust) {
    var below := s.header.height - 1;
    var low := LatestFullCommit(t.db, 1, below);
    && low.Hit? && c.crypto.hashSet(base.next) == s.header.validatorsHash
    && (if c.crypto.hashSet(low.fc.next) == s.header.validatorsHash then base == low.fc && t1 == t
        else Height(low.fc) != below && UpdateToHeight(c, t, below, fuel) == (t1, Got(base)))
  }

  /** The header is for this chain and above the base, its commit is in order and for it, and of the
      validators due after the base, at least one there, enough signed. */
  predicate WellSigned(c: Client, base: FullCommit, s: SignedHeader) {
    && base.next != [] && s.header.chain == c.chain && s.header.height > Height(base)
    && CommitHeight(s.commit) == s.header.height && s.commit.block.hash == Some(c.crypto.hashHeader(s.header))
    && CommitVerdict(c.crypto, base.next, c.chain, s.commit.block, s.header.height, s.commit).Fine?
  }

  /** The source does not know the set one above the header, or has one with the hash the header names. */
  predicate NextFits(c: Client, s: SignedHeader, reply: SetReply) {
    reply.UnknownValidators? || (reply.GotSet? && reply.vals != [] && c.crypto.hashSet(reply.vals) == s.header.nextValidatorsHash)
  }

  ghost predicate Accepts(c: Client, t: Trust, s: SignedHeader, fuel: nat, base: FullCommit, t1: Trust) {
    RestsOn(c, t, s, fuel, base, t1) && WellSigned(c, base, s) && NextFits(c, s, c.sourceSet(t1.calls, s.header.height + 1))
  }

  lemma BaseVerifiedExactly(c: Client, base: FullCommit, s: SignedHeader)
    requires c.crypto.hashSet(base.next) == s.header.validatorsHash && base.next != []
    ensures BaseVerified(c.crypto, c.chain, Height(base) + 1, base.next, s) <==> WellSigned(c, base, s)
    ensures WellSigned(c, base, s) ==> HeaderBasic(c.crypto, c.chain, s)
  {
  }

  lemma FullValidExactly(c: Client, base: FullCommit, s: SignedHeader, vals: ValidatorSet)
    requires c.crypto.hashSet(base.next) == s.header.validatorsHash && WellSigned(c, base, s)
    ensures FullValid(c.crypto, c.chain, FullCommit(s, base.next, vals))
            <==> vals != [] && c.crypto.hashSet(vals) == s.header.nextValidatorsHash
  {
    BaseVerifiedExactly(c, base, s);
  }

  lemma BaseIs(c: Client, t: Trust, s: SignedHeader, fuel: nat, base: FullCommit, t1: Trust)
    ensures Base(c, t, s, fuel) == (t1, Got(base)) <==> RestsOn(c, t, s, fuel, base, t1)
  {
    hide LatestFullCommit, UpdateToHeight;
  }

  /** A header is accepted exactly when a commit stored at its height has its hash, or, nothing being
      half-stored there, it rests on a trusted commit whose next validators signed it and the source does
      not contradict its next set. */
  lemma AcceptedExactlyWhen(c: Client, t: Trust, s: SignedHeader, fuel: nat)
    ensures Verify(c, t, s, fuel).1.Accepted? <==>
            KnownAlready(c, t, s)
            || (!LatestFullCommit(t.db, s.header.height, s.header.height).Unfilled?
                && exists base: FullCommit, t1: Trust :: Accepts(c, t, s, fuel, base, t1))
  {
    hide LatestFullCommit, UpdateToHeight, BaseVerified, FullValid, SaveTrusted, Base, RestsOn, WellSigned;
    if !KnownAlready(c, t, s) && !LatestFullCommit(t.db, s.header.height, s.header.height).Unfilled? {
      var (t1, r) := Base(c, t, s, fuel);
      if r.Got? {
        BaseIs(c, t, s, fuel, r.fc, t1);
        BaseHash(c, t, s, fuel, r.fc, t1);
        if r.fc.next != [] {
          BaseVerifiedExactly(c, r.fc, s);
          NextDecides(c, r.fc, s, c.sourceSet(t1.calls, s.header.height + 1));
        } else {
          EmptyNotSigned(c, r.fc, s);
        }
        assert Verify(c, t, s, fuel).1.Accepted? <==> Accepts(c, t, s, fuel, r.fc, t1);
      }
      forall base: FullCommit, u: Trust | Accepts(c, t, s, fuel, base, u)
        ensures r == Got(base) && u == t1
      {
        BaseIs(c, t, s, fuel, base, u);
      }
    }
  }

  lemma BaseHash(c: Client, t: Trust, s: SignedHeader, fuel: nat, base: FullCommit, t1: Trust)
    requires RestsOn(c, t, s, fuel, base, t1)
    ensures c.crypto.hashSet(base.next) == s.header.validatorsHash
  {
  }

  lemma EmptyNotSigned(c: Client, base: FullCommit, s: SignedHeader)
    ensures base.next == [] ==> !WellSigned(c, base, s)
  {
  }

  lemma NextDecides(c: Client, base: FullCommit, s: SignedHeader, reply: SetReply)
    requires c.crypto.hashSet(base.next) == s.header.validatorsHash && base.next != []
    ensures WellSigned(c, base, s) && reply.GotSet? ==>
              (FullValid(c.crypto, c.chain, FullCommit(s, base.next, reply.vals)) <==> NextFits(c, s, reply))
  {
    if WellSigned(c, base, s) && reply.GotSet? {
      FullValidExactly(c, base, s, reply.vals);
    }
  }

  /** What a header leaves behind: nothing new when it is known already, what finding its base brought, and
      on top of that the header itself, with the set it was checked against and the one the source gave,
      exactly when it is accepted with such a set. */
  lemma StoredExactlyWhen(c: Client, t: Trust, s: SignedHeader, fuel: nat, base: FullCommit, t1: Trust)
    requires !KnownAlready(c, t, s) && !LatestFullCommit(t.db, s.header.height, s.header.height).Unfilled?
    requires RestsOn(c, t, s, fuel, base, t1)
    ensures var (t', a) := Verify(c, t, s, fuel);
            var reply := c.sourceSet(t1.calls, s.header.height + 1);
            if !WellSigned(c, base, s) then t' == t1
            else if a.Accepted? && reply.GotSet? then
              t' == SaveTrusted(c, t1.(calls := t1.calls + 1), FullCommit(s, base.next, reply.vals))
            else t' == t1.(calls := t1.calls + 1)
  {
    hide LatestFullCommit, UpdateToHeight, BaseVerified, FullValid, SaveTrusted, Base, RestsOn, WellSigned;
    BaseIs(c, t, s, fuel, base, t1);
    BaseHash(c, t, s, fuel, base, t1);
    if base.next != [] {
      BaseVerifiedExactly(c, base, s);
    } else {
      EmptyNotSigned(c, base, s);
    }
  }

  // ----- the object ------------------------------------------------------------------------------

  /** The verifier object: the trusted database grows in place. */
  class DynamicVerifier {
    const client: Client
    var db: DB
    var calls: nat
    var saves: nat
    ghost var saved: seq<FullCommit>
    ghost var owner: map<nat, nat>
    ghost var setter: map<nat, nat>

    ghost predicate Valid()
      reads this
    {
      saves == |saved|
    }

    ghost function State(): Trust
      reads this
    {
      Trust(db, calls, saved, owner, setter)
    }

    constructor (client: Client)
      ensures this.client == client && Valid() && State() == NO_TRUST
    {
      this.client := client;
      db := DB(map[], map[], 0);
      calls := 0;
      saves := 0;
      saved, owner, setter := [], map[], map[];
    }

    method SaveFullCommit(fc: FullCommit)
      requires Valid()
      modifies this
      ensures Valid() && State() == SaveTrusted(client, old(State()), fc)
    {
      var h := Height(fc);
      var keep := client.keep(saves);
      var headers := db.headers[h := fc.signed];
      var sets := db.sets[h := fc.validators];
      sets := sets[h + 1 := fc.next];
      db := DB(map k | k in headers && k >= keep :: headers[k],
               map k | k in sets && k >= keep :: sets[k],
               if h > db.top then h else db.top);
      owner, setter := owner[h := saves], setter[h := saves][h + 1 := saves];
      saves := saves + 1;
      saved := saved + [fc];
    }

    /** No verdict: the method panics. */
    method VerifyAndSave(trusted: FullCommit, fc: FullCommit) returns (v: Option<Verdict>)
      requires Valid()
      modifies this
      ensures Valid() && v == if Height(trusted) < Height(fc) then Some(Future(client, trusted, fc)) else None
      ensures State() == if v == Some(Fine) then SaveTrusted(client, old(State()), fc) else old(State())
    {
      if Height(trusted) >= Height(fc) {
        return None;
      }
      var r := VerifyFutureCommit(client.crypto, trusted.next, fc.validators, client.chain,
                                  fc.signed.commit.block, Height(fc), fc.signed.commit);
      if r.Fine? {
        SaveFullCommit(fc);
      }
      return Some(r);
    }

    method UpdateTo(h: int, fuel: nat) returns (r: Result)
      requires Valid()
      modifies this
      ensures Valid() && (State(), r) == UpdateToHeight(client, old(State()), h, fuel)
      decreases fuel
    {
      hide Save, LatestFullCommit, FutureVerdict, FullValid;
      if fuel == 0 {
        return OutOfFuel;
      }
      var reply := client.source(calls, h);
      calls := calls + 1;
      if reply.None? || Height(reply.value) != h || !FullValid(client.crypto, client.chain, reply.value) {
        return Failed;
      }
      var fc := reply.value;
      var left: nat := fuel - 1;
      ghost var start := State();
      while true
        invariant Valid() && left < fuel
        invariant Bisect(client, start, fc, fuel - 1) == Bisect(client, State(), fc, left)
        decreases left
      {
        if left == 0 {
          return OutOfFuel;
        }
        var trusted := LatestFullCommit(db, 1, h);
        if !trusted.Hit? {
          return Failed;
        }
        if Height(trusted.fc) == h {
          return Got(trusted.fc);
        }
        var v := VerifyAndSave(trusted.fc, fc);
        if v.None? {
          return Panicked;
        }
        if v.value.Fine? {
          return Got(fc);
        }
        if v.value.Invalid? {
          return Failed;
        }
        var mid := (Height(trusted.fc) + h) / 2;
        var out := UpdateTo(mid, left - 1);
        if !out.Got? {
          return out;
        }
        left := left - 1;
      }
    }

    method VerifyHeader(s: SignedHeader, fuel: nat) returns (a: Answer)
      requires Valid()
      modifies this
      ensures a.Accepted? <==>
              KnownAlready(client, old(State()), s)
              || (!LatestFullCommit(old(db), s.header.height, s.header.height).Unfilled?
                  && exists base: FullCommit, t1: Trust :: Accepts(client, old(State()), s, fuel, base, t1))
      ensures Valid() && (State(), a) == Verify(client, old(State()), s, fuel)
    {
      hide Save, LatestFullCommit, FullValid, BaseVerified, UpdateToHeight, Accepts, KnownAlready;
      AcceptedExactlyWhen(client, State(), s, fuel);
      var h: int := s.header.height;
      var same := LatestFullCommit(db, h, h);
      if same.Hit? {
        if client.crypto.hashHeader(same.fc.signed.header) == client.crypto.hashHeader(s.header) {
          return Accepted;
        }
      } else if same.Unfilled? {
        return Rejected;
      }
      var prev: int := h - 1;
      var latest := LatestFullCommit(db, 1, prev);
      if !latest.Hit? {
        return Rejected;
      }
      var trusted := latest.fc;
      if client.crypto.hashSet(trusted.next) != s.header.validatorsHash {
        if Height(trusted) == prev {
          return Rejected;
        }
        var r := UpdateTo(prev, fuel);
        match r {
          case OutOfFuel => return NoAnswer;
          case Panicked => return Crashed;
          case Failed => return Rejected;
          case Got(fc) => trusted := fc;
        }
        if client.crypto.hashSet(trusted.next) != s.header.validatorsHash {
          return Rejected;
        }
      }
      if trusted.next == [] {
        return Crashed;
      }
      if !BaseVerified(client.crypto, client.chain, Height(trusted) + 1, trusted.next, s) {
        return Rejected;
      }
      var reply := client.sourceSet(calls, h + 1);
      calls := calls + 1;
      match reply {
        case UnknownValidators => return Accepted;
        case SetError => return Rejected;
        case GotSet(vals) =>
          var fc := FullCommit(s, trusted.next, vals);
          if !FullValid(client.crypto, client.chain, fc) {
            return Rejected;
          }
          SaveFullCommit(fc);
          return Accepted;
      }
    }
  }
}
