/** The file-backed validator key: the double-sign guard (`privval/file.go`) under arbitrary
    requests and crashes.

    The wire codec is a parameter with round-trip laws, the key is an outcome supplied per
    request (any bytes, or a failure), and the clock is a parameter. */
module PrivVal {
  import opened Options
  import VoteSets

  type Bytes = seq<nat>
  type BlockID = VoteSets.BlockID

  // ----- messages and their canonical form -------------------------------------------------------

  const PREVOTE_TYPE := 1
  const PRECOMMIT_TYPE := 2

  const STEP_PROPOSE := 1
  const STEP_PREVOTE := 2
  const STEP_PRECOMMIT := 3

  datatype Message =
    | Vote(kind: nat, height: int, round: int, block: BlockID, time: int, validator: nat, signature: Bytes)
    | Proposal(height: int, round: int, polRound: int, block: BlockID, time: int, signature: Bytes)

  /** What is encoded into the sign bytes: no signature and no validator address. */
  datatype Canonical =
    | CanonicalVote(kind: nat, height: int, round: int, block: BlockID, time: int, chain: string)
    | CanonicalProposal(height: int, round: int, polRound: int, block: BlockID, time: int, chain: string)

  function Canonicalize(chain: string, m: Message): Canonical {
    match m
    case Vote(kind, height, round, block, time, _, _) => CanonicalVote(kind, height, round, block, time, chain)
    case Proposal(height, round, pol, block, time, _) => CanonicalProposal(height, round, pol, block, time, chain)
  }

  /** The step a message is signed for; a vote of unknown type has none. */
  function StepOf(m: Canonical): Option<nat> {
    match m
    case CanonicalProposal(_, _, _, _, _, _) => Some(STEP_PROPOSE)
    case CanonicalVote(kind, _, _, _, _, _) =>
      if kind == PREVOTE_TYPE then Some(STEP_PREVOTE)
      else if kind == PRECOMMIT_TYPE then Some(STEP_PRECOMMIT)
      else None
  }

  // ----- the codec -------------------------------------------------------------------------------

  datatype Codec = Codec(
    encode: Canonical -> Bytes,
    decodeVote: Bytes -> Option<Canonical>,
    decodeProposal: Bytes -> Option<Canonical>,
    json: Canonical -> Bytes)

  ghost predicate Lawful(c: Codec) {
    && (forall m: Canonical :: c.encode(m) != [])
    && (forall m: Canonical :: m.CanonicalVote? ==> c.decodeVote(c.encode(m)) == Some(m))
    && (forall m: Canonical :: m.CanonicalProposal? ==> c.decodeProposal(c.encode(m)) == Some(m))
    && (forall m: Canonical, n: Canonical :: c.json(m) == c.json(n) ==> m == n)
  }

  function SignBytes(c: Codec, chain: string, m: Message): Bytes {
    c.encode(Canonicalize(chain, m))
  }

  // ----- the last sign state ---------------------------------------------------------------------

  datatype LastSignState = LastSignState(
    height: int,
    round: int,
    step: nat,
    signature: Option<Bytes>,
    signBytes: Option<Bytes>)

  const UNSIGNED := LastSignState(0, 0, 0, None, None)

  function Persisted(b: Option<Bytes>): Option<Bytes> {
    if b == Some([]) then None else b
  }

  /** The state as it comes back from disk: empty byte fields are omitted and load as nil. */
  function Stored(lss: LastSignState): LastSignState {
    lss.(signature := Persisted(lss.signature), signBytes := Persisted(lss.signBytes))
  }

  datatype Check = Fresh | Same | Regression | NoSignBytes | NilSignature

  function CheckHRS(lss: LastSignState, height: int, round: int, step: nat): Check {
    if lss.height > height then Regression
    else if lss.height == height then
      if lss.round > round then Regression
      else if lss.round == round then
        if lss.step > step then Regression
        else if lss.step == step then
          if lss.signBytes.None? then NoSignBytes
          else if lss.signature.None? then NilSignature
          else Same
        else Fresh
      else Fresh
    else Fresh
  }

  // ----- signing ---------------------------------------------------------------------------------

  datatype Differ = DecodePanic | Conflict | OnlyTime(time: int)

  /** Both byte strings decoded, their times set to `now`, and compared re-encoded. */
  function VotesOnlyDifferByTimestamp(c: Codec, last: Bytes, bytes: Bytes, now: int): Differ {
    match (c.decodeVote(last), c.decodeVote(bytes))
    case (Some(m), Some(n)) =>
      if c.json(m.(time := now)) == c.json(n.(time := now)) then OnlyTime(m.time) else Conflict
    case _ => DecodePanic
  }

  function ProposalsOnlyDifferByTimestamp(c: Codec, last: Bytes, bytes: Bytes, now: int): Differ {
    match (c.decodeProposal(last), c.decodeProposal(bytes))
    case (Some(m), Some(n)) =>
      if c.encode(m.(time := now)) == c.encode(n.(time := now)) then OnlyTime(m.time) else Conflict
    case _ => DecodePanic
  }

  function OnlyDiffer(c: Codec, m: Message, last: Bytes, bytes: Bytes, now: int): Differ {
    if m.Vote? then VotesOnlyDifferByTimestamp(c, last, bytes, now)
    else ProposalsOnlyDifferByTimestamp(c, last, bytes, now)
  }

  function Attach(m: Message, time: int, signature: Bytes): Message {
    m.(time := time, signature := signature)
  }

  function WithSignature(m: Message, signature: Bytes): Message {
    m.(signature := signature)
  }

  datatype Outcome = Signed(message: Message) | Refused | Panicked

  /** What a request comes to, before anything is stored. `key` is what the private key returns. */
  function Decide(c: Codec, lss: LastSignState, chain: string, m: Message, key: Option<Bytes>, now: int): Outcome {
    var step := StepOf(Canonicalize(chain, m));
    if step.None? then Panicked
    else
      var bytes := SignBytes(c, chain, m);
      match CheckHRS(lss, m.height, m.round, step.value)
      case Regression => Refused
      case NoSignBytes => Refused
      case NilSignature => Panicked
      case Fresh => if key.Some? then Signed(Attach(m, m.time, key.value)) else Refused
      case Same =>
        if bytes == lss.signBytes.value then Signed(Attach(m, m.time, lss.signature.value))
        else
          match OnlyDiffer(c, m, lss.signBytes.value, bytes, now)
          case OnlyTime(time) => Signed(Attach(m, time, lss.signature.value))
          case Conflict => Refused
          case DecodePanic => Panicked
  }

  /** Whether the private key is used, so that the sign state is overwritten and saved. */
  predicate SignsFresh(lss: LastSignState, chain: string, m: Message, key: Option<Bytes>) {
    var step := StepOf(Canonicalize(chain, m));
    step.Some? && key.Some? && CheckHRS(lss, m.height, m.round, step.value) == Fresh
  }

  function AfterSigning(c: Codec, lss: LastSignState, chain: string, m: Message, key: Option<Bytes>): LastSignState {
    if SignsFresh(lss, chain, m, key) then
      LastSignState(m.height, m.round, StepOf(Canonicalize(chain, m)).value, key, Some(SignBytes(c, chain, m)))
    else lss
  }

  /** The signer object: the state in memory and the file it is saved to. */
  class FilePV {
    var lastSignState: LastSignState
    var file: LastSignState

    constructor ()
      ensures lastSignState == UNSIGNED && file == UNSIGNED
    {
      lastSignState := UNSIGNED;
      file := UNSIGNED;
    }

    /** A restart: only what is on disk survives. */
    method Load()
      modifies this
      ensures lastSignState == file == old(file)
    {
      lastSignState := file;
    }

    method SaveSigned(height: int, round: int, step: nat, bytes: Bytes, sig: Bytes)
      modifies this
      ensures forall h: int, r: int, s: nat :: CheckHRS(file, h, r, s).Fresh? <==>
                h > height || (h == height && (r > round || (r == round && s > step)))
      ensures CheckHRS(file, height, round, step).Same? <==> sig != [] && bytes != []
      ensures file == lastSignState <==> sig != [] && bytes != []
      ensures lastSignState == LastSignState(height, round, step, Some(sig), Some(bytes))
      ensures file == Stored(lastSignState)
    {
      lastSignState := LastSignState(height, round, step, Some(sig), Some(bytes));
      file := Stored(lastSignState);
    }

    method SignVote(c: Codec, chain: string, vote: Message, key: Option<Bytes>, now: int) returns (out: Outcome)
      requires vote.Vote?
      modifies this
      ensures Known(Released(chain, vote)) && Before(StateHRS(old(lastSignState)), RequestHRS(chain, vote)) ==>
                out == if key.Some? then Signed(WithSignature(vote, key.value)) else Refused
      ensures out == Decide(c, old(lastSignState), chain, vote, key, now)
      ensures lastSignState == AfterSigning(c, old(lastSignState), chain, vote, key)
      ensures file == if SignsFresh(old(lastSignState), chain, vote, key) then Stored(lastSignState) else old(file)
    {
      var step;
      if vote.kind == PREVOTE_TYPE {
        step := STEP_PREVOTE;
      } else if vote.kind == PRECOMMIT_TYPE {
        step := STEP_PRECOMMIT;
      } else {
        return Panicked;
      }
      var lss := lastSignState;
      var check := CheckHRS(lss, vote.height, vote.round, step);
      if check.Regression? || check.NoSignBytes? {
        return Refused;
      }
      if check.NilSignature? {
        return Panicked;
      }
      var bytes := SignBytes(c, chain, vote);
      if check.Same? {
        if bytes == lss.signBytes.value {
          return Signed(Attach(vote, vote.time, lss.signature.value));
        }
        var differ := VotesOnlyDifferByTimestamp(c, lss.signBytes.value, bytes, now);
        return match differ
          case OnlyTime(time) => Signed(Attach(vote, time, lss.signature.value))
          case Conflict => Refused
          case DecodePanic => Panicked;
      }
      if key.None? {
        return Refused;
      }
      SaveSigned(vote.height, vote.round, step, bytes, key.value);
      return Signed(Attach(vote, vote.time, key.value));
    }

    method SignProposal(c: Codec, chain: string, proposal: Message, key: Option<Bytes>, now: int) returns (out: Outcome)
      requires proposal.Proposal?
      modifies this
      ensures Known(Released(chain, proposal)) && Before(StateHRS(old(lastSignState)), RequestHRS(chain, proposal)) ==>
                out == if key.Some? then Signed(WithSignature(proposal, key.value)) else Refused
      ensures out == Decide(c, old(lastSignState), chain, proposal, key, now)
      ensures lastSignState == AfterSigning(c, old(lastSignState), chain, proposal, key)
      ensures file == if SignsFresh(old(lastSignState), chain, proposal, key) then Stored(lastSignState) else old(file)
    {
      var lss := lastSignState;
      var check := CheckHRS(lss, proposal.height, proposal.round, STEP_PROPOSE);
      if check.Regression? || check.NoSignBytes? {
        return Refused;
      }
      if check.NilSignature? {
        return Panicked;
      }
      var bytes := SignBytes(c, chain, proposal);
      if check.Same? {
        if bytes == lss.signBytes.value {
          return Signed(Attach(proposal, proposal.time, lss.signature.value));
        }
        var differ := ProposalsOnlyDifferByTimestamp(c, lss.signBytes.value, bytes, now);
        return match differ
          case OnlyTime(time) => Signed(Attach(proposal, time, lss.signature.value))
          case Conflict => Refused
          case DecodePanic => Panicked;
      }
      if key.None? {
        return Refused;
      }
      SaveSigned(proposal.height, proposal.round, STEP_PROPOSE, bytes, key.value);
      return Signed(Attach(proposal, proposal.time, key.value));
    }
  }

  // ----- runs with crashes -----------------------------------------------------------------------

  /** Where a crash may fall inside a request: before the state file is replaced, after it but
      before the signed message is handed out, or not at all. */
  datatype Crash = NoCrash | BeforeSave | AfterSave

  datatype Event =
    | Request(chain: string, message: Message, key: Option<Bytes>, now: int, crash: Crash)
    | Restart

  datatype Released = Released(chain: string, message: Message)

  /** The signer, every (bytes, signature) pair the private key ever produced, and every message
      handed out signed, in order. */
  datatype World = World(
    memory: LastSignState,
    file: LastSignState,
    produced: seq<(Bytes, Bytes)>,
    released: seq<Released>,
    panicked: bool)

  const START := World(UNSIGNED, UNSIGNED, [], [], false)

  /** A signature the key returns is never empty. */
  predicate Legal(e: Event) {
    e.Request? ==> e.key != Some([])
  }

  function Reload(w: World): World {
    w.(memory := w.file)
  }

  function Produce(c: Codec, w: World, e: Event): World
    requires e.Request?
  {
    if SignsFresh(w.memory, e.chain, e.message, e.key) then
      w.(produced := w.produced + [(SignBytes(c, e.chain, e.message), e.key.value)])
    else w
  }

  function Store(c: Codec, w: World, e: Event): World
    requires e.Request?
  {
    if SignsFresh(w.memory, e.chain, e.message, e.key) then
      var lss := AfterSigning(c, w.memory, e.chain, e.message, e.key);
      w.(memory := lss, file := Stored(lss))
    else w
  }

  function Next(c: Codec, w: World, e: Event): World {
    match e
    case Restart => Reload(w)
    case Request(chain, m, key, now, crash) =>
      var out := Decide(c, w.memory, chain, m, key, now);
      var w1 := Produce(c, w, e);
      if out.Panicked? then Reload(w1).(panicked := w.panicked || StepOf(Canonicalize(chain, m)).Some?)
      else if crash.BeforeSave? then Reload(w1)
      else
        var w2 := Store(c, w1, e);
        if crash.AfterSave? then Reload(w2)
        else if out.Signed? then w2.(released := w2.released + [Released(chain, out.message)])
        else w2
  }

  function Run(c: Codec, events: seq<Event>): World {
    if events == [] then START
    else Next(c, Run(c, events[..|events| - 1]), events[|events| - 1])
  }

  // ----- the invariant ---------------------------------------------------------------------------

  datatype HRS = HRS(height: int, round: int, step: nat)

  predicate Before(a: HRS, b: HRS) {
    a.height < b.height || (a.height == b.height && (a.round < b.round || (a.round == b.round && a.step < b.step)))
  }

  function StateHRS(lss: LastSignState): HRS {
    HRS(lss.height, lss.round, lss.step)
  }

  predicate Known(r: Released) {
    StepOf(Canonicalize(r.chain, r.message)).Some?
  }

  function ReleasedHRS(r: Released): HRS
    requires Known(r)
  {
    HRS(r.message.height, r.message.round, StepOf(Canonicalize(r.chain, r.message)).value)
  }

  function ReleasedPair(c: Codec, r: Released): (Bytes, Bytes) {
    (SignBytes(c, r.chain, r.message), r.message.signature)
  }

  /** The stored bytes encode a message signed for exactly the stored height, round and step. */
  ghost predicate Covers(c: Codec, lss: LastSignState, m: Canonical) {
    && StepOf(m) == Some(lss.step) && m.height == lss.height && m.round == lss.round
    && lss.signBytes == Some(c.encode(m))
    && lss.signature.Some? && lss.signature.value != []
  }

  ghost predicate Backed(c: Codec, lss: LastSignState) {
    lss == UNSIGNED || exists m: Canonical :: Covers(c, lss, m)
  }

  /** At most the current state, and the very pair stored there when at it. */
  ghost predicate AgreesWith(c: Codec, r: Released, lss: LastSignState) {
    && Known(r)
    && (Before(ReleasedHRS(r), StateHRS(lss))
        || (ReleasedHRS(r) == StateHRS(lss) && lss.signBytes == Some(ReleasedPair(c, r).0)
            && lss.signature == Some(ReleasedPair(c, r).1)))
  }

  ghost predicate Inv(c: Codec, w: World) {
    && w.memory == w.file && Backed(c, w.memory) && !w.panicked
    && (w.memory != UNSIGNED ==> (w.memory.signBytes.value, w.memory.signature.value) in w.produced)
    && (forall i :: 0 <= i < |w.released| ==> AgreesWith(c, w.released[i], w.memory))
    && (forall i :: 0 <= i < |w.released| ==> ReleasedPair(c, w.released[i]) in w.produced)
    && (forall i, j :: 0 <= i < j < |w.released| ==> Ordered(c, w.released[i], w.released[j]))
  }

  /** Later releases are for a later height, round and step, or repeat the same pair. */
  ghost predicate Ordered(c: Codec, r: Released, s: Released) {
    && Known(r) && Known(s)
    && (Before(ReleasedHRS(r), ReleasedHRS(s))
        || (ReleasedHRS(r) == ReleasedHRS(s) && ReleasedPair(c, r) == ReleasedPair(c, s)))
  }

  /** The timestamp patch restores the bytes that were signed, and is offered exactly when nothing
      but the timestamp differs; neither decoder can fail. */
  lemma PatchRestoresBytes(c: Codec, last: Canonical, chain: string, m: Message, now: int)
    requires Lawful(c)
    requires last.CanonicalVote? <==> m.Vote?
    ensures var n := Canonicalize(chain, m);
            var differ := OnlyDiffer(c, m, c.encode(last), c.encode(n), now);
            && !differ.DecodePanic?
            && (differ.OnlyTime? <==> last.(time := 0) == n.(time := 0))
            && (differ.OnlyTime? ==> SignBytes(c, chain, m.(time := differ.time)) == c.encode(last))
  {
    var n := Canonicalize(chain, m);
    var a, b := last.(time := now), n.(time := now);
    assert a == b <==> last.(time := 0) == n.(time := 0);
    if m.Proposal? {
      assert c.decodeProposal(c.encode(a)) == Some(a) && c.decodeProposal(c.encode(b)) == Some(b);
    }
    assert a == b ==> last == n.(time := last.time);
  }

  /** One request against a backed state: no panic for a known message type, and what is signed
      carries the bytes and signature the state then holds. */
  lemma DecideIsSafe(c: Codec, lss: LastSignState, chain: string, m: Message, key: Option<Bytes>, now: int)
    requires Lawful(c) && Backed(c, lss) && key != Some([])
    ensures var out := Decide(c, lss, chain, m, key, now);
            var lss' := AfterSigning(c, lss, chain, m, key);
            && Backed(c, lss') && Stored(lss') == lss'
            && (out.Panicked? <==> StepOf(Canonicalize(chain, m)).None?)
            && (out.Signed? ==> AgreesWith(c, Released(chain, out.message), lss')
                                && ReleasedHRS(Released(chain, out.message)) == StateHRS(lss'))
            && (lss' != lss ==> Before(StateHRS(lss), StateHRS(lss')))
  {
    var lss' := AfterSigning(c, lss, chain, m, key);
    var n := Canonicalize(chain, m);
    if SignsFresh(lss, chain, m, key) {
      assert Covers(c, lss', n);
    } else if StepOf(n).Some? && CheckHRS(lss, m.height, m.round, StepOf(n).value).Same? {
      var last: Canonical :| Covers(c, lss, last);
      PatchRestoresBytes(c, last, chain, m, now);
    }
  }

  /** The message at the state's own height, round and step is the stored one up to its time. */
  ghost predicate Repeats(c: Codec, lss: LastSignState, chain: string, m: Message) {
    exists last: Canonical :: Covers(c, lss, last) && last.(time := 0) == Canonicalize(chain, m).(time := 0)
  }

  function RequestHRS(chain: string, m: Message): HRS
    requires StepOf(Canonicalize(chain, m)).Some?
  {
    HRS(m.height, m.round, StepOf(Canonicalize(chain, m)).value)
  }

  /** Against a backed state a message of known type is signed exactly when it is for a later height,
      round and step and the key signs, or repeats the stored one; in the first case it is the message
      asked for with the key's signature, which the state then holds, and in the second the stored
      message with its time and signature, the state unchanged. Otherwise it is refused and nothing
      changes. */
  lemma SignedExactlyWhen(c: Codec, lss: LastSignState, chain: string, m: Message, key: Option<Bytes>, now: int)
    requires Lawful(c) && Backed(c, lss) && StepOf(Canonicalize(chain, m)).Some?
    ensures var out, lss' := Decide(c, lss, chain, m, key, now), AfterSigning(c, lss, chain, m, key);
            var asked := RequestHRS(chain, m);
            && (out.Signed? <==> (Before(StateHRS(lss), asked) && key.Some?) || (asked == StateHRS(lss) && Repeats(c, lss, chain, m)))
            && (!out.Signed? ==> out == Refused && lss' == lss)
            && (Before(StateHRS(lss), asked) && key.Some? ==>
                  && out == Signed(m.(signature := key.value))
                  && StateHRS(lss') == asked && lss'.signature == key && lss'.signBytes == Some(SignBytes(c, chain, m)))
            && (asked == StateHRS(lss) ==> lss' == lss)
            && (asked == StateHRS(lss) && out.Signed? ==>
                  && lss.signature.Some? && out.message == m.(time := out.message.time, signature := lss.signature.value)
                  && lss.signBytes == Some(SignBytes(c, chain, out.message)))
  {
    var n := Canonicalize(chain, m);
    var asked := RequestHRS(chain, m);
    if asked == StateHRS(lss) {
      var last: Canonical :| Covers(c, lss, last);
      PatchRestoresBytes(c, last, chain, m, now);
      if Repeats(c, lss, chain, m) {
        var other: Canonical :| Covers(c, lss, other) && other.(time := 0) == n.(time := 0);
        SameEncoding(c, last, other);
      }
      if SignBytes(c, chain, m) == lss.signBytes.value {
        SameEncoding(c, last, n);
      }
    }
  }

  lemma SameEncoding(c: Codec, a: Canonical, b: Canonical)
    requires Lawful(c) && c.encode(a) == c.encode(b) && (a.CanonicalVote? <==> b.CanonicalVote?)
    ensures a == b
  {
    if a.CanonicalVote? {
      assert c.decodeVote(c.encode(a)) == Some(a) && c.decodeVote(c.encode(b)) == Some(b);
    } else {
      assert c.decodeProposal(c.encode(a)) == Some(a) && c.decodeProposal(c.encode(b)) == Some(b);
    }
  }

  lemma StoreKeepsInv(c: Codec, w: World, e: Event)
    requires Lawful(c) && Legal(e) && Inv(c, w) && e.Request?
    ensures Inv(c, Produce(c, w, e)) && Inv(c, Store(c, Produce(c, w, e), e))
  {
    hide Decide, Covers, Backed, Lawful, Canonicalize, StepOf, SignBytes, CheckHRS, Stored;
    DecideIsSafe(c, w.memory, e.chain, e.message, e.key, e.now);
  }

  lemma ReleaseKeepsInv(c: Codec, w: World, r: Released)
    requires Inv(c, w) && AgreesWith(c, r, w.memory) && ReleasedHRS(r) == StateHRS(w.memory)
    requires w.memory != UNSIGNED
    ensures Inv(c, w.(released := w.released + [r]))
  {
    hide Backed, Canonicalize, StepOf, SignBytes;
  }

  lemma NextKeepsInv(c: Codec, w: World, e: Event)
    requires Lawful(c) && Legal(e) && Inv(c, w)
    ensures Inv(c, Next(c, w, e))
    ensures w.released <= Next(c, w, e).released && |Next(c, w, e).released| <= |w.released| + 1
  {
    hide Decide, Covers, Backed, Lawful, Canonicalize, SignBytes, CheckHRS, Stored, Ordered, Before;
    if e.Request? {
      StoreKeepsInv(c, w, e);
      DecideIsSafe(c, w.memory, e.chain, e.message, e.key, e.now);
      var out := Decide(c, w.memory, e.chain, e.message, e.key, e.now);
      if out.Signed? {
        ReleaseKeepsInv(c, Store(c, Produce(c, w, e), e), Released(e.chain, out.message));
      }
    }
  }

  lemma {:induction false} RunKeepsInv(c: Codec, events: seq<Event>)
    requires Lawful(c) && forall i :: 0 <= i < |events| ==> Legal(events[i])
    ensures Inv(c, Run(c, events))
  {
    if events != [] {
      RunKeepsInv(c, events[..|events| - 1]);
      NextKeepsInv(c, Run(c, events[..|events| - 1]), events[|events| - 1]);
    }
  }

  // ----- what the signer promises ----------------------------------------------------------------

  /** No double signing: over every sequence of requests, crashes and restarts, any two messages
      released for one height, round and step carry one signature over one byte string, and that
      signature was produced by the key over exactly those bytes. */
  lemma NoDoubleSigning(c: Codec, events: seq<Event>, i: nat, j: nat)
    requires Lawful(c) && forall k :: 0 <= k < |events| ==> Legal(events[k])
    requires i < |Run(c, events).released| && j < |Run(c, events).released|
    ensures var r, s := Run(c, events).released[i], Run(c, events).released[j];
            && Known(r) && Known(s)
            && (ReleasedHRS(r) == ReleasedHRS(s) ==> ReleasedPair(c, r) == ReleasedPair(c, s))
            && ReleasedPair(c, r) in Run(c, events).produced
            && (i <= j ==> !Before(ReleasedHRS(s), ReleasedHRS(r)))
  {
    hide Run, Backed, StepOf, Canonicalize, SignBytes;
    RunKeepsInv(c, events);
    var w := Run(c, events);
    if i < j {
      assert Ordered(c, w.released[i], w.released[j]);
    } else if j < i {
      assert Ordered(c, w.released[j], w.released[i]);
    }
  }

  /** The decode and nil-signature panics are never reached. */
  lemma PanicsUnreachable(c: Codec, events: seq<Event>)
    requires Lawful(c) && forall k :: 0 <= k < |events| ==> Legal(events[k])
    ensures !Run(c, events).panicked
  {
    RunKeepsInv(c, events);
  }

  /** A crash after saving loses nothing: asking again for the same message, at any later clock
      reading and with any timestamp, releases the message signed before the crash. */
  lemma CrashThenResign(c: Codec, w: World, e: Event, time: int, again: Event)
    requires Lawful(c) && Inv(c, w) && e.Request? && Legal(e) && e.crash.AfterSave?
    requires SignsFresh(w.memory, e.chain, e.message, e.key)
    requires again.Request? && again.chain == e.chain && again.message == e.message.(time := time) && again.crash.NoCrash?
    ensures var w' := Next(c, Next(c, w, e), again);
            w'.released == w.released + [Released(e.chain, e.message.(signature := e.key.value))]
            && w'.produced == w.produced + [(SignBytes(c, e.chain, e.message), e.key.value)]
  {
    var w1 := Next(c, w, e);
    PatchRestoresBytes(c, Canonicalize(e.chain, e.message), e.chain, again.message, again.now);
    var lss := w1.memory;
    assert CheckHRS(lss, e.message.height, e.message.round, lss.step).Same?;
    if SignBytes(c, e.chain, again.message) == SignBytes(c, e.chain, e.message) {
      SameBytesSameTime(c, e.chain, e.message, again.message);
    }
  }

  /** Over every sequence of requests, crashes and restarts: a request that does not crash, for a later
      height, round and step than the file holds, and whose key signs, releases exactly one more message,
      the one asked for with the key's signature, and the file then holds it. A request that is refused
      releases nothing and changes nothing. */
  lemma FreshRequestReleases(c: Codec, events: seq<Event>, e: Event)
    requires Lawful(c) && (forall k :: 0 <= k < |events| ==> Legal(events[k])) && Legal(e)
    requires e.Request? && e.crash.NoCrash? && StepOf(Canonicalize(e.chain, e.message)).Some?
    ensures var w, w' := Run(c, events), Next(c, Run(c, events), e);
            var asked := RequestHRS(e.chain, e.message);
            && (Before(StateHRS(w.file), asked) && e.key.Some? ==>
                  && w'.released == w.released + [Released(e.chain, e.message.(signature := e.key.value))]
                  && w'.produced == w.produced + [(SignBytes(c, e.chain, e.message), e.key.value)]
                  && StateHRS(w'.file) == asked && w'.file.signature == e.key)
            && (!(Before(StateHRS(w.file), asked) && e.key.Some?) && !(asked == StateHRS(w.file) && Repeats(c, w.file, e.chain, e.message)) ==>
                  w' == w)
  {
    hide Run, Decide, AfterSigning;
    RunKeepsInv(c, events);
    var w := Run(c, events);
    SignedExactlyWhen(c, w.memory, e.chain, e.message, e.key, e.now);
    DecideIsSafe(c, w.memory, e.chain, e.message, e.key, e.now);
    KeyUsedExactlyWhen(w.memory, e.chain, e.message, e.key);
  }

  lemma KeyUsedExactlyWhen(lss: LastSignState, chain: string, m: Message, key: Option<Bytes>)
    requires StepOf(Canonicalize(chain, m)).Some?
    ensures SignsFresh(lss, chain, m, key) <==> Before(StateHRS(lss), RequestHRS(chain, m)) && key.Some?
  {
  }

  lemma SameBytesSameTime(c: Codec, chain: string, m: Message, n: Message)
    requires Lawful(c) && (m.Vote? <==> n.Vote?) && SignBytes(c, chain, m) == SignBytes(c, chain, n)
    ensures Canonicalize(chain, m) == Canonicalize(chain, n)
  {
    SameEncoding(c, Canonicalize(chain, m), Canonicalize(chain, n));
  }

  /** The object and the run model agree: a request that does not crash does to the object what
      the step does to memory and file. */
  lemma ObjectMatchesRun(c: Codec, w: World, e: Event)
    requires Lawful(c) && Inv(c, w) && e.Request? && Legal(e) && e.crash.NoCrash?
    ensures Next(c, w, e).memory == AfterSigning(c, w.memory, e.chain, e.message, e.key)
    ensures Next(c, w, e).file == Next(c, w, e).memory
  {
    NextKeepsInv(c, w, e);
    DecideIsSafe(c, w.memory, e.chain, e.message, e.key, e.now);
  }
}
