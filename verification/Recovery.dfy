/** Crash recovery: the order of durable writes when a block is finalized, and the handshake that
    brings the application, the state and the block store back together.

    Every routine is a sequence of durable writes; a crash keeps a prefix of it. The application
    is a deterministic function of the blocks committed to it, and executing a block that is then
    not committed leaves no trace in it. */
module Recovery {
  import opened Options
  import opened ChainState

  // ----- durable state and writes ----------------------------------------------------------------

  /** `store[i]` is the block at height i + 1; `app` lists the blocks committed to the application. */
  datatype Disk = Disk(store: seq<Block>, responses: map<nat, Responses>, state: State, app: seq<Block>)

  datatype Write =
    | PutBlock(block: Block)
    | PutResponses(height: nat, responses: Responses)
    | AppCommit(block: Block)
    | PutState(state: State)

  function Apply1(d: Disk, w: Write): Disk {
    match w
    case PutBlock(b) => d.(store := d.store + [b])
    case PutResponses(h, r) => d.(responses := d.responses[h := r])
    case AppCommit(b) => d.(app := d.app + [b])
    case PutState(s) => d.(state := s)
  }

  function Apply(d: Disk, ws: seq<Write>): Disk {
    if ws == [] then d else Apply1(Apply(d, ws[..|ws| - 1]), ws[|ws| - 1])
  }

  /** The blocks a sequence of writes commits to the real application, in order. */
  function Commits(ws: seq<Write>): seq<Block> {
    if ws == [] then []
    else Commits(ws[..|ws| - 1]) + (if ws[|ws| - 1].AppCommit? then [ws[|ws| - 1].block] else [])
  }

  lemma {:induction false} ApplyAppend(d: Disk, a: seq<Write>, b: seq<Write>)
    ensures Apply(d, a + b) == Apply(Apply(d, a), b)
    ensures Commits(a + b) == Commits(a) + Commits(b)
  {
    if b == [] {
      assert a + b == a;
    } else {
      ApplyAppend(d, a, b[..|b| - 1]);
      assert (a + b)[..|a + b| - 1] == a + b[..|b| - 1];
    }
  }

  // ----- the application -------------------------------------------------------------------------

  datatype Application = Application(
    execute: (seq<Block>, Block) -> Responses,
    hash: seq<Block> -> Hash,
    initValidators: Option<ValidatorSet>,
    initParams: Option<ParamUpdates>)

  datatype Node = Node(rules: Rules, app: Application, genesisHasValidators: bool)

  /** Where a block runs: the application, or the stand-in that repeats saved responses. */
  datatype Conn = Real | Mock(hash: Hash, saved: Responses)

  /** The stand-in answers BeginBlock with an empty response. */
  const EMPTY_BEGIN := 0

  datatype Result<+T> = Ok(value: T) | Error | Panic

  datatype Outcome<+T> = Outcome(writes: seq<Write>, result: Result<T>)

  function Execute(n: Node, conn: Conn, app: seq<Block>, b: Block): Option<Responses> {
    match conn
    case Real => Some(n.app.execute(app, b))
    case Mock(_, saved) =>
      if |saved.deliver| < |b.txs| then None
      else Some(Responses(EMPTY_BEGIN, saved.deliver[..|b.txs|], saved.end))
  }

  function ApplyBlock(n: Node, app: seq<Block>, s: State, b: Block, conn: Conn): Outcome<State> {
    if !n.rules.accepts(Core(s), b) then Outcome([], Error)
    else
      var res := Execute(n, conn, app, b);
      if res.None? then Outcome([], Panic)
      else
        var saved := [PutResponses(b.height, res.value)];
        if !UpdatesAllowed(res.value.end.validatorUpdates, s.params) then Outcome(saved, Error)
        else
          var s' := UpdateState(n.rules, s, b, res.value);
          if s'.None? then Outcome(saved, Error)
          else if conn.Real? then
            var done := s'.value.(appHash := n.app.hash(app + [b]));
            Outcome(saved + [AppCommit(b)] + [PutState(done)], Ok(done))
          else
            var done := s'.value.(appHash := conn.hash);
            Outcome(saved + [PutState(done)], Ok(done))
  }

  /** Finalizing a decided block: store it unless an interrupted run already did, then apply it. */
  function FinalizeCommit(n: Node, d: Disk, b: Block, signature: Option<Hash>): Outcome<State> {
    var stored := if |d.store| < b.height then [PutBlock(b)] else [];
    var out := ApplyBlock(n, d.app, d.state.(hashSignature := signature), b, Real);
    Outcome(stored + out.writes, out.result)
  }

  // ----- the handshake ---------------------------------------------------------------------------

  /** InitChain's answer, taken into a state still at genesis. */
  function TakeInit(n: Node, s: State): State {
    var s1 := if n.app.initValidators.Some?
              then s.(validators := n.app.initValidators.value, nextValidators := n.app.initValidators.value)
              else s;
    if n.app.initParams.Some? then s1.(params := UpdateParams(s1.params, n.app.initParams.value)) else s1
  }

  function InitChain(n: Node, d: Disk): Outcome<State> {
    if d.app != [] || d.state.height != 0 then Outcome([], Ok(d.state))
    else if n.app.initValidators.None? && !n.genesisHasValidators then Outcome([], Error)
    else Outcome([PutState(TakeInit(n, d.state))], Ok(TakeInit(n, d.state)))
  }

  function CommitAll(blocks: seq<Block>): seq<Write> {
    if blocks == [] then [] else CommitAll(blocks[..|blocks| - 1]) + [AppCommit(blocks[|blocks| - 1])]
  }

  function CheckAppHash(s: State, hash: Hash): Result<Hash> {
    if s.appHash == hash then Ok(hash) else Panic
  }

  function Map(r: Result<State>): Result<Hash> {
    match r
    case Ok(s) => Ok(s.appHash)
    case Error => Error
    case Panic => Panic
  }

  /** Blocks above the application, run without touching the state; the last one through
      `ApplyBlock` when `mutate` is set. */
  function ReplayRange(n: Node, d: Disk, s: State, mutate: bool): Outcome<Hash>
    requires |d.app| < |d.store| - (if mutate then 1 else 0)
  {
    var last := if mutate then |d.store| - 1 else |d.store|;
    var ws := CommitAll(d.store[|d.app|..last]);
    var app := d.app + d.store[|d.app|..last];
    if !mutate then
      Outcome(ws, CheckAppHash(s, n.app.hash(app)))
    else
      var out := ApplyBlock(n, app, s, d.store[last], Real);
      Outcome(ws + out.writes, Map(out.result))
  }

  /** The case split on the three heights, from the state `s` the initialization left. */
  function AfterInit(n: Node, d: Disk, s: State, stateHeight: nat): Outcome<Hash> {
    var hash := n.app.hash(d.app);
    var appHeight, storeHeight := |d.app|, |d.store|;
    if storeHeight == 0 then Outcome([], CheckAppHash(s, hash))
    else if storeHeight < appHeight then Outcome([], Error)
    else if storeHeight == stateHeight then
      if appHeight < storeHeight then ReplayRange(n, d, s, false)
      else Outcome([], CheckAppHash(s, hash))
    else if storeHeight == stateHeight + 1 then
      if appHeight < stateHeight then ReplayRange(n, d, s, true)
      else if appHeight == stateHeight then
        var out := ApplyBlock(n, d.app, s, d.store[storeHeight - 1], Real);
        Outcome(out.writes, Map(out.result))
      else if storeHeight !in d.responses then Outcome([], Error)
      else
        var out := ApplyBlock(n, d.app, s, d.store[storeHeight - 1], Mock(hash, d.responses[storeHeight]));
        Outcome(out.writes, Map(out.result))
    else Outcome([], Ok(hash))
  }

  /** The whole handshake. The application reports the height and hash of what it has committed. */
  function ReplayBlocks(n: Node, d: Disk): Outcome<Hash> {
    var init := InitChain(n, d);
    if !init.result.Ok? then Outcome(init.writes, Error)
    else
      var out := AfterInit(n, d, init.result.value, d.state.height);
      Outcome(init.writes + out.writes, out.result)
  }

  lemma ApplyNothing(d: Disk)
    ensures Apply(d, []) == d
  {
  }

  lemma ApplyOne(d: Disk, w: Write)
    ensures Apply(d, [w]) == Apply1(d, w)
  {
    assert [w][..0] == [];
  }

  lemma {:induction false} CommitAllApplied(d: Disk, blocks: seq<Block>)
    ensures Apply(d, CommitAll(blocks)) == d.(app := d.app + blocks)
    ensures |CommitAll(blocks)| == |blocks| && Commits(CommitAll(blocks)) == blocks
  {
    if blocks == [] {
      assert d.app + blocks == d.app;
    } else {
      var k := |blocks| - 1;
      CommitAllApplied(d, blocks[..k]);
      ApplyAppend(d, CommitAll(blocks[..k]), [AppCommit(blocks[k])]);
      ApplyOne(d.(app := d.app + blocks[..k]), AppCommit(blocks[k]));
      assert blocks == blocks[..k] + [blocks[k]];
      assert [AppCommit(blocks[k])][..0] == [];
    }
  }

  lemma CommitAllStart(d: Disk, first: nat)
    requires first <= |d.store|
    ensures CommitAll(d.store[first..first]) == [] && d.app + d.store[first..first] == d.app
  {
  }

  lemma CommitAllStep(d: Disk, first: nat, i: nat)
    requires first <= i < |d.store|
    ensures CommitAll(d.store[first..i + 1]) == CommitAll(d.store[first..i]) + [AppCommit(d.store[i])]
    ensures d.app + d.store[first..i + 1] == d.app + d.store[first..i] + [d.store[i]]
  {
    assert d.store[first..i + 1] == d.store[first..i] + [d.store[i]];
  }

  lemma InitKeepsRest(n: Node, d: Disk)
    ensures var d1 := Apply(d, InitChain(n, d).writes);
            d1 == d.(state := d1.state) && (InitChain(n, d).result.Ok? ==> d1.state == InitChain(n, d).result.value)
  {
    ApplyNothing(d);
    ApplyOne(d, PutState(TakeInit(n, d.state)));
  }

  /** The rest of the handshake looks at the disk's state only through `s`. */
  lemma AfterInitReads(n: Node, d: Disk, e: Disk, s: State, stateHeight: nat)
    requires e == d.(state := e.state)
    ensures AfterInit(n, e, s, stateHeight) == AfterInit(n, d, s, stateHeight)
  {
  }

  // ----- the objects that carry it out -----------------------------------------------------------

  /** The node's storage and application as the handshake and the block executor change them. */
  class NodeStorage {
    const node: Node
    var disk: Disk
    var nBlocks: nat
    ghost var trace: seq<Write>

    constructor (node: Node, disk: Disk)
      ensures this.node == node && this.disk == disk && nBlocks == 0 && trace == []
    {
      this.node := node;
      this.disk := disk;
      nBlocks := 0;
      trace := [];
    }

    method Put(w: Write)
      modifies this`disk, this`trace
      ensures trace == old(trace) + [w] && disk == Apply(old(disk), [w])
    {
      match w {
        case PutBlock(b) => disk := disk.(store := disk.store + [b]);
        case PutResponses(h, r) => disk := disk.(responses := disk.responses[h := r]);
        case AppCommit(b) => disk := disk.(app := disk.app + [b]);
        case PutState(s) => disk := disk.(state := s);
      }
      trace := trace + [w];
      assert [w][..0] == [];
    }

    method DoApplyBlock(s: State, b: Block, conn: Conn) returns (r: Result<State>)
      modifies this`disk, this`trace
      ensures r.Ok? ==> && disk.state == r.value && r.value.height == b.height && r.value.lastBlock == Some(b.id)
                        && r.value.lastTime == b.time && r.value.totalTxs == s.totalTxs + |b.txs|
                        && r.value.validators == s.nextValidators && r.value.lastValidators == Some(s.validators)
                        && disk.app == old(disk.app) + (if conn.Real? then [b] else [])
                        && r.value.appHash == (if conn.Real? then node.app.hash(disk.app) else conn.hash)
      ensures var out := ApplyBlock(node, old(disk.app), s, b, conn);
              r == out.result && trace == old(trace) + out.writes && disk == Apply(old(disk), out.writes)
    {
      ghost var d := disk;
      if !node.rules.accepts(Core(s), b) {
        return Error;
      }
      var res := Execute(node, conn, disk.app, b);
      if res.None? {
        return Panic;
      }
      Put(PutResponses(b.height, res.value));
      if !UpdatesAllowed(res.value.end.validatorUpdates, s.params) {
        return Error;
      }
      var s' := UpdateState(node.rules, s, b, res.value);
      if s'.None? {
        return Error;
      }
      ghost var ws := [PutResponses(b.height, res.value)];
      var hash;
      if conn.Real? {
        Put(AppCommit(b));
        hash := node.app.hash(disk.app);
        ApplyAppend(d, ws, [AppCommit(b)]);
        ws := ws + [AppCommit(b)];
      } else {
        hash := conn.hash;
      }
      var done := s'.value.(appHash := hash);
      Put(PutState(done));
      ApplyAppend(d, ws, [PutState(done)]);
      return Ok(done);
    }

    method DoFinalizeCommit(b: Block, signature: Option<Hash>) returns (r: Result<State>)
      modifies this`disk, this`trace
      ensures var out := FinalizeCommit(node, old(disk), b, signature);
              r == out.result && trace == old(trace) + out.writes && disk == Apply(old(disk), out.writes)
    {
      hide ApplyBlock, Apply;
      ghost var d := disk;
      ghost var stored := if |disk.store| < b.height then [PutBlock(b)] else [];
      ApplyNothing(d);
      ApplyOne(d, PutBlock(b));
      if |disk.store| < b.height {
        Put(PutBlock(b));
      }
      var s := disk.state.(hashSignature := signature);
      ApplyAppend(d, stored, ApplyBlock(node, disk.app, s, b, Real).writes);
      r := DoApplyBlock(s, b, Real);
    }

    method DoReplayBlock(s: State, height: nat, conn: Conn) returns (r: Result<State>)
      requires 1 <= height <= |disk.store|
      modifies this
      ensures var out := ApplyBlock(node, old(disk.app), s, old(disk.store)[height - 1], conn);
              r == out.result && trace == old(trace) + out.writes && disk == Apply(old(disk), out.writes)
              && nBlocks == old(nBlocks) + (if r.Ok? then 1 else 0)
    {
      r := DoApplyBlock(s, disk.store[height - 1], conn);
      if r.Ok? {
        nBlocks := nBlocks + 1;
      }
    }

    /** Runs and commits stored blocks on the real application, leaving the state alone. */
    method ExecCommitBlocks(last: nat) returns (hash: Hash)
      requires |disk.app| < last <= |disk.store|
      modifies this
      ensures var missing := old(disk.store)[old(|disk.app|)..last];
              && trace == old(trace) + CommitAll(missing) && disk == Apply(old(disk), CommitAll(missing))
              && disk == old(disk).(app := old(disk.app) + missing)
              && hash == node.app.hash(disk.app) && nBlocks == old(nBlocks) + |missing|
    {
      hide Apply, CommitAll;
      ghost var d := disk;
      CommitAllStart(d, |disk.app|);
      var first := |disk.app|;
      var i := first;
      hash := NO_HASH;
      while i < last
        invariant first <= i <= last
        invariant nBlocks == old(nBlocks) + i - first
        invariant trace == old(trace) + CommitAll(d.store[first..i])
        invariant disk == d.(app := d.app + d.store[first..i])
        invariant i > first ==> hash == node.app.hash(disk.app)
      {
        var b := disk.store[i];
        ghost var before := disk;
        ApplyOne(before, AppCommit(b));
        Put(AppCommit(b));
        hash := node.app.hash(disk.app);
        nBlocks := nBlocks + 1;
        CommitAllStep(d, first, i);
        i := i + 1;
      }
      CommitAllApplied(d, d.store[first..last]);
    }

    method DoReplayRange(s: State, mutate: bool) returns (r: Result<Hash>)
      requires |disk.app| < |disk.store| - (if mutate then 1 else 0)
      modifies this
      ensures var out := ReplayRange(node, old(disk), s, mutate);
              r == out.result && trace == old(trace) + out.writes && disk == Apply(old(disk), out.writes)
    {
      hide Apply, ApplyBlock, CommitAll;
      ghost var d := disk;
      var last := if mutate then |disk.store| - 1 else |disk.store|;
      var hash := ExecCommitBlocks(last);
      if mutate {
        ghost var out := ApplyBlock(node, disk.app, s, disk.store[last], Real);
        ApplyAppend(d, CommitAll(d.store[|d.app|..last]), out.writes);
        var state := DoReplayBlock(s, |disk.store|, Real);
        if !state.Ok? {
          return Map(state);
        }
        hash := state.value.appHash;
        return CheckAppHash(state.value, hash);
      }
      return CheckAppHash(s, hash);
    }

    method DoInitChain() returns (r: Result<State>)
      modifies this`disk, this`trace
      ensures var out := InitChain(node, old(disk));
              r == out.result && trace == old(trace) + out.writes && disk == Apply(old(disk), out.writes)
    {
      var s := disk.state;
      if disk.app == [] && s.height == 0 {
        if node.app.initValidators.Some? {
          var vals := node.app.initValidators.value;
          s := s.(validators := vals, nextValidators := vals);
        } else if !node.genesisHasValidators {
          return Error;
        }
        if node.app.initParams.Some? {
          s := s.(params := UpdateParams(s.params, node.app.initParams.value));
        }
        Put(PutState(s));
      }
      return Ok(s);
    }

    /** The case split on the three heights. */
    method DoAfterInit(s: State, stateHeight: nat) returns (r: Result<Hash>)
      modifies this
      ensures var out := AfterInit(node, old(disk), s, stateHeight);
              r == out.result && trace == old(trace) + out.writes && disk == Apply(old(disk), out.writes)
    {
      hide Apply, ApplyBlock, ReplayRange;
      ApplyNothing(disk);
      var hash := node.app.hash(disk.app);
      var appHeight, storeHeight := |disk.app|, |disk.store|;
      if storeHeight == 0 {
        return CheckAppHash(s, hash);
      } else if storeHeight < appHeight {
        return Error;
      }
      if storeHeight == stateHeight {
        if appHeight < storeHeight {
          r := DoReplayRange(s, false);
        } else {
          r := CheckAppHash(s, hash);
        }
        return;
      } else if storeHeight == stateHeight + 1 {
        if appHeight < stateHeight {
          r := DoReplayRange(s, true);
          return;
        } else if appHeight == stateHeight {
          var state := DoReplayBlock(s, storeHeight, Real);
          return Map(state);
        } else if appHeight == storeHeight {
          if storeHeight !in disk.responses {
            return Error;
          }
          var state := DoReplayBlock(s, storeHeight, Mock(hash, disk.responses[storeHeight]));
          return Map(state);
        }
      }
      return Ok(hash);
    }

    method DoReplayBlocks() returns (r: Result<Hash>)
      modifies this
      ensures var out := ReplayBlocks(node, old(disk));
              r == out.result && trace == old(trace) + out.writes && disk == Apply(old(disk), out.writes)
    {
      hide Apply, AfterInit, InitChain;
      ghost var d := disk;
      var stateHeight := disk.state.height;
      InitKeepsRest(node, d);
      var init := DoInitChain();
      if !init.Ok? {
        return Error;
      }
      ghost var out := AfterInit(node, disk, init.value, stateHeight);
      AfterInitReads(node, d, disk, init.value, stateHeight);
      ApplyAppend(d, InitChain(node, d).writes, out.writes);
      r := DoAfterInit(init.value, stateHeight);
    }
  }
}
