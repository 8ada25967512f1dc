/** A crash between any two durable writes, of normal operation or of the recovery itself, with the
    application rolled back arbitrarily far, is always repaired by the next handshake. */
module RecoverySafety {
  import opened Options
  import opened ChainState
  import opened Recovery

  // ----- the uncrashed run -----------------------------------------------------------------------

  /** The state a node reaches that executes `blocks` from genesis without ever crashing. */
  function Reference(n: Node, g: State, blocks: seq<Block>): Option<State> {
    if blocks == [] then
      if n.app.initValidators.None? && !n.genesisHasValidators then None else Some(TakeInit(n, g))
    else
      var k := |blocks| - 1;
      var before := Reference(n, g, blocks[..k]);
      if before.None? then None
      else
        var out := ApplyBlock(n, blocks[..k], before.value, blocks[k], Real);
        if out.result.Ok? then Some(out.result.value) else None
  }

  ghost predicate Contiguous(blocks: seq<Block>) {
    forall i :: 0 <= i < |blocks| ==> blocks[i].height == i + 1
  }

  /** The genesis document names the hash of the fresh application, and the application answers
      every transaction of a block. */
  ghost predicate Setup(n: Node, g: State) {
    && g.height == 0 && g.appHash == n.app.hash([])
    && (forall app: seq<Block>, b: Block :: |n.app.execute(app, b).deliver| == |b.txs|)
  }

  /** The saved responses are the application's own, up to what BeginBlock answered. */
  predicate SameResults(r: Responses, q: Responses) {
    r.deliver == q.deliver && r.end == q.end
  }

  /** A disk some crash may have left. */
  ghost predicate Consistent(n: Node, g: State, d: Disk) {
    && Contiguous(d.store) && Reference(n, g, d.store).Some?
    && d.app <= d.store
    && d.state.height <= |d.store| <= d.state.height + 1
    && StateMatches(n, g, d)
    && (|d.app| == d.state.height + 1 ==>
          |d.store| in d.responses
          && SameResults(d.responses[|d.store|], n.app.execute(d.store[..d.state.height], d.store[d.state.height])))
  }

  /** The saved state is the uncrashed run's; before the first block it may still lack the
      application's initial validators and parameters. */
  ghost predicate StateMatches(n: Node, g: State, d: Disk)
    requires d.state.height <= |d.store|
  {
    var r := Reference(n, g, d.store[..d.state.height]);
    && r.Some?
    && (Core(d.state) == Core(r.value) || (d.store == [] && Core(d.state) == Core(g)))
  }

  /** Application, state and block store at one height, with the state of the uncrashed run. */
  ghost predicate InSync(n: Node, g: State, d: Disk) {
    && d.app == d.store && d.state.height == |d.store|
    && Reference(n, g, d.store).Some? && Core(d.state) == Core(Reference(n, g, d.store).value)
  }

  // ----- facts about the reference run -----------------------------------------------------------

  /** The attached signature influences nothing but itself. */
  lemma ApplyBlockIgnoresSignature(n: Node, app: seq<Block>, s: State, t: State, b: Block, conn: Conn)
    requires Core(s) == Core(t)
    ensures var x, y := ApplyBlock(n, app, s, b, conn), ApplyBlock(n, app, t, b, conn);
            && (x.result.Ok? <==> y.result.Ok?)
            && (x.result.Ok? ==> Core(x.result.value) == Core(y.result.value))
  {
    assert s == t.(hashSignature := s.hashSignature);
  }

  lemma TakeInitIdempotent(n: Node, s: State)
    ensures TakeInit(n, TakeInit(n, s)) == TakeInit(n, s)
    ensures Core(TakeInit(n, s)) == TakeInit(n, Core(s))
  {
  }

  lemma {:induction false} ReferencePrefix(n: Node, g: State, blocks: seq<Block>, k: nat)
    requires Setup(n, g) && Contiguous(blocks) && Reference(n, g, blocks).Some? && k <= |blocks|
    ensures Reference(n, g, blocks[..k]).Some?
    ensures Reference(n, g, blocks[..k]).value.height == k
    ensures Reference(n, g, blocks[..k]).value.appHash == n.app.hash(blocks[..k])
    decreases |blocks|
  {
    if k < |blocks| {
      var m := |blocks| - 1;
      ReferencePrefix(n, g, blocks[..m], k);
      assert blocks[..m][..k] == blocks[..k];
    } else {
      assert blocks[..k] == blocks;
      if blocks != [] {
        var m := |blocks| - 1;
        ReferencePrefix(n, g, blocks[..m], m);
        assert blocks[..m][..m] == blocks[..m] && blocks[..m] + [blocks[m]] == blocks;
      }
    }
  }

  lemma ReferenceNext(n: Node, g: State, blocks: seq<Block>, k: nat)
    requires Setup(n, g) && Contiguous(blocks) && Reference(n, g, blocks).Some? && k < |blocks|
    ensures Reference(n, g, blocks[..k]).Some? && Reference(n, g, blocks[..k + 1]).Some?
    ensures var out := ApplyBlock(n, blocks[..k], Reference(n, g, blocks[..k]).value, blocks[k], Real);
            out.result == Ok(Reference(n, g, blocks[..k + 1]).value)
  {
    ReferencePrefix(n, g, blocks, k);
    ReferencePrefix(n, g, blocks, k + 1);
    assert blocks[..k + 1][..k] == blocks[..k];
  }

  // ----- what the state says about the chain -----------------------------------------------------

  /** The last value given, or the default if none was. */
  function LastGiven<T>(os: seq<Option<T>>, d: T): T {
    if os == [] then d
    else if os[|os| - 1].Some? then os[|os| - 1].value
    else LastGiven(os[..|os| - 1], d)
  }

  function TxCount(blocks: seq<Block>): nat {
    if blocks == [] then 0 else TxCount(blocks[..|blocks| - 1]) + |blocks[|blocks| - 1].txs|
  }

  /** What the application answers at the end of the i-th block. */
  function EndOf(n: Node, blocks: seq<Block>, i: nat): EndBlock
    requires i < |blocks|
  {
    n.app.execute(blocks[..i], blocks[i]).end
  }

  /** Every parameter update the application asks for, in order: at InitChain, then block by block. */
  function ParamsAsked(n: Node, blocks: seq<Block>): seq<Option<ParamUpdates>> {
    if blocks == [] then [n.app.initParams]
    else ParamsAsked(n, blocks[..|blocks| - 1]) + [EndOf(n, blocks, |blocks| - 1).paramUpdates]
  }

  function Pick<T>(us: seq<Option<ParamUpdates>>, f: ParamUpdates -> Option<T>): (r: seq<Option<T>>)
    ensures |r| == |us| && forall i :: 0 <= i < |us| ==> r[i] == if us[i].Some? then f(us[i].value) else None
  {
    seq(|us|, i requires 0 <= i < |us| => if us[i].Some? then f(us[i].value) else None)
  }

  /** Each parameter is the last one asked for, or the genesis one. */
  ghost predicate ParamsFollow(n: Node, g: State, blocks: seq<Block>, p: Params) {
    var us := ParamsAsked(n, blocks);
    && BlockLimits(p.maxBytes, p.maxGas) == LastGiven(Pick(us, (u: ParamUpdates) => u.block), BlockLimits(g.params.maxBytes, g.params.maxGas))
    && p.maxAge == LastGiven(Pick(us, (u: ParamUpdates) => u.maxAge), g.params.maxAge)
    && p.keyTypes == LastGiven(Pick(us, (u: ParamUpdates) => u.keyTypes), g.params.keyTypes)
  }

  /** The validators due after the next block: changed as the application asks, their priorities moved
      on at every even height. None when a change is refused. */
  function DueAfter(n: Node, g: State, blocks: seq<Block>): Option<ValidatorSet> {
    if blocks == [] then Some(if n.app.initValidators.Some? then n.app.initValidators.value else g.nextValidators)
    else
      var k := |blocks| - 1;
      var before := DueAfter(n, g, blocks[..k]);
      var updates := EndOf(n, blocks, k).validatorUpdates;
      var changed := if before.None? || updates == [] then before else n.rules.change(before.value, updates);
      if changed.Some? && blocks[k].height % 2 == 0 then Some(n.rules.increment(changed.value, 1)) else changed
  }

  function InForceAfter(n: Node, g: State, blocks: seq<Block>): Option<ValidatorSet> {
    if blocks == [] then Some(if n.app.initValidators.Some? then n.app.initValidators.value else g.validators)
    else DueAfter(n, g, blocks[..|blocks| - 1])
  }

  /** The height after the last block that asked for a change, or the genesis one. */
  function LastChange(n: Node, g: nat, blocks: seq<Block>, asks: EndBlock -> bool, delay: nat): nat {
    if blocks == [] then g
    else
      var k := |blocks| - 1;
      if asks(EndOf(n, blocks, k)) then blocks[k].height + delay else LastChange(n, g, blocks[..k], asks, delay)
  }

  /** The state read off the chain alone. */
  ghost predicate Describes(n: Node, g: State, blocks: seq<Block>, s: State) {
    var k := |blocks| - 1;
    && s.totalTxs == g.totalTxs + TxCount(blocks)
    && ParamsFollow(n, g, blocks, s.params)
    && Some(s.nextValidators) == DueAfter(n, g, blocks) && Some(s.validators) == InForceAfter(n, g, blocks)
    && s.validatorsChanged == LastChange(n, g.validatorsChanged, blocks, (e: EndBlock) => e.validatorUpdates != [], 2)
    && s.paramsChanged == LastChange(n, g.paramsChanged, blocks, (e: EndBlock) => e.paramUpdates.Some?, 1)
    && (if blocks == []
        then s.lastBlock == g.lastBlock && s.lastTime == g.lastTime && s.resultsHash == g.resultsHash && s.lastValidators == g.lastValidators
        else s.lastBlock == Some(blocks[k].id) && s.lastTime == blocks[k].time
             && s.resultsHash == Some(n.rules.hashResults(n.app.execute(blocks[..k], blocks[k]).deliver))
             && s.lastValidators == InForceAfter(n, g, blocks[..k]))
  }

  lemma LastGivenSnoc<T>(os: seq<Option<T>>, o: Option<T>, d: T)
    ensures LastGiven(os + [o], d) == if o.Some? then o.value else LastGiven(os, d)
  {
    assert (os + [o])[..|os|] == os;
  }

  lemma ParamsMove(n: Node, g: State, blocks: seq<Block>, p: Params, u: Option<ParamUpdates>, q: Params)
    requires blocks != [] && u == EndOf(n, blocks, |blocks| - 1).paramUpdates
    requires ParamsFollow(n, g, blocks[..|blocks| - 1], p) && q == if u.Some? then UpdateParams(p, u.value) else p
    ensures ParamsFollow(n, g, blocks, q)
  {
    var us := ParamsAsked(n, blocks[..|blocks| - 1]);
    var all := us + [u];
    var limits, age, types := (v: ParamUpdates) => v.block, (v: ParamUpdates) => v.maxAge, (v: ParamUpdates) => v.keyTypes;
    assert Pick(all, limits) == Pick(us, limits) + [if u.Some? then u.value.block else None];
    assert Pick(all, age) == Pick(us, age) + [if u.Some? then u.value.maxAge else None];
    assert Pick(all, types) == Pick(us, types) + [if u.Some? then u.value.keyTypes else None];
    LastGivenSnoc(Pick(us, limits), if u.Some? then u.value.block else None, BlockLimits(g.params.maxBytes, g.params.maxGas));
    LastGivenSnoc(Pick(us, age), if u.Some? then u.value.maxAge else None, g.params.maxAge);
    LastGivenSnoc(Pick(us, types), if u.Some? then u.value.keyTypes else None, g.params.keyTypes);
  }

  lemma ParamsStart(n: Node, g: State)
    ensures ParamsFollow(n, g, [], TakeInit(n, g).params)
  {
    var us := [n.app.initParams];
    var limits, age, types := (v: ParamUpdates) => v.block, (v: ParamUpdates) => v.maxAge, (v: ParamUpdates) => v.keyTypes;
    var u := n.app.initParams;
    assert Pick(us, limits) == [] + [if u.Some? then u.value.block else None];
    assert Pick(us, age) == [] + [if u.Some? then u.value.maxAge else None];
    assert Pick(us, types) == [] + [if u.Some? then u.value.keyTypes else None];
    LastGivenSnoc([], if u.Some? then u.value.block else None, BlockLimits(g.params.maxBytes, g.params.maxGas));
    LastGivenSnoc([], if u.Some? then u.value.maxAge else None, g.params.maxAge);
    LastGivenSnoc([], if u.Some? then u.value.keyTypes else None, g.params.keyTypes);
  }

  /** The uncrashed run's state is the one the chain describes. */
  lemma {:induction false} ReferenceDescribed(n: Node, g: State, blocks: seq<Block>)
    requires Reference(n, g, blocks).Some?
    ensures Describes(n, g, blocks, Reference(n, g, blocks).value)
  {
    hide ParamsFollow, UpdateParams;
    if blocks == [] {
      ParamsStart(n, g);
    } else {
      var k := |blocks| - 1;
      ReferenceDescribed(n, g, blocks[..k]);
      var before := Reference(n, g, blocks[..k]).value;
      ParamsMove(n, g, blocks, before.params, EndOf(n, blocks, k).paramUpdates, Reference(n, g, blocks).value.params);
    }
  }

  /** A block applies on the real application exactly when it is accepted, every update it asks for has a
      power that is not negative and, unless it removes a validator, an allowed key type, the set can be
      changed so, and the new parameters are valid; then the application has it and the state is saved. */
  lemma AppliesExactlyWhen(n: Node, d: Disk, s: State, b: Block)
    ensures var out := ApplyBlock(n, d.app, s, b, Real);
            var end := n.app.execute(d.app, b).end;
            && (out.result.Ok? <==>
                  && n.rules.accepts(Core(s), b)
                  && (forall u <- end.validatorUpdates :: u.power >= 0 && (u.power > 0 ==> u.keyType in s.params.keyTypes))
                  && (end.validatorUpdates != [] ==> n.rules.change(s.nextValidators, end.validatorUpdates).Some?)
                  && (end.paramUpdates.Some? ==> n.rules.paramsValid(UpdateParams(s.params, end.paramUpdates.value))))
            && !out.result.Panic? && (out.result.Ok? ==> out.result.value.hashSignature == s.hashSignature)
            && (out.result.Ok? ==> Apply(d, out.writes) == d.(responses := d.responses[b.height := n.app.execute(d.app, b)],
                                                               app := d.app + [b], state := out.result.value))
            && (!n.rules.accepts(Core(s), b) ==> out.writes == [])
  {
    var out := ApplyBlock(n, d.app, s, b, Real);
    if out.result.Ok? {
      BlockWrites(n, d.app, s, b, Real);
      var r, c, p := PutResponses(b.height, n.app.execute(d.app, b)), AppCommit(b), PutState(out.result.value);
      ApplyOne(d, r);
      ApplyAppend(d, [r], [c]);
      ApplyOne(Apply1(d, r), c);
      ApplyAppend(d, [r] + [c], [p]);
      ApplyOne(Apply1(Apply1(d, r), c), p);
    }
  }

  // ----- every prefix of the writes is repairable ------------------------------------------------

  /** Consistent after any prefix of `ws`: a crash may fall anywhere in it. */
  ghost predicate Safe(n: Node, g: State, d: Disk, ws: seq<Write>) {
    forall j :: 0 <= j <= |ws| ==> Consistent(n, g, Apply(d, ws[..j]))
  }

  lemma SafeOne(n: Node, g: State, d: Disk, w: Write)
    requires Consistent(n, g, d) && Consistent(n, g, Apply1(d, w))
    ensures Safe(n, g, d, [w]) && Apply(d, [w]) == Apply1(d, w)
  {
    hide Consistent, Apply1;
    forall j | 0 <= j <= 1
      ensures Consistent(n, g, Apply(d, [w][..j]))
    {
      ApplyOne(d, w);
      assert [w][..0] == [] && [w][..1] == [w];
    }
  }

  lemma SafeAppend(n: Node, g: State, d: Disk, a: seq<Write>, b: seq<Write>)
    requires Safe(n, g, d, a) && Safe(n, g, Apply(d, a), b)
    ensures Safe(n, g, d, a + b) && Apply(d, a + b) == Apply(Apply(d, a), b)
  {
    hide Consistent, Apply1;
    ApplyAppend(d, a, b);
    forall j | 0 <= j <= |a + b|
      ensures Consistent(n, g, Apply(d, (a + b)[..j]))
    {
      if j <= |a| {
        assert (a + b)[..j] == a[..j];
      } else {
        assert (a + b)[..j] == a + b[..j - |a|];
        ApplyAppend(d, a, b[..j - |a|]);
      }
    }
  }

  /** The application may be anywhere at or below the state, or be rolled back from where it is. */
  lemma AppMayLag(n: Node, g: State, d: Disk, k: nat)
    requires Consistent(n, g, d) && (k <= d.state.height || k <= |d.app|)
    ensures Consistent(n, g, d.(app := d.store[..k]))
  {
    assert k == |d.app| ==> d.app == d.store[..k];
  }

  /** Handing the application stored blocks the state already covers. */
  lemma {:induction false} CommitAllSafe(n: Node, g: State, d: Disk, first: nat, last: nat)
    requires Consistent(n, g, d) && first == |d.app| <= last <= d.state.height
    ensures Safe(n, g, d, CommitAll(d.store[first..last]))
    ensures Apply(d, CommitAll(d.store[first..last])) == d.(app := d.store[..last])
    decreases last
  {
    hide Apply, CommitAll, Reference, StateMatches;
    assert d.app == d.store[..first];
    if last == first {
      CommitAllStart(d, first);
      ApplyNothing(d);
    } else {
      CommitAllSafe(n, g, d, first, last - 1);
      CommitAllStep(d, first, last - 1);
      CommitNextSafe(n, g, d, last - 1);
      SafeAppend(n, g, d, CommitAll(d.store[first..last - 1]), [AppCommit(d.store[last - 1])]);
    }
  }

  lemma CommitNextSafe(n: Node, g: State, d: Disk, i: nat)
    requires Consistent(n, g, d) && i < d.state.height
    ensures var e := d.(app := d.store[..i]);
            Safe(n, g, e, [AppCommit(d.store[i])]) && Apply(e, [AppCommit(d.store[i])]) == d.(app := d.store[..i + 1])
  {
    hide Consistent, Apply, Safe;
    HeightWithin(n, g, d);
    var e := d.(app := d.store[..i]);
    assert d.store[..i] + [d.store[i]] == d.store[..i + 1];
    AppMayLag(n, g, d, i);
    AppMayLag(n, g, d, i + 1);
    SafeOne(n, g, e, AppCommit(d.store[i]));
  }

  lemma HeightWithin(n: Node, g: State, d: Disk)
    requires Consistent(n, g, d)
    ensures d.state.height <= |d.store| && |d.app| <= |d.store| && d.app == d.store[..|d.app|]
  {
  }

  /** The writes of a block that applies, in order. */
  lemma BlockWrites(n: Node, app: seq<Block>, s: State, b: Block, conn: Conn)
    requires ApplyBlock(n, app, s, b, conn).result.Ok?
    ensures var out := ApplyBlock(n, app, s, b, conn);
            && Execute(n, conn, app, b).Some?
            && out.writes == [PutResponses(b.height, Execute(n, conn, app, b).value)]
                             + (if conn.Real? then [AppCommit(b)] else []) + [PutState(out.result.value)]
  {
    hide UpdateState;
  }

  /** Saved results and the reported hash reproduce the state the real execution gave. */
  lemma MockRepeatsReal(n: Node, app: seq<Block>, later: seq<Block>, s: State, b: Block, saved: Responses)
    requires SameResults(saved, n.app.execute(app, b)) && |saved.deliver| == |b.txs|
    ensures ApplyBlock(n, later, s, b, Mock(n.app.hash(app + [b]), saved)).result == ApplyBlock(n, app, s, b, Real).result
  {
    assert saved.deliver[..|b.txs|] == saved.deliver;
  }

  /** What running the last stored block writes, on either connection, and where it leads. */
  lemma LastBlock(n: Node, g: State, d: Disk, s: State, conn: Conn)
    requires Setup(n, g) && Consistent(n, g, d) && |d.store| == d.state.height + 1
    requires Core(s) == Core(Reference(n, g, d.store[..d.state.height]).value)
    requires conn.Real? ==> |d.app| == d.state.height
    requires conn.Mock? ==> d.app == d.store && conn == Mock(n.app.hash(d.app), d.responses[|d.store|])
    ensures var b := d.store[d.state.height];
            var out := ApplyBlock(n, d.app, s, b, conn);
            && out.result.Ok? && Core(out.result.value) == Core(Reference(n, g, d.store).value)
            && out.result.value.appHash == n.app.hash(d.store)
            && out.writes != [] && out.writes[0].PutResponses? && out.writes[0].height == |d.store|
            && SameResults(out.writes[0].responses, n.app.execute(d.store[..d.state.height], b))
            && out.writes == [out.writes[0]] + (if conn.Real? then [AppCommit(b)] else []) + [PutState(out.result.value)]
  {
    hide ApplyBlock, Reference, StateMatches;
    var k := d.state.height;
    var b := d.store[k];
    assert d.store[..k + 1] == d.store && d.store[..k] + [b] == d.store;
    ReferenceNext(n, g, d.store, k);
    ReferencePrefix(n, g, d.store, k + 1);
    ApplyBlockIgnoresSignature(n, d.store[..k], s, Reference(n, g, d.store[..k]).value, b, Real);
    if conn.Real? {
      assert d.app == d.store[..k];
    } else {
      MockRepeatsReal(n, d.store[..k], d.app, s, b, d.responses[|d.store|]);
    }
    BlockWrites(n, d.app, s, b, conn);
  }

  /** Consistency moves along the three writes of a block. */
  lemma ResponsesSaved(n: Node, g: State, d: Disk, r: Responses)
    requires Consistent(n, g, d) && |d.store| == d.state.height + 1
    requires SameResults(r, n.app.execute(d.store[..d.state.height], d.store[d.state.height]))
    ensures Consistent(n, g, Apply1(d, PutResponses(|d.store|, r)))
    ensures |d.app| == d.state.height ==> Consistent(n, g, Apply1(Apply1(d, PutResponses(|d.store|, r)), AppCommit(d.store[d.state.height])))
  {
    hide Reference;
    var k := d.state.height;
    if |d.app| == k {
      assert d.app == d.store[..k] && d.app + [d.store[k]] == d.store;
    }
  }

  lemma StateSaved(n: Node, g: State, d: Disk, s: State)
    requires Setup(n, g) && Consistent(n, g, d) && d.app == d.store && d.store != []
    requires Core(s) == Core(Reference(n, g, d.store).value)
    ensures Consistent(n, g, Apply1(d, PutState(s))) && InSync(n, g, Apply1(d, PutState(s)))
  {
    ReferencePrefix(n, g, d.store, |d.store|);
    assert d.store[..|d.store|] == d.store;
  }

  lemma CommitsOfOne(w: Write)
    ensures Commits([w]) == if w.AppCommit? then [w.block] else []
  {
    assert [w][..0] == [];
  }

  /** One block behind, application included: the block runs on the real application. */
  lemma RealBlockSafe(n: Node, g: State, d: Disk, s: State)
    requires Setup(n, g) && Consistent(n, g, d) && |d.store| == |d.app| + 1 == d.state.height + 1
    requires Core(s) == Core(Reference(n, g, d.store[..|d.app|]).value)
    ensures var out := ApplyBlock(n, d.app, s, d.store[|d.app|], Real);
            && out.result.Ok? && Safe(n, g, d, out.writes) && InSync(n, g, Apply(d, out.writes))
            && Commits(out.writes) == [d.store[|d.app|]]
            && Map(out.result) == Ok(n.app.hash(d.store)) && Apply(d, out.writes).store == d.store
  {
    hide Consistent, Safe, Apply, ApplyBlock, Reference, InSync, Setup, Commits;
    var b := d.store[|d.app|];
    LastBlock(n, g, d, s, Real);
    HeightWithin(n, g, d);
    var out := ApplyBlock(n, d.app, s, b, Real);
    var r, c, p := out.writes[0], AppCommit(b), PutState(out.result.value);
    ResponsesSaved(n, g, d, r.responses);
    var d1 := Apply1(d, r);
    var d2 := Apply1(d1, c);
    assert d2.app == d.store[..|d.app|] + [b] == d.store;
    StateSaved(n, g, d2, out.result.value);
    SafeOne(n, g, d, r);
    SafeOne(n, g, d1, c);
    SafeOne(n, g, d2, p);
    SafeAppend(n, g, d, [r], [c]);
    SafeAppend(n, g, d, [r] + [c], [p]);
    CommitsOfOne(r);
    CommitsOfOne(c);
    CommitsOfOne(p);
    ApplyAppend(d, [r], [c]);
    ApplyAppend(d, [r] + [c], [p]);
  }

  /** Committed but not saved: the block runs on the stand-in, and the application is not asked. */
  lemma MockBlockSafe(n: Node, g: State, d: Disk, s: State)
    requires Setup(n, g) && Consistent(n, g, d) && d.app == d.store && |d.store| == d.state.height + 1
    requires Core(s) == Core(Reference(n, g, d.store[..d.state.height]).value)
    ensures |d.store| in d.responses
    ensures var out := ApplyBlock(n, d.app, s, d.store[d.state.height], Mock(n.app.hash(d.app), d.responses[|d.store|]));
            && out.result.Ok? && Safe(n, g, d, out.writes) && InSync(n, g, Apply(d, out.writes))
            && Commits(out.writes) == []
            && Map(out.result) == Ok(n.app.hash(d.store)) && Apply(d, out.writes).store == d.store
  {
    hide Safe, Apply, ApplyBlock, Reference, InSync, Setup, StateMatches, Commits;
    var b := d.store[d.state.height];
    var conn := Mock(n.app.hash(d.app), d.responses[|d.store|]);
    LastBlock(n, g, d, s, conn);
    var out := ApplyBlock(n, d.app, s, b, conn);
    var r, p := out.writes[0], PutState(out.result.value);
    ResponsesSaved(n, g, d, r.responses);
    var d1 := Apply1(d, r);
    StateSaved(n, g, d1, out.result.value);
    SafeOne(n, g, d, r);
    SafeOne(n, g, d1, p);
    SafeAppend(n, g, d, [r], [p]);
    CommitsOfOne(r);
    CommitsOfOne(p);
    ApplyAppend(d, [r], [p]);
    assert out.writes == [r] + [p];
  }

  // ----- the handshake ---------------------------------------------------------------------------

  /** InitChain leaves the state the uncrashed run would have at its height. */
  lemma InitSafe(n: Node, g: State, d: Disk)
    requires Setup(n, g) && Consistent(n, g, d)
    ensures var init := InitChain(n, d);
            var d1 := Apply(d, init.writes);
            && init.result == Ok(d1.state) && d1 == d.(state := d1.state) && d1.state.height == d.state.height
            && Safe(n, g, d, init.writes) && Commits(init.writes) == []
            && Core(d1.state) == Core(Reference(n, g, d.store[..d.state.height]).value)
  {
    hide Apply, ApplyBlock, Safe;
    InitKeepsRest(n, d);
    ReferencePrefix(n, g, d.store, d.state.height);
    ReferencePrefix(n, g, d.store, 0);
    TakeInitIdempotent(n, d.state);
    TakeInitIdempotent(n, g);
    ApplyNothing(d);
    if d.app == [] && d.state.height == 0 {
      assert d.store[..0] == [];
      assert Reference(n, g, []).Some?;
      assert Consistent(n, g, Apply1(d, PutState(TakeInit(n, d.state))));
      SafeOne(n, g, d, PutState(TakeInit(n, d.state)));
      CommitsOfOne(PutState(TakeInit(n, d.state)));
    } else {
      SafeNothing(n, g, d);
      assert d.store != [];
    }
  }

  lemma SafeNothing(n: Node, g: State, d: Disk)
    requires Consistent(n, g, d)
    ensures Safe(n, g, d, [])
  {
    ApplyNothing(d);
  }

  lemma StateHash(n: Node, g: State, d: Disk, s: State)
    requires Setup(n, g) && Consistent(n, g, d)
    requires Core(s) == Core(Reference(n, g, d.store[..d.state.height]).value)
    ensures s.appHash == n.app.hash(d.store[..d.state.height])
  {
    ReferencePrefix(n, g, d.store, d.state.height);
  }

  lemma RangeSafe(n: Node, g: State, d: Disk, mutate: bool)
    requires Setup(n, g) && Consistent(n, g, d) && |d.app| < d.state.height
    requires |d.store| == d.state.height + (if mutate then 1 else 0)
    requires Core(d.state) == Core(Reference(n, g, d.store[..d.state.height]).value)
    ensures var out := ReplayRange(n, d, d.state, mutate);
            && out.result == Ok(n.app.hash(d.store)) && Safe(n, g, d, out.writes) && InSync(n, g, Apply(d, out.writes))
            && Commits(out.writes) == d.store[|d.app|..] && Apply(d, out.writes).store == d.store
  {
    hide Consistent, Safe, Apply, ApplyBlock, Reference, Setup, Commits, CommitAll;
    HeightWithin(n, g, d);
    var first, k := |d.app|, d.state.height;
    var ws := CommitAll(d.store[first..k]);
    assert d.app + d.store[first..k] == d.store[..k];
    CommitAllSafe(n, g, d, first, k);
    CommitAllApplied(d, d.store[first..k]);
    StateHash(n, g, d, d.state);
    AppMayLag(n, g, d, k);
    if mutate {
      var e := d.(app := d.store[..k]);
      RealBlockSafe(n, g, e, d.state);
      var out := ApplyBlock(n, e.app, d.state, d.store[k], Real);
      SafeAppend(n, g, d, ws, out.writes);
      ApplyAppend(d, ws, out.writes);
      assert d.store[first..k] + [d.store[k]] == d.store[first..];
    } else {
      assert d.store[..k] == d.store && d.store[first..k] == d.store[first..];
    }
  }

  /** Recovery: from any disk a crash may have left, the handshake succeeds with application, state
      and store at one height and the state of the uncrashed run; it commits to the real application
      exactly the blocks it lacks, once each and in order; and a crash anywhere inside it leaves a
      disk the next handshake repairs. */
  lemma HandshakeRecovers(n: Node, g: State, d: Disk)
    requires Setup(n, g) && Consistent(n, g, d)
    ensures var out := ReplayBlocks(n, d);
            && out.result == Ok(n.app.hash(d.store)) && InSync(n, g, Apply(d, out.writes))
            && Apply(d, out.writes).store == d.store
            && Commits(out.writes) == d.store[|d.app|..]
            && Safe(n, g, d, out.writes)
  {
    hide Consistent, Safe, Apply, ApplyBlock, Reference, Setup, Commits, InSync, InitChain, ReplayRange;
    InitSafe(n, g, d);
    var init := InitChain(n, d);
    var d1 := Apply(d, init.writes);
    AfterInitRecovers(n, g, d1) by {
      SafeEnds(n, g, d, init.writes);
    }
    AfterInitReads(n, d, d1, d1.state, d.state.height);
    var out := AfterInit(n, d, d1.state, d.state.height);
    SafeAppend(n, g, d, init.writes, out.writes);
    ApplyAppend(d, init.writes, out.writes);
  }

  lemma SafeEnds(n: Node, g: State, d: Disk, ws: seq<Write>)
    requires Safe(n, g, d, ws)
    ensures Consistent(n, g, Apply(d, ws))
  {
    assert ws[..|ws|] == ws;
  }

  lemma AfterInitRecovers(n: Node, g: State, d: Disk)
    requires Setup(n, g) && Consistent(n, g, d)
    requires Core(d.state) == Core(Reference(n, g, d.store[..d.state.height]).value)
    ensures var out := AfterInit(n, d, d.state, d.state.height);
            && out.result == Ok(n.app.hash(d.store)) && InSync(n, g, Apply(d, out.writes))
            && Apply(d, out.writes).store == d.store
            && Commits(out.writes) == d.store[|d.app|..]
            && Safe(n, g, d, out.writes)
  {
    hide Safe, Apply, ApplyBlock, Reference, Setup, ReplayRange;
    var k := d.state.height;
    StateHash(n, g, d, d.state);
    if |d.store| == k && |d.app| == k {
      assert d.store[..k] == d.store && d.app == d.store;
      ApplyNothing(d);
      SafeNothing(n, g, d);
    } else if |d.store| == k {
      RangeSafe(n, g, d, false);
    } else if |d.app| < k {
      RangeSafe(n, g, d, true);
    } else if |d.app| == k {
      RealBlockSafe(n, g, d, d.state);
    } else {
      MockBlockSafe(n, g, d, d.state);
    }
  }

  // ----- normal operation and whole runs ---------------------------------------------------------

  /** Finalizing the next block: a crash between any two of its writes is repairable, and without
      one the three stay together. */
  lemma FinalizeCommitSafe(n: Node, g: State, d: Disk, b: Block, signature: Option<Hash>)
    requires Setup(n, g) && Consistent(n, g, d) && InSync(n, g, d)
    requires b.height == |d.store| + 1 && Reference(n, g, d.store + [b]).Some?
    ensures var out := FinalizeCommit(n, d, b, signature);
            && out.result.Ok? && Safe(n, g, d, out.writes) && InSync(n, g, Apply(d, out.writes))
            && Apply(d, out.writes).store == d.store + [b] && Commits(out.writes) == [b]
  {
    hide Safe, Apply, ApplyBlock, Setup, Commits;
    var k := |d.store|;
    var d1 := Apply1(d, PutBlock(b));
    assert d1.store[..k] == d.store;
    var s := d.state.(hashSignature := signature);
    RealBlockSafe(n, g, d1, s);
    var out := ApplyBlock(n, d.app, s, b, Real);
    SafeOne(n, g, d, PutBlock(b));
    SafeAppend(n, g, d, [PutBlock(b)], out.writes);
    ApplyAppend(d, [PutBlock(b)], out.writes);
    CommitsOfOne(PutBlock(b));
  }

  /** A run of one node: blocks finalized, handshakes, each cut off by a crash after `cut` writes
      if it has that many, and the application falling back to an earlier block. */
  datatype Event =
    | Finalize(block: Block, signature: Option<Hash>, cut: nat)
    | Handshake(cut: nat)
    | AppFallsBack(height: nat)

  datatype World = World(disk: Disk, up: bool)

  function Cut(d: Disk, out: Outcome<Hash>, cut: nat): World {
    if cut < |out.writes| then World(Apply(d, out.writes[..cut]), false)
    else World(Apply(d, out.writes), out.result.Ok?)
  }

  /** Blocks are finalized only by a node whose handshake completed. */
  ghost predicate Enabled(n: Node, g: State, w: World, e: Event) {
    match e
    case Finalize(b, _, _) => w.up && b.height == |w.disk.store| + 1 && Reference(n, g, w.disk.store + [b]).Some?
    case Handshake(_) => !w.up
    case AppFallsBack(height) => height <= |w.disk.app|
  }

  function Step(n: Node, w: World, e: Event): World {
    match e
    case Finalize(b, signature, cut) =>
      var out := FinalizeCommit(n, w.disk, b, signature);
      Cut(w.disk, Outcome(out.writes, Map(out.result)), cut)
    case Handshake(cut) => Cut(w.disk, ReplayBlocks(n, w.disk), cut)
    case AppFallsBack(height) =>
      if height <= |w.disk.app| then World(w.disk.(app := w.disk.app[..height]), false) else w
  }

  ghost predicate Good(n: Node, g: State, w: World) {
    Consistent(n, g, w.disk) && (w.up ==> InSync(n, g, w.disk))
  }

  lemma StepKeepsGood(n: Node, g: State, w: World, e: Event)
    requires Setup(n, g) && Good(n, g, w) && Enabled(n, g, w, e)
    ensures Good(n, g, Step(n, w, e))
  {
    hide Consistent, InSync, Apply, Reference, Setup, ReplayBlocks, FinalizeCommit;
    match e {
      case Finalize(b, signature, cut) =>
        FinalizeCommitSafe(n, g, w.disk, b, signature);
        SafeEnds(n, g, w.disk, FinalizeCommit(n, w.disk, b, signature).writes);
      case Handshake(cut) =>
        HandshakeRecovers(n, g, w.disk);
        SafeEnds(n, g, w.disk, ReplayBlocks(n, w.disk).writes);
      case AppFallsBack(height) =>
        HeightWithin(n, g, w.disk);
        AppMayLag(n, g, w.disk, height);
        assert w.disk.app[..height] == w.disk.store[..height];
    }
  }

  ghost predicate IsRun(n: Node, g: State, ws: seq<World>, es: seq<Event>) {
    && |ws| == |es| + 1 && ws[0] == World(Disk([], map[], g, []), false)
    && (forall i :: 0 <= i < |es| ==> Enabled(n, g, ws[i], es[i]) && ws[i + 1] == Step(n, ws[i], es[i]))
  }

  /** Over every run with any crashes: the disk is always repairable, and a running node is in sync
      with the uncrashed run. The application's history is always a prefix of the stored chain, so
      no block reaches it twice or out of order. */
  lemma {:induction false} EveryRunRecovers(n: Node, g: State, ws: seq<World>, es: seq<Event>, i: nat)
    requires Setup(n, g) && Reference(n, g, []).Some? && IsRun(n, g, ws, es) && i < |ws|
    ensures Good(n, g, ws[i]) && ws[i].disk.app <= ws[i].disk.store
    ensures var out := ReplayBlocks(n, ws[i].disk);
            out.result.Ok? && InSync(n, g, Apply(ws[i].disk, out.writes))
            && Commits(out.writes) == ws[i].disk.store[|ws[i].disk.app|..]
  {
    hide Apply, ReplayBlocks, Step, Enabled;
    if i > 0 {
      EveryRunRecovers(n, g, ws, es, i - 1);
      StepKeepsGood(n, g, ws[i - 1], es[i - 1]);
    }
    HandshakeRecovers(n, g, ws[i].disk);
  }

  /** Over every run with any crashes: the state of a running node, and the state any handshake leaves, is
      the one its stored chain describes, and carries the hash of the application's blocks. */
  lemma RunningStateDescribed(n: Node, g: State, ws: seq<World>, es: seq<Event>, i: nat)
    requires Setup(n, g) && Reference(n, g, []).Some? && IsRun(n, g, ws, es) && i < |ws|
    ensures var d := ws[i].disk;
            && (ws[i].up ==> Describes(n, g, d.store, d.state) && d.state.height == |d.store| && d.state.appHash == n.app.hash(d.store))
            && var e := Apply(d, ReplayBlocks(n, d).writes);
               && e.store == d.store && Describes(n, g, d.store, e.state) && e.state.height == |d.store| && e.state.appHash == n.app.hash(d.store)
  {
    hide IsRun, Apply, ReplayBlocks, Describes;
    EveryRunRecovers(n, g, ws, es, i);
    var d := ws[i].disk;
    HandshakeRecovers(n, g, d);
    if ws[i].up {
      InSyncDescribed(n, g, d);
    }
    InSyncDescribed(n, g, Apply(d, ReplayBlocks(n, d).writes));
  }

  lemma InSyncDescribed(n: Node, g: State, d: Disk)
    requires Setup(n, g) && InSync(n, g, d) && Contiguous(d.store)
    ensures Describes(n, g, d.store, d.state) && d.state.appHash == n.app.hash(d.store)
  {
    ReferenceDescribed(n, g, d.store);
    ReferencePrefix(n, g, d.store, |d.store|);
    assert d.store[..|d.store|] == d.store;
    SameCoreDescribed(n, g, d.store, Reference(n, g, d.store).value, d.state);
  }

  lemma SameCoreDescribed(n: Node, g: State, blocks: seq<Block>, s: State, t: State)
    requires Describes(n, g, blocks, s) && Core(s) == Core(t)
    ensures Describes(n, g, blocks, t) && t.appHash == s.appHash
  {
    assert t == s.(hashSignature := t.hashSignature);
  }

  // ----- arbitrary disks -------------------------------------------------------------------------

  predicate HeightsEqual(d: Disk) {
    |d.app| == |d.store| == d.state.height
  }

  /** On a disk no crash explains, the handshake reports success with the three heights apart in
      exactly these cases: an empty store whose state carries the hash of an application that is
      elsewhere, or a state that is neither at the store nor one below it. */
  lemma SilentExactlyWhen(n: Node, d: Disk)
    requires Contiguous(d.store)
    ensures var out := ReplayBlocks(n, d);
            out.result.Ok? && !HeightsEqual(Apply(d, out.writes))
            <==> InitChain(n, d).result.Ok?
                 && ((d.store == [] && !HeightsEqual(d) && d.state.appHash == n.app.hash(d.app))
                     || (d.store != [] && |d.app| <= |d.store|
                         && d.state.height != |d.store| && d.state.height + 1 != |d.store|))
  {
    hide Apply, ApplyBlock, ReplayRange;
    InitKeepsRest(n, d);
    var init := InitChain(n, d);
    if init.result.Ok? {
      var d1 := Apply(d, init.writes);
      var s := init.result.value;
      var out := AfterInit(n, d, s, d.state.height);
      ApplyAppend(d, init.writes, out.writes);
      ApplyNothing(d1);
      var k := |d.store|;
      if d.store != [] && |d.app| <= k {
        if d.state.height == k && |d.app| < k {
          RangeHeights(n, d1, s, false);
          AfterInitReads(n, d, d1, s, d.state.height);
        } else if d.state.height + 1 == k && |d.app| < d.state.height {
          RangeHeights(n, d1, s, true);
          AfterInitReads(n, d, d1, s, d.state.height);
        } else if d.state.height + 1 == k && |d.app| == d.state.height {
          BlockHeights(n, d1, d.app, s, d.store[k - 1], Real);
        } else if d.state.height + 1 == k && k in d.responses {
          BlockHeights(n, d1, d.app, s, d.store[k - 1], Mock(n.app.hash(d.app), d.responses[k]));
        }
      }
    }
  }

  lemma BlockHeights(n: Node, d: Disk, app: seq<Block>, s: State, b: Block, conn: Conn)
    ensures var out := ApplyBlock(n, app, s, b, conn);
            out.result.Ok? ==>
              var e := Apply(d, out.writes);
              e.state.height == b.height && e.store == d.store && |e.app| == |d.app| + (if conn.Real? then 1 else 0)
  {
    var out := ApplyBlock(n, app, s, b, conn);
    if out.result.Ok? {
      BlockWrites(n, app, s, b, conn);
      var ws := out.writes[..|out.writes| - 1];
      var r := out.writes[0];
      ApplyOne(d, r);
      if conn.Real? {
        assert ws == [r] + [AppCommit(b)];
        ApplyAppend(d, [r], [AppCommit(b)]);
        ApplyOne(Apply(d, [r]), AppCommit(b));
      } else {
        assert ws == [r];
      }
    }
  }

  lemma RangeHeights(n: Node, d: Disk, s: State, mutate: bool)
    requires Contiguous(d.store) && |d.app| < |d.store| - (if mutate then 1 else 0)
    ensures var out := ReplayRange(n, d, s, mutate);
            out.result.Ok? ==>
              var e := Apply(d, out.writes);
              |e.app| == |d.store| == |e.store| && e.state.height == (if mutate then |d.store| else d.state.height)
  {
    hide Apply, ApplyBlock, CommitAll;
    var last := if mutate then |d.store| - 1 else |d.store|;
    var ws := CommitAll(d.store[|d.app|..last]);
    CommitAllApplied(d, d.store[|d.app|..last]);
    if mutate {
      var e := Apply(d, ws);
      BlockHeights(n, e, e.app, s, d.store[last], Real);
      ApplyAppend(d, ws, ApplyBlock(n, e.app, s, d.store[last], Real).writes);
    }
  }
}
