/** The fast-sync scheduler (`blockchain/pool.go`). Each mutex-protected handler and each step of a
    requester's own routine is one step; a requester that was popped may still take one last step.
    A map the source ranges over is walked in an arbitrary order. */
module BlockPools {
  import opened Options

  type PeerID = nat
  type Block = nat

  const MAX_PENDING_PER_PEER := 20
  const MAX_DIFF := 100
  const MAX_PENDING := 600
  const MAX_REQUESTERS := 600

  /** `redo` is the one-place channel of a request to start over with another peer. */
  datatype Requester = Requester(peer: Option<PeerID>, block: Option<Block>, redo: Option<PeerID>)

  datatype Peer = Peer(height: int, pending: int, timedOut: bool)

  datatype Pool = Pool(
    requesters: map<nat, Requester>,
    height: nat,
    peers: map<PeerID, Peer>,
    maxPeerHeight: int,
    numPending: int,
    stopped: multiset<Requester>)

  function Lacking(m: map<nat, Requester>): set<nat> {
    set h | h in m && m[h].block.None?
  }

  ghost predicate Interval(m: map<nat, Requester>, lo: nat) {
    forall h :: h in m <==> lo <= h < lo + |m|
  }

  /** Requester keys are the contiguous interval from the pool height. */
  ghost predicate Contiguous(p: Pool) {
    Interval(p.requesters, p.height)
  }

  ghost predicate Dominates(p: Pool) {
    forall id :: id in p.peers ==> p.peers[id].height <= p.maxPeerHeight
  }

  /** What the counter exceeds the requesters lacking a block by. */
  ghost function Surplus(p: Pool): int {
    p.numPending - |Lacking(p.requesters)|
  }

  /** The counter exceeds the requesters lacking a block by what has leaked. */
  ghost predicate Counted(p: Pool, leaked: int) {
    Surplus(p) == leaked
  }

  // ----- what each handler does ------------------------------------------------------------------

  function MakeNext(p: Pool): Pool {
    var next := p.height + |p.requesters|;
    if next > p.maxPeerHeight then p
    else p.(requesters := p.requesters[next := Requester(None, None, None)], numPending := p.numPending + 1)
  }

  /** Popping with nothing at the pool height panics. */
  function Pop(p: Pool): Option<Pool> {
    if p.height !in p.requesters then None
    else Some(p.(requesters := p.requesters - {p.height}, height := p.height + 1,
                 stopped := p.stopped + multiset{p.requesters[p.height]}))
  }

  datatype AddOutcome = Stored | Unexpected | TooFar | WrongPeer

  function Add(p: Pool, id: PeerID, height: nat, block: Block): (Pool, AddOutcome) {
    if height !in p.requesters then
      (p, if p.height - height > MAX_DIFF || height - p.height > MAX_DIFF then TooFar else Unexpected)
    else
      var r := p.requesters[height];
      if r.block.Some? || r.peer != Some(id) then (p, WrongPeer)
      else
        var peers := if id in p.peers then p.peers[id := p.peers[id].(pending := p.peers[id].pending - 1)] else p.peers;
        (p.(requesters := p.requesters[height := r.(block := Some(block))], numPending := p.numPending - 1, peers := peers), Stored)
  }

  function SetHeight(p: Pool, id: PeerID, height: int): Pool {
    var peer := if id in p.peers then p.peers[id].(height := height) else Peer(height, 0, false);
    p.(peers := p.peers[id := peer], maxPeerHeight := if height > p.maxPeerHeight then height else p.maxPeerHeight)
  }

  function Asked(r: Requester, id: PeerID): Requester {
    if r.peer == Some(id) && r.redo.None? then r.(redo := Some(id)) else r
  }

  function AskAll(m: map<nat, Requester>, id: PeerID): map<nat, Requester> {
    map h | h in m :: Asked(m[h], id)
  }

  /** The greatest height, or zero if that is greater. */
  ghost predicate IsMax(peers: map<PeerID, Peer>, max: int) {
    && max >= 0 && (forall id :: id in peers ==> peers[id].height <= max)
    && (max == 0 || exists id :: id in peers && peers[id].height == max)
  }

  predicate CanServe(peer: Peer, minHeight: nat) {
    !peer.timedOut && peer.pending < MAX_PENDING_PER_PEER && peer.height >= minHeight
  }

  /** A requester without a peer takes one that may serve it. */
  predicate Available(p: Pool, h: nat, id: PeerID) {
    h in p.requesters && p.requesters[h].peer.None? && id in p.peers && CanServe(p.peers[id], h)
  }

  function Assign(p: Pool, h: nat, id: PeerID): Pool
    requires Available(p, h, id)
  {
    p.(requesters := p.requesters[h := p.requesters[h].(peer := Some(id))],
       peers := p.peers[id := p.peers[id].(pending := p.peers[id].pending + 1)])
  }

  /** A requester's routine takes a request to start over: it counts only from its current peer. */
  function Restarted(r: Requester): Requester {
    if r.redo.Some? && r.redo == r.peer then Requester(None, None, None) else r.(redo := None)
  }

  predicate Gives(r: Requester) {
    r.redo.Some? && r.redo == r.peer && r.block.Some?
  }

  function Redo(p: Pool, h: nat): Pool
    requires h in p.requesters
  {
    var r := p.requesters[h];
    p.(requesters := p.requesters[h := Restarted(r)], numPending := p.numPending + (if Gives(r) then 1 else 0))
  }

  /** A popped requester may still take its pending request before it notices it was stopped. */
  function StoppedRedo(p: Pool, r: Requester): Pool
    requires r in p.stopped
  {
    p.(stopped := p.stopped - multiset{r}, numPending := p.numPending + (if Gives(r) then 1 else 0))
  }

  // ----- the object ------------------------------------------------------------------------------

  class BlockPool {
    var pool: Pool

    constructor (start: nat)
      ensures pool == Pool(map[], start, map[], 0, 0, multiset{})
    {
      pool := Pool(map[], start, map[], 0, 0, multiset{});
    }

    method MakeNextRequester()
      modifies this
      ensures old(Contiguous(pool)) ==> Contiguous(pool) && Surplus(pool) == old(Surplus(pool))
      ensures pool.requesters.Keys - old(pool).requesters.Keys <= {pool.height + |old(pool).requesters|}
      ensures old(Contiguous(pool)) ==>
                if pool.height + |old(pool).requesters| <= pool.maxPeerHeight
                then pool.height + |old(pool).requesters| !in old(pool).requesters
                     && pool.requesters == old(pool).requesters[pool.height + |old(pool).requesters| := Requester(None, None, None)]
                else pool == old(pool)
      ensures pool == MakeNext(old(pool))
    {
      hide Lacking;
      if Contiguous(pool) {
        IntervalGrows(pool.requesters, pool.height, Requester(None, None, None));
        MakeCounts(pool);
      }
      var next := pool.height + |pool.requesters|;
      if next > pool.maxPeerHeight {
        return;
      }
      pool := pool.(requesters := pool.requesters[next := Requester(None, None, None)]);
      pool := pool.(numPending := pool.numPending + 1);
    }

    method PopRequest() returns (panicked: bool)
      modifies this
      ensures panicked <==> old(pool).height !in old(pool).requesters
      ensures old(Contiguous(pool)) ==> Contiguous(pool)
      ensures !panicked ==>
                Surplus(pool) == old(Surplus(pool)) + (if old(pool).requesters[old(pool).height].block.None? then 1 else 0)
      ensures !panicked ==>
                && pool.height == old(pool).height + 1 && pool.requesters == old(pool).requesters - {old(pool).height}
                && pool.stopped == old(pool).stopped + multiset{old(pool).requesters[old(pool).height]}
      ensures pool == if panicked then old(pool) else Pop(old(pool)).value
    {
      hide Lacking, Interval;
      if pool.height in pool.requesters {
        LackingRemove(pool.requesters, pool.height);
        if Contiguous(pool) {
          IntervalShrinks(pool.requesters, pool.height);
        }
      }
      if pool.height !in pool.requesters {
        return true;
      }
      var r := pool.requesters[pool.height];
      pool := pool.(stopped := pool.stopped + multiset{r});
      pool := pool.(requesters := pool.requesters - {pool.height});
      pool := pool.(height := pool.height + 1);
      return false;
    }

    method AddBlock(id: PeerID, height: nat, block: Block) returns (r: AddOutcome)
      modifies this
      ensures Surplus(pool) == old(Surplus(pool)) && pool.requesters.Keys == old(pool).requesters.Keys
      ensures old(Dominates(pool)) ==> Dominates(pool)
      ensures r.Stored? <==> height in old(pool).requesters && old(pool).requesters[height].peer == Some(id)
                             && old(pool).requesters[height].block.None?
      ensures r.Stored? ==>
                && pool.requesters == old(pool).requesters[height := Requester(Some(id), Some(block), old(pool).requesters[height].redo)]
                && pool.numPending == old(pool).numPending - 1 && pool.peers - {id} == old(pool).peers - {id}
                && (id in old(pool).peers ==> id in pool.peers && pool.peers[id].pending == old(pool).peers[id].pending - 1)
      ensures !r.Stored? ==> pool == old(pool)
      ensures r.TooFar? <==> height !in old(pool).requesters && !(pool.height - MAX_DIFF <= height <= pool.height + MAX_DIFF)
      ensures (pool, r) == Add(old(pool), id, height, block)
    {
      hide Lacking;
      AddCounts(pool, id, height, block);
      if height !in pool.requesters {
        var diff: int := pool.height - height;
        if diff < 0 {
          diff := -diff;
        }
        return if diff > MAX_DIFF then TooFar else Unexpected;
      }
      var q := pool.requesters[height];
      if q.block.Some? || q.peer != Some(id) {
        return WrongPeer;
      }
      pool := pool.(requesters := pool.requesters[height := q.(block := Some(block))]);
      pool := pool.(numPending := pool.numPending - 1);
      if id in pool.peers {
        var peer := pool.peers[id];
        pool := pool.(peers := pool.peers[id := peer.(pending := peer.pending - 1)]);
      }
      return Stored;
    }

    method SetPeerHeight(id: PeerID, height: int)
      modifies this
      ensures old(Dominates(pool)) ==> Dominates(pool)
      ensures id in pool.peers && pool.peers[id].height == height
      ensures id in old(pool).peers ==> pool.peers[id] == old(pool).peers[id].(height := height)
      ensures id !in old(pool).peers ==> pool.peers[id].pending == 0 && !pool.peers[id].timedOut
      ensures pool.peers - {id} == old(pool).peers - {id}
      ensures pool.maxPeerHeight >= height && pool.maxPeerHeight in {height, old(pool).maxPeerHeight}
      ensures pool.requesters == old(pool).requesters && pool.numPending == old(pool).numPending
      ensures pool == SetHeight(old(pool), id, height)
    {
      if id in pool.peers {
        pool := pool.(peers := pool.peers[id := pool.peers[id].(height := height)]);
      } else {
        pool := pool.(peers := pool.peers[id := Peer(height, 0, false)]);
      }
      if height > pool.maxPeerHeight {
        pool := pool.(maxPeerHeight := height);
      }
    }

    static method AskRequesters(all: map<nat, Requester>, id: PeerID) returns (m: map<nat, Requester>)
      ensures m.Keys == all.Keys && forall h :: h in m ==> m[h] == Asked(all[h], id)
    {
      m := all;
      var todo: set<nat> := all.Keys;
      while todo != {}
        invariant todo <= all.Keys
        invariant m.Keys == all.Keys
        invariant forall h :: h in m && h in todo ==> m[h] == all[h]
        invariant forall h :: h in m && h !in todo ==> m[h] == Asked(all[h], id)
        decreases todo
      {
        var h: nat :| h in todo;
        var r := m[h];
        if r.peer == Some(id) {
          if r.redo.None? {
            m := m[h := r.(redo := Some(id))];
          }
        }
        todo := todo - {h};
      }
    }

    /** Every requester of the peer is told to start over; if the peer was the highest, the maximum
        is found anew among the rest. */
    method RemovePeer(id: PeerID)
      modifies this
      ensures forall h :: h in pool.requesters && pool.requesters[h].peer == Some(id) ==> pool.requesters[h].redo.Some?
      ensures pool.requesters.Keys == old(pool.requesters).Keys
      ensures forall h :: h in pool.requesters ==>
                pool.requesters[h] == old(pool.requesters)[h] || pool.requesters[h] == old(pool.requesters)[h].(redo := Some(id))
      ensures forall h :: h in pool.requesters && old(pool.requesters)[h].peer != Some(id) ==> pool.requesters[h] == old(pool.requesters)[h]
      ensures pool.requesters == AskAll(old(pool.requesters), id) && pool.peers == old(pool.peers) - {id}
      ensures pool == old(pool).(requesters := pool.requesters, peers := pool.peers, maxPeerHeight := pool.maxPeerHeight)
      ensures if id in old(pool.peers) && old(pool.peers)[id].height == old(pool.maxPeerHeight)
              then IsMax(pool.peers, pool.maxPeerHeight) else pool.maxPeerHeight == old(pool.maxPeerHeight)
    {
      var asked := AskRequesters(pool.requesters, id);
      assert asked == AskAll(pool.requesters, id);
      pool := pool.(requesters := asked);
      if id in pool.peers {
        var peer := pool.peers[id];
        pool := pool.(peers := pool.peers - {id});
        if peer.height == pool.maxPeerHeight {
          UpdateMaxPeerHeight();
        }
      } else {
        assert pool.peers - {id} == pool.peers;
      }
    }

    method UpdateMaxPeerHeight()
      modifies this
      ensures pool == old(pool).(maxPeerHeight := pool.maxPeerHeight) && IsMax(pool.peers, pool.maxPeerHeight)
    {
      var max := 0;
      var todo := pool.peers.Keys;
      while todo != {}
        invariant todo <= pool.peers.Keys && pool == old(pool) && max >= 0
        invariant forall id :: id in pool.peers && id !in todo ==> pool.peers[id].height <= max
        invariant max == 0 || exists id :: id in pool.peers && pool.peers[id].height == max
        decreases todo
      {
        var id :| id in todo;
        if pool.peers[id].height > max {
          max := pool.peers[id].height;
        }
        todo := todo - {id};
      }
      pool := pool.(maxPeerHeight := max);
    }

    /** Walks the peers, dropping those that timed out, until one can take a request for the height;
        finds none exactly when there is none. */
    method PickIncrAvailablePeer(minHeight: nat) returns (r: Option<PeerID>)
      modifies this
      ensures r.None? <==> forall id :: id in old(pool.peers) ==> !CanServe(old(pool.peers)[id], minHeight)
      ensures r.Some? ==> r.value in pool.peers && pool.peers[r.value].height >= minHeight
                          && pool.peers[r.value].pending <= MAX_PENDING_PER_PEER && !pool.peers[r.value].timedOut
      ensures r.Some? ==> r.value in old(pool.peers) && r.value in pool.peers && CanServe(old(pool.peers)[r.value], minHeight)
                          && pool.peers[r.value] == old(pool.peers)[r.value].(pending := old(pool.peers)[r.value].pending + 1)
      ensures forall id :: id in pool.peers && r != Some(id) ==> id in old(pool.peers) && pool.peers[id] == old(pool.peers)[id]
      ensures forall id :: id in old(pool.peers) && id !in pool.peers ==> old(pool.peers)[id].timedOut
      ensures old(Dominates(pool)) ==> Dominates(pool)
      ensures pool.height == old(pool.height) && pool.numPending == old(pool.numPending)
              && pool.requesters.Keys == old(pool.requesters).Keys && Lacking(pool.requesters) == Lacking(old(pool.requesters))
    {
      hide AskAll;
      var todo := pool.peers.Keys;
      while todo != {}
        invariant todo <= old(pool.peers).Keys
        invariant forall id :: id in todo ==> id in pool.peers
        invariant forall id :: id in pool.peers ==> id in old(pool.peers) && pool.peers[id] == old(pool.peers)[id]
        invariant forall id :: id in old(pool.peers) && id !in pool.peers ==> old(pool.peers)[id].timedOut
        invariant forall id :: id in old(pool.peers) && id !in todo ==> !CanServe(old(pool.peers)[id], minHeight)
        invariant old(Dominates(pool)) ==> Dominates(pool)
        invariant pool.height == old(pool.height) && pool.numPending == old(pool.numPending)
        invariant pool.requesters.Keys == old(pool.requesters).Keys && Lacking(pool.requesters) == Lacking(old(pool.requesters))
        decreases todo
      {
        var id :| id in todo;
        var peer := pool.peers[id];
        if peer.timedOut {
          AskAllKeeps(pool.requesters, id);
          RemovePeer(id);
        } else if peer.pending < MAX_PENDING_PER_PEER && peer.height >= minHeight {
          pool := pool.(peers := pool.peers[id := peer.(pending := peer.pending + 1)]);
          return Some(id);
        }
        todo := todo - {id};
      }
      return None;
    }

    method IsCaughtUp(waited: bool) returns (r: bool)
      ensures r && Dominates(pool) ==> forall id :: id in pool.peers ==> pool.height >= pool.peers[id].height - 1
      ensures r <==> pool.peers != map[] && (pool.height > 0 || waited)
                     && (pool.maxPeerHeight == 0 || pool.height >= pool.maxPeerHeight - 1)
    {
      if |pool.peers| == 0 {
        assert pool.peers == map[];
        return false;
      }
      var receivedOrTimedOut := pool.height > 0 || waited;
      var longest := pool.maxPeerHeight == 0 || pool.height >= pool.maxPeerHeight - 1;
      return receivedOrTimedOut && longest;
    }
  }

  // ----- runs ------------------------------------------------------------------------------------

  datatype Event =
    | MakeNextRequester
    | PopRequest
    | AddBlock(id: PeerID, at: nat, block: Block)
    | SetPeerHeight(id: PeerID, to: int)
    | RemovePeer(id: PeerID)
    | TimeOut(id: PeerID)
    | Assigned(h: nat, id: PeerID)
    | TakeRedo(h: nat)
    | StoppedTakesRedo(r: Requester)

  /** One step, removal with whatever maximum the walk finds. */
  ghost predicate Step(p: Pool, q: Pool, e: Event) {
    match e
    case MakeNextRequester => q == MakeNext(p)
    case PopRequest => Pop(p) == Some(q)
    case AddBlock(id, h, b) => q == Add(p, id, h, b).0
    case SetPeerHeight(id, h) => q == SetHeight(p, id, h)
    case RemovePeer(id) =>
      && q == p.(requesters := AskAll(p.requesters, id), peers := p.peers - {id}, maxPeerHeight := q.maxPeerHeight)
      && (if id in p.peers && p.peers[id].height == p.maxPeerHeight
          then IsMax(q.peers, q.maxPeerHeight) else q.maxPeerHeight == p.maxPeerHeight)
    case TimeOut(id) => id in p.peers && q == p.(peers := p.peers[id := p.peers[id].(timedOut := true)])
    case Assigned(h, id) => Available(p, h, id) && q == Assign(p, h, id)
    case TakeRedo(h) => h in p.requesters && q == Redo(p, h)
    case StoppedTakesRedo(r) => r in p.stopped && q == StoppedRedo(p, r)
  }

  /** What a step adds to the leak: a pop without a block, or a stopped requester giving its block
      back to the counter. */
  function Leak(p: Pool, e: Event): int {
    match e
    case PopRequest => if p.height in p.requesters && p.requesters[p.height].block.None? then 1 else 0
    case StoppedTakesRedo(r) => if Gives(r) then 1 else 0
    case _ => 0
  }

  lemma LackingUpdate(m: map<nat, Requester>, h: nat, r: Requester)
    ensures |Lacking(m[h := r])| == |Lacking(m)| + (if r.block.None? then 1 else 0) - (if h in m && m[h].block.None? then 1 else 0)
  {
    var a, b := Lacking(m), Lacking(m[h := r]);
    assert b == if r.block.None? then a + {h} else a - {h};
  }

  lemma LackingRemove(m: map<nat, Requester>, h: nat)
    requires h in m
    ensures |Lacking(m - {h})| == |Lacking(m)| - (if m[h].block.None? then 1 else 0)
    ensures |m - {h}| == |m| - 1
  {
    assert Lacking(m - {h}) == Lacking(m) - {h};
    assert (m - {h}).Keys == m.Keys - {h};
    assert |m - {h}| == |(m - {h}).Keys| && |m| == |m.Keys|;
  }

  lemma SameKeys(m: map<nat, Requester>, n: map<nat, Requester>)
    requires m.Keys == n.Keys
    ensures |m| == |n|
  {
    assert |m| == |m.Keys| && |n| == |n.Keys|;
  }

  lemma AskAllKeeps(m: map<nat, Requester>, id: PeerID)
    ensures AskAll(m, id).Keys == m.Keys && Lacking(AskAll(m, id)) == Lacking(m)
  {
    assert AskAll(m, id).Keys == m.Keys;
    forall h: nat
      ensures h in Lacking(AskAll(m, id)) <==> h in Lacking(m)
    {
    }
  }

  lemma IntervalSame(m: map<nat, Requester>, n: map<nat, Requester>, lo: nat)
    requires Interval(m, lo) && m.Keys == n.Keys
    ensures Interval(n, lo)
  {
    SameKeys(m, n);
  }

  lemma IntervalGrows(m: map<nat, Requester>, lo: nat, r: Requester)
    requires Interval(m, lo)
    ensures Interval(m[lo + |m| := r], lo)
  {
  }

  lemma IntervalShrinks(m: map<nat, Requester>, lo: nat)
    requires Interval(m, lo) && lo in m
    ensures Interval(m - {lo}, lo + 1)
  {
    LackingRemove(m, lo);
  }

  /** No other event moves the pool or its requesters' heights. */
  lemma StepKeepsKeys(p: Pool, q: Pool, e: Event)
    requires Step(p, q, e) && !e.MakeNextRequester? && !e.PopRequest?
    ensures q.requesters.Keys == p.requesters.Keys && q.height == p.height
  {
    hide Lacking, IsMax;
    match e {
      case RemovePeer(id) => AskAllKeeps(p.requesters, id);
      case _ =>
    }
  }

  lemma StepKeepsContiguous(p: Pool, q: Pool, e: Event)
    requires Contiguous(p) && Step(p, q, e)
    ensures Contiguous(q)
  {
    hide Interval, IsMax, AskAll, Add, SetHeight, Assign, Redo, StoppedRedo;
    match e {
      case MakeNextRequester => IntervalGrows(p.requesters, p.height, Requester(None, None, None));
      case PopRequest => IntervalShrinks(p.requesters, p.height);
      case _ =>
        StepKeepsKeys(p, q, e);
        IntervalSame(p.requesters, q.requesters, p.height);
    }
  }

  lemma AddCounts(p: Pool, id: PeerID, h: nat, b: Block)
    ensures var q := Add(p, id, h, b).0;
            q.numPending - |Lacking(q.requesters)| == p.numPending - |Lacking(p.requesters)|
  {
    hide Lacking;
    if h in p.requesters {
      LackingUpdate(p.requesters, h, p.requesters[h].(block := Some(b)));
    }
  }

  lemma RedoCounts(p: Pool, h: nat)
    requires h in p.requesters
    ensures Redo(p, h).numPending - |Lacking(Redo(p, h).requesters)| == p.numPending - |Lacking(p.requesters)|
  {
    hide Lacking;
    LackingUpdate(p.requesters, h, Restarted(p.requesters[h]));
  }

  lemma MakeCounts(p: Pool)
    requires Contiguous(p)
    ensures MakeNext(p).numPending - |Lacking(MakeNext(p).requesters)| == p.numPending - |Lacking(p.requesters)|
  {
    hide Lacking;
    LackingUpdate(p.requesters, p.height + |p.requesters|, Requester(None, None, None));
  }

  lemma StepCounts(p: Pool, q: Pool, e: Event, leaked: int)
    requires Contiguous(p) && Counted(p, leaked) && Step(p, q, e)
    ensures Counted(q, leaked + Leak(p, e))
  {
    hide IsMax, Lacking, Contiguous, AskAll, Add, Redo, MakeNext;
    match e {
      case MakeNextRequester => MakeCounts(p);
      case PopRequest => LackingRemove(p.requesters, p.height);
      case AddBlock(id, h, b) => AddCounts(p, id, h, b);
      case RemovePeer(id) => AskAllKeeps(p.requesters, id);
      case Assigned(h, id) => LackingUpdate(p.requesters, h, p.requesters[h].(peer := Some(id)));
      case TakeRedo(h) => RedoCounts(p, h);
      case _ =>
    }
  }

  lemma StepDominates(p: Pool, q: Pool, e: Event)
    requires Dominates(p) && Step(p, q, e)
    ensures Dominates(q)
  {
  }

  ghost predicate IsRun(start: nat, ps: seq<Pool>, es: seq<Event>) {
    && |ps| == |es| + 1 && ps[0] == Pool(map[], start, map[], 0, 0, multiset{})
    && (forall i :: 0 <= i < |es| ==> Step(ps[i], ps[i + 1], es[i]))
  }

  function Leaked(ps: seq<Pool>, es: seq<Event>, n: nat): int
    requires n <= |es| <= |ps|
  {
    if n == 0 then 0 else Leaked(ps, es, n - 1) + Leak(ps[n - 1], es[n - 1])
  }

  lemma Starts(start: nat)
    ensures var p := Pool(map[], start, map[], 0, 0, multiset{}); Contiguous(p) && Dominates(p) && Counted(p, 0)
  {
    assert Lacking(map[]) == {};
  }

  /** Over every run: requesters cover a contiguous interval from the pool height, the maximum
      dominates every connected peer, and the pending counter is the number of requesters lacking a
      block plus what has leaked. */
  lemma {:induction false} RunInvariant(start: nat, ps: seq<Pool>, es: seq<Event>, n: nat)
    requires IsRun(start, ps, es) && n <= |es|
    ensures Contiguous(ps[n]) && Dominates(ps[n]) && Counted(ps[n], Leaked(ps, es, n))
    ensures Leaked(ps, es, n) >= 0
  {
    hide Contiguous, Step, Dominates;
    if n == 0 {
      Starts(start);
    } else {
      RunInvariant(start, ps, es, n - 1);
      StepKeepsContiguous(ps[n - 1], ps[n], es[n - 1]);
      StepCounts(ps[n - 1], ps[n], es[n - 1], Leaked(ps, es, n - 1));
      StepDominates(ps[n - 1], ps[n], es[n - 1]);
    }
  }

  /** Over every run no peer ever has more than twenty requests open. */
  lemma {:induction false} NeverOverloaded(start: nat, ps: seq<Pool>, es: seq<Event>, n: nat, id: PeerID)
    requires IsRun(start, ps, es) && n <= |es| && id in ps[n].peers
    ensures ps[n].peers[id].pending <= 20
  {
    if n > 0 {
      assert Step(ps[n - 1], ps[n], es[n - 1]);
      if id in ps[n - 1].peers {
        NeverOverloaded(start, ps, es, n - 1, id);
      }
    }
  }

  lemma LeakNotNegative(p: Pool, e: Event)
    ensures Leak(p, e) >= 0
  {
  }

  /** The counter is exact at the end of a run exactly when no step of it leaked. */
  lemma {:induction false} CounterExactWhen(start: nat, ps: seq<Pool>, es: seq<Event>, n: nat)
    requires IsRun(start, ps, es) && n <= |es|
    ensures ps[n].numPending == |Lacking(ps[n].requesters)| <==> forall i :: 0 <= i < n ==> Leak(ps[i], es[i]) == 0
  {
    hide Step, Lacking, Contiguous, Dominates, Leak;
    RunInvariant(start, ps, es, n);
    if n > 0 {
      CounterExactWhen(start, ps, es, n - 1);
      RunInvariant(start, ps, es, n - 1);
      LeakNotNegative(ps[n - 1], es[n - 1]);
    }
  }

  /** Over every run, being caught up means at most one behind every connected peer. */
  lemma CaughtUpMeans(start: nat, ps: seq<Pool>, es: seq<Event>, n: nat, id: PeerID)
    requires IsRun(start, ps, es) && n <= |es| && id in ps[n].peers
    requires ps[n].maxPeerHeight == 0 || ps[n].height >= ps[n].maxPeerHeight - 1
    ensures ps[n].height >= ps[n].peers[id].height - 1
  {
    RunInvariant(start, ps, es, n);
  }

  // ----- what a leak costs -----------------------------------------------------------------------

  /** The scheduling routine made this requester after it read a status below both limits, and it made
      none since that reading. */
  ghost predicate Scheduled(ps: seq<Pool>, es: seq<Event>, i: nat)
    requires i < |es| < |ps|
  {
    exists k :: 0 <= k <= i && ReadBefore(ps, es, k, i)
  }

  ghost predicate ReadBefore(ps: seq<Pool>, es: seq<Event>, k: nat, i: nat)
    requires k <= i < |es| < |ps|
  {
    && ps[k].numPending < MAX_PENDING && |ps[k].requesters| < MAX_REQUESTERS
    && forall j :: k <= j < i ==> !es[j].MakeNextRequester?
  }

  /** A run whose requesters are all made by that routine. */
  ghost predicate IsScheduledRun(start: nat, ps: seq<Pool>, es: seq<Event>) {
    IsRun(start, ps, es) && forall i :: 0 <= i < |es| && es[i].MakeNextRequester? ==> Scheduled(ps, es, i)
  }

  /** A scheduled run that ends in a pool with that much leaked. */
  ghost predicate Ends(ps: seq<Pool>, es: seq<Event>, p: Pool, leaked: int) {
    && IsScheduledRun(1, ps, es) && ps[|es|] == p && Leaked(ps, es, |es|) == leaked
  }

  /** What the reactor looks at before it pops: the blocks of the pool height and of the one above. */
  predicate PeeksTwo(p: Pool) {
    && p.height in p.requesters && p.requesters[p.height].block.Some?
    && p.height + 1 in p.requesters && p.requesters[p.height + 1].block.Some?
  }

  lemma {:induction false} LeakedSame(ps: seq<Pool>, es: seq<Event>, ps': seq<Pool>, es': seq<Event>, n: nat)
    requires n <= |es| <= |ps| && es <= es' && ps <= ps' && |es'| <= |ps'|
    ensures Leaked(ps', es', n) == Leaked(ps, es, n)
  {
    if n > 0 {
      LeakedSame(ps, es, ps', es', n - 1);
    }
  }

  lemma StepsExtend(start: nat, ps: seq<Pool>, es: seq<Event>, q: Pool, e: Event)
    requires IsRun(start, ps, es) && Step(ps[|es|], q, e)
    ensures IsRun(start, ps + [q], es + [e])
  {
    hide Step;
    var ps', es' := ps + [q], es + [e];
    forall i | 0 <= i < |es'|
      ensures Step(ps'[i], ps'[i + 1], es'[i])
    {
      if i < |es| {
        assert ps'[i] == ps[i] && ps'[i + 1] == ps[i + 1] && es'[i] == es[i];
      }
    }
  }

  lemma ReadingStays(ps: seq<Pool>, es: seq<Event>, q: Pool, e: Event, i: nat)
    requires i < |es| < |ps| && Scheduled(ps, es, i)
    ensures Scheduled(ps + [q], es + [e], i)
  {
    var k: nat :| k <= i && ReadBefore(ps, es, k, i);
    assert ReadBefore(ps + [q], es + [e], k, i);
  }

  /** One more step; a requester is made right after reading the status. */
  lemma Extended(ps: seq<Pool>, es: seq<Event>, p: Pool, leaked: int, q: Pool, e: Event)
    requires Ends(ps, es, p, leaked) && Step(p, q, e)
    requires e.MakeNextRequester? ==> p.numPending < MAX_PENDING && |p.requesters| < MAX_REQUESTERS
    ensures Ends(ps + [q], es + [e], q, leaked + Leak(p, e))
  {
    hide Step, Scheduled, IsRun, Leak;
    assert |ps| == |es| + 1 by { RunLength(1, ps, es); }
    var ps', es' := ps + [q], es + [e];
    StepsExtend(1, ps, es, q, e);
    forall i: nat | i < |es'| && es'[i].MakeNextRequester?
      ensures Scheduled(ps', es', i)
    {
      if i < |es| {
        assert es'[i] == es[i];
        ReadingStays(ps, es, q, e, i);
      } else {
        assert ReadBefore(ps', es', i, i);
        assert Scheduled(ps', es', i) by { JustRead(ps', es', i); }
      }
    }
    LeakedSame(ps, es, ps', es', |es|);
    assert ps'[|es|] == p && es'[|es|] == e;
  }

  lemma RunLength(start: nat, ps: seq<Pool>, es: seq<Event>)
    requires IsRun(start, ps, es)
    ensures |ps| == |es| + 1
  {
  }

  lemma JustRead(ps: seq<Pool>, es: seq<Event>, i: nat)
    requires i < |es| < |ps| && ReadBefore(ps, es, i, i)
    ensures Scheduled(ps, es, i)
  {
  }

  const PEER: PeerID := 9
  const FAR := 1000

  function Served(block: Block, redo: bool): Requester {
    Requester(Some(PEER), Some(block), if redo then Some(PEER) else None)
  }

  /** One requester, at height h, with its block; k requests counted that are not there. */
  function Resting(h: nat, k: nat, stopped: multiset<Requester>): Pool {
    Pool(map[h := Served(h, false)], h, map[PEER := Peer(FAR, 0, false)], FAR, k, stopped)
  }

  /** The blocks of two heights are in and, the peer having left, both are to be asked for again. */
  function Deserted(h: nat, k: nat, stopped: multiset<Requester>): Pool {
    Pool(map[h := Served(h, true), h + 1 := Served(h + 1, true)], h, map[], 0, k, stopped)
  }

  function BothServed(h: nat, k: nat, stopped: multiset<Requester>): Pool {
    Resting(h, k, stopped).(requesters := map[h := Served(h, false), h + 1 := Served(h + 1, false)])
  }

  /** A requester at the top of the pool gets its peer, and then its block. */
  lemma GetsBlock(ps: seq<Pool>, es: seq<Event>, p: Pool, h: nat, leaked: int) returns (ps': seq<Pool>, es': seq<Event>)
    requires Ends(ps, es, p, leaked) && h <= FAR
    requires h in p.requesters && p.requesters[h] == Requester(None, None, None) && p.peers == map[PEER := Peer(FAR, 0, false)]
    ensures Ends(ps', es', p.(requesters := p.requesters[h := Served(h, false)], numPending := p.numPending - 1), leaked)
  {
    hide Ends;
    var p1 := p.(requesters := p.requesters[h := Requester(Some(PEER), None, None)], peers := map[PEER := Peer(FAR, 1, false)]);
    assert p1 == Assign(p, h, PEER);
    Extended(ps, es, p, leaked, p1, Assigned(h, PEER));
    var p2 := p.(requesters := p.requesters[h := Served(h, false)], numPending := p.numPending - 1);
    assert p1.requesters[h := Served(h, false)] == p2.requesters;
    assert p2 == Add(p1, PEER, h, h).0;
    Extended(ps + [p1], es + [Assigned(h, PEER)], p1, leaked, p2, AddBlock(PEER, h, h));
    ps', es' := ps + [p1] + [p2], es + [Assigned(h, PEER)] + [AddBlock(PEER, h, h)];
  }

  /** A requester is made for the height above, and gets its block. */
  lemma SecondFills(ps: seq<Pool>, es: seq<Event>, h: nat, k: nat, stopped: multiset<Requester>) returns (ps': seq<Pool>, es': seq<Event>)
    requires Ends(ps, es, Resting(h, k, stopped), k) && k < MAX_PENDING && h < FAR
    ensures Ends(ps', es', BothServed(h, k, stopped), k)
  {
    hide Ends;
    var p := Resting(h, k, stopped);
    var p1 := MakeNext(p);
    assert p1 == p.(requesters := p.requesters[h + 1 := Requester(None, None, None)], numPending := k + 1);
    Extended(ps, es, p, k, p1, MakeNextRequester);
    ps', es' := GetsBlock(ps + [p1], es + [MakeNextRequester], p1, h + 1, k);
    assert p1.requesters[h + 1 := Served(h + 1, false)] == BothServed(h, k, stopped).requesters;
  }

  lemma PeerLeaves(ps: seq<Pool>, es: seq<Event>, h: nat, k: nat, stopped: multiset<Requester>)
    requires Ends(ps, es, BothServed(h, k, stopped), k)
    ensures Ends(ps + [Deserted(h, k, stopped)], es + [RemovePeer(PEER)], Deserted(h, k, stopped), k)
  {
    hide Ends;
    var p := BothServed(h, k, stopped);
    var q := Deserted(h, k, stopped);
    assert AskAll(p.requesters, PEER) == q.requesters;
    assert p.peers - {PEER} == map[];
    Extended(ps, es, p, k, q, RemovePeer(PEER));
  }

  /** Between the reactor's look and its pop the lower requester starts over: popped, it leaks. */
  lemma LeaksByPop(ps: seq<Pool>, es: seq<Event>, h: nat, k: nat, stopped: multiset<Requester>) returns (redone: Pool, p: Pool)
    requires Ends(ps, es, Deserted(h, k, stopped), k)
    ensures p == Pool(map[h + 1 := Served(h + 1, true)], h + 1, map[], 0, k + 1, stopped + multiset{Requester(None, None, None)})
    ensures Ends(ps + [redone] + [p], es + [TakeRedo(h)] + [PopRequest], p, k + 1)
  {
    hide Ends;
    var p0 := Deserted(h, k, stopped);
    redone := Redo(p0, h);
    assert redone == p0.(requesters := map[h := Requester(None, None, None), h + 1 := Served(h + 1, true)], numPending := k + 1);
    Extended(ps, es, p0, k, redone, TakeRedo(h));
    p := Pop(redone).value;
    assert redone.requesters - {h} == map[h + 1 := Served(h + 1, true)];
    Extended(ps + [redone], es + [TakeRedo(h)], redone, k, p, PopRequest);
  }

  /** Or it is popped with its block and, stopped, still starts over. */
  lemma LeaksByStopped(ps: seq<Pool>, es: seq<Event>, h: nat, k: nat, stopped: multiset<Requester>) returns (gone: Pool, p: Pool)
    requires Ends(ps, es, Deserted(h, k, stopped), k)
    ensures p == Pool(map[h + 1 := Served(h + 1, true)], h + 1, map[], 0, k + 1, stopped)
    ensures Ends(ps + [gone] + [p], es + [PopRequest] + [StoppedTakesRedo(Served(h, true))], p, k + 1)
  {
    hide Ends;
    var p0 := Deserted(h, k, stopped);
    gone := Pop(p0).value;
    assert p0.requesters - {h} == map[h + 1 := Served(h + 1, true)];
    Extended(ps, es, p0, k, gone, PopRequest);
    p := StoppedRedo(gone, Served(h, true));
    assert stopped + multiset{Served(h, true)} - multiset{Served(h, true)} == stopped;
    Extended(ps + [gone], es + [PopRequest], gone, k, p, StoppedTakesRedo(Served(h, true)));
  }

  /** The upper requester starts over as well and the peer, back again, serves it once more. */
  lemma Recovers(ps: seq<Pool>, es: seq<Event>, h: nat, k: nat, stopped: multiset<Requester>) returns (ps': seq<Pool>, es': seq<Event>)
    requires Ends(ps, es, Pool(map[h := Served(h, true)], h, map[], 0, k, stopped), k) && h <= FAR
    ensures Ends(ps', es', Resting(h, k, stopped), k)
  {
    hide Ends;
    var p := Pool(map[h := Served(h, true)], h, map[], 0, k, stopped);
    var p1 := p.(requesters := map[h := Requester(None, None, None)], numPending := k + 1);
    assert p1 == Redo(p, h);
    Extended(ps, es, p, k, p1, TakeRedo(h));
    var p2 := p1.(peers := map[PEER := Peer(FAR, 0, false)], maxPeerHeight := FAR);
    assert p2 == SetHeight(p1, PEER, FAR);
    Extended(ps + [p1], es + [TakeRedo(h)], p1, k, p2, SetPeerHeight(PEER, FAR));
    ps', es' := GetsBlock(ps + [p1] + [p2], es + [TakeRedo(h)] + [SetPeerHeight(PEER, FAR)], p2, h, k);
    assert p2.requesters[h := Served(h, false)] == Resting(h, k, stopped).requesters;
  }

  lemma FirstRests() returns (ps: seq<Pool>, es: seq<Event>)
    ensures Ends(ps, es, Resting(1, 0, multiset{}), 0)
  {
    hide Ends;
    var p0 := Pool(map[], 1, map[], 0, 0, multiset{});
    assert Ends([p0], [], p0, 0) by { NothingYet(); }
    var p1 := p0.(peers := map[PEER := Peer(FAR, 0, false)], maxPeerHeight := FAR);
    assert p1 == SetHeight(p0, PEER, FAR);
    Extended([p0], [], p0, 0, p1, SetPeerHeight(PEER, FAR));
    var p2 := p1.(requesters := map[1 := Requester(None, None, None)], numPending := 1);
    assert p2 == MakeNext(p1);
    Extended([p0] + [p1], [] + [SetPeerHeight(PEER, FAR)], p1, 0, p2, MakeNextRequester);
    ps, es := GetsBlock([p0] + [p1] + [p2], [] + [SetPeerHeight(PEER, FAR)] + [MakeNextRequester], p2, 1, 0);
    assert p2.requesters[1 := Served(1, false)] == Resting(1, 0, multiset{}).requesters;
  }

  lemma NothingYet()
    ensures var p := Pool(map[], 1, map[], 0, 0, multiset{}); Ends([p], [], p, 0)
  {
  }

  /** For every amount up to the pending limit there is a scheduled run in which that much has leaked. */
  lemma {:induction false} AnyLeakHappens(k: nat) returns (ps: seq<Pool>, es: seq<Event>, stopped: multiset<Requester>)
    requires k <= MAX_PENDING
    ensures Ends(ps, es, Resting(k + 1, k, stopped), k)
  {
    hide Ends, Resting, Deserted;
    if k == 0 {
      ps, es := FirstRests();
      stopped := multiset{};
    } else {
      ps, es, stopped := AnyLeakHappens(k - 1);
      ps, es := SecondFills(ps, es, k, k - 1, stopped);
      PeerLeaves(ps, es, k, k - 1, stopped);
      ps, es := ps + [Deserted(k, k - 1, stopped)], es + [RemovePeer(PEER)];
      var redone, p := LeaksByPop(ps, es, k, k - 1, stopped);
      ps, es := ps + [redone] + [p], es + [TakeRedo(k)] + [PopRequest];
      stopped := p.stopped;
      ps, es := Recovers(ps, es, k + 1, k, stopped);
    }
  }

  /** Both ways to leak happen after the reactor has seen two blocks: the lower requester starts over and
      is popped without its block, or it is popped with the block and, stopped, still starts over. Either
      way no requester lacks a block and the counter says one request is pending. */
  lemma LeaksHappen() returns (ps: seq<Pool>, es: seq<Event>, redone: Pool, popped: Pool, gone: Pool, stopped: Pool)
    ensures IsScheduledRun(1, ps, es) && PeeksTwo(ps[|es|])
    ensures IsScheduledRun(1, ps + [redone] + [popped], es + [TakeRedo(1)] + [PopRequest])
    ensures IsScheduledRun(1, ps + [gone] + [stopped], es + [PopRequest] + [StoppedTakesRedo(Served(1, true))])
    ensures Lacking(popped.requesters) == {} && popped.numPending == 1
    ensures Lacking(stopped.requesters) == {} && stopped.numPending == 1
  {
    hide Leaked, IsScheduledRun;
    ps, es := FirstRests();
    ps, es := SecondFills(ps, es, 1, 0, multiset{});
    PeerLeaves(ps, es, 1, 0, multiset{});
    ps, es := ps + [Deserted(1, 0, multiset{})], es + [RemovePeer(PEER)];
    redone, popped := LeaksByPop(ps, es, 1, 0, multiset{});
    gone, stopped := LeaksByStopped(ps, es, 1, 0, multiset{});
  }

  /** What has leaked never comes back. */
  lemma {:induction false} LeakStays(ps: seq<Pool>, es: seq<Event>, n: nat, m: nat)
    requires n <= m <= |es| <= |ps|
    ensures Leaked(ps, es, n) <= Leaked(ps, es, m)
    decreases m
  {
    if n < m {
      LeakStays(ps, es, n, m - 1);
    }
  }

  /** The height after the last one asked for. */
  function End(p: Pool): nat {
    p.height + |p.requesters|
  }

  lemma StepEnd(p: Pool, q: Pool, e: Event)
    requires Contiguous(p) && Step(p, q, e)
    ensures End(q) <= End(p) + (if e.MakeNextRequester? then 1 else 0)
  {
    hide Interval, IsMax, AskAll, Add, SetHeight, Assign, Redo, StoppedRedo;
    match e {
      case MakeNextRequester =>
      case PopRequest => LackingRemove(p.requesters, p.height);
      case _ =>
        StepKeepsKeys(p, q, e);
        SameKeys(p.requesters, q.requesters);
    }
  }

  function Made(es: seq<Event>, n: nat, m: nat): nat
    requires n <= m <= |es|
    decreases m
  {
    if n == m then 0 else Made(es, n, m - 1) + (if es[m - 1].MakeNextRequester? then 1 else 0)
  }

  lemma {:induction false} NoneMade(es: seq<Event>, n: nat, m: nat)
    requires n <= m <= |es| && forall j :: n <= j < m ==> !es[j].MakeNextRequester?
    ensures Made(es, n, m) == 0
    decreases m
  {
    if n < m {
      NoneMade(es, n, m - 1);
    }
  }

  /** Once the leak alone fills the pending limit, the routine makes at most the one requester it had
      already decided on. */
  lemma {:induction false} AtMostOneMade(start: nat, ps: seq<Pool>, es: seq<Event>, n: nat, m: nat)
    requires IsScheduledRun(start, ps, es) && n <= m <= |es| && Leaked(ps, es, n) >= MAX_PENDING
    ensures Made(es, n, m) <= 1
    decreases m
  {
    hide Contiguous, Step, Dominates, Lacking;
    if n < m {
      AtMostOneMade(start, ps, es, n, m - 1);
      if es[m - 1].MakeNextRequester? {
        assert Scheduled(ps, es, m - 1);
        var k: nat :| k <= m - 1 && ReadBefore(ps, es, k, m - 1);
        if k >= n {
          RunInvariant(start, ps, es, k);
          LeakStays(ps, es, n, k);
          assert false;
        }
        NoneMade(es, n, m - 1);
      }
    }
  }

  lemma {:induction false} EndMoves(start: nat, ps: seq<Pool>, es: seq<Event>, n: nat, m: nat)
    requires IsRun(start, ps, es) && n <= m <= |es|
    ensures End(ps[m]) <= End(ps[n]) + Made(es, n, m)
    decreases m
  {
    hide Step, Contiguous;
    if n < m {
      EndMoves(start, ps, es, n, m - 1);
      RunInvariant(start, ps, es, m - 1);
      StepEnd(ps[m - 1], ps[m], es[m - 1]);
    }
  }

  /** Over every scheduled run: once the leak fills the pending limit the pool never gets past the
      heights it had asked for by then and one more. */
  lemma SyncStops(start: nat, ps: seq<Pool>, es: seq<Event>, n: nat, m: nat)
    requires IsScheduledRun(start, ps, es) && n <= m <= |es| && Leaked(ps, es, n) >= MAX_PENDING
    ensures ps[m].height + |ps[m].requesters| <= ps[n].height + |ps[n].requesters| + 1
  {
    hide IsRun, Leaked;
    AtMostOneMade(start, ps, es, n, m);
    EndMoves(start, ps, es, n, m);
  }

  /** The limit is reached while the peers' chain goes on well past what the pool can still ask for. */
  lemma SyncStopsSomewhere() returns (ps: seq<Pool>, es: seq<Event>)
    ensures IsScheduledRun(1, ps, es) && Leaked(ps, es, |es|) >= MAX_PENDING
    ensures ps[|es|].height == MAX_PENDING + 1 && ps[|es|].maxPeerHeight > MAX_PENDING + 3
  {
    hide IsScheduledRun, Leaked;
    var stopped;
    ps, es, stopped := AnyLeakHappens(MAX_PENDING);
  }
}
