/** What the mempool guarantees about cross messages: a packed message leaves it with a durable receipt,
    after which submitting it changes nothing, and only a peer's gossip can bring it back; and a block
    takes exactly the prefix that fits. */
module MempoolSafety {
  import opened Options
  import opened KeyedList
  import opened CrossMessages
  import opened Mempool
  import TxCache

  // ----- one update ------------------------------------------------------------------------------

  lemma {:induction false} UnpackedExactly(txs: seq<Tx>, keys: set<Key>, tx: Tx)
    ensures tx in Unpacked(txs, keys) <==> tx in txs && !Packed(tx, keys)
  {
    if txs != [] {
      var n := |txs| - 1;
      UnpackedExactly(txs[..n], keys, tx);
      assert txs == txs[..n] + [txs[n]];
    }
  }

  lemma {:induction false} UncommittedExactly(txs: seq<Tx>, ids: set<nat>, tx: Tx)
    ensures tx in Uncommitted(txs, ids) <==> tx in txs && tx.id !in ids
  {
    if txs != [] {
      var n := |txs| - 1;
      UncommittedExactly(txs[..n], ids, tx);
      assert txs == txs[..n] + [txs[n]];
    }
  }

  lemma {:induction false} PackedKeysExactly(txs: seq<Tx>, keys: set<Key>, k: Key)
    ensures k in PackedKeys(txs, keys) <==> k in keys && exists tx :: tx in txs && HasKey(tx, k)
  {
    if txs != [] {
      var n := |txs| - 1;
      PackedKeysExactly(txs[..n], keys, k);
      assert txs == txs[..n] + [txs[n]];
      if Packed(txs[n], keys) && txs[n].content.cm.key == k {
        assert txs[n] in txs && HasKey(txs[n], k);
        assert PackedKeys(txs, keys)[|PackedKeys(txs, keys)| - 1] == k;
      }
    }
  }

  /** Removing rows key by key is one pass over the table, and leaves a receipt exactly for each key
      that had a row. */
  lemma {:induction false} RemoveRowsExactly(p: Pool, ks: seq<Key>, k: Key)
    ensures RemoveRows(p, ks).rows == RemoveEach(p.rows, RowKey, ks)
    ensures RemoveRows(p, ks) == p.(rows := RemoveRows(p, ks).rows, receipts := RemoveRows(p, ks).receipts)
    ensures k in RemoveRows(p, ks).receipts <==> k in p.receipts || (k in ks && HasRow(p.rows, k))
  {
    if ks != [] {
      var n := |ks| - 1;
      RemoveRowsExactly(p, ks[..n], k);
      assert ks == ks[..n] + [ks[n]];
      var q := RemoveRows(p, ks[..n]);
      RowFound(q.rows, ks[n]);
      if FirstRow(q.rows, ks[n]).None? {
        RemoveAbsent(q.rows, RowKey, ks[n]);
      }
      LastRowsLeft(p.rows, ks[..n], ks[n]);
    }
  }

  predicate HasRow(rows: seq<Row>, k: Key) {
    exists r :: r in rows && r.key == k
  }

  lemma {:induction false} RowFound(rows: seq<Row>, k: Key)
    ensures FirstRow(rows, k).Some? <==> HasRow(rows, k)
    ensures FirstRow(rows, k).None? ==> forall i :: 0 <= i < |rows| ==> rows[i].key != k
  {
    if rows != [] {
      RowFound(rows[1..], k);
      assert rows == [rows[0]] + rows[1..];
      assert rows[0] in rows;
    }
  }

  /** A row that is gone was removed for its own key. */
  lemma {:induction false} LastRowsLeft(rows: seq<Row>, ks: seq<Key>, k: Key)
    ensures HasRow(RemoveEach(rows, RowKey, ks), k) ==> HasRow(rows, k)
    ensures HasRow(rows, k) && k !in ks ==> HasRow(RemoveEach(rows, RowKey, ks), k)
  {
    if ks != [] {
      var n := |ks| - 1;
      LastRowsLeft(rows, ks[..n], k);
      assert ks == ks[..n] + [ks[n]];
      RemoveFirstMembers(RemoveEach(rows, RowKey, ks[..n]), ks[n], k);
    }
  }

  lemma {:induction false} RemoveFirstMembers(rows: seq<Row>, gone: Key, k: Key)
    ensures HasRow(RemoveFirst(rows, RowKey, gone), k) ==> HasRow(rows, k)
    ensures HasRow(rows, k) && k != gone ==> HasRow(RemoveFirst(rows, RowKey, gone), k)
  {
    if rows != [] {
      RemoveFirstMembers(rows[1..], gone, k);
      assert rows == [rows[0]] + rows[1..];
      if rows[0].key != gone {
        assert RemoveFirst(rows, RowKey, gone) == [rows[0]] + RemoveFirst(rows[1..], RowKey, gone);
      }
    }
  }

  /** After an update at a height: no packed message is left; a key newly has a receipt exactly when
      it was packed at that height and some pool message carried it; and the rows that went are, per
      key, as many of the oldest as messages removed. */
  lemma UpdateSettles(p: Pool, c: Config, height: int, txs: seq<Committed>, k: Key, tx: Tx)
    ensures var keys := PackedAt(p.rows, height);
            var q := Update(p, c, height, txs);
            && (tx in q.txs <==> tx in p.txs && !Packed(tx, keys) && !(exists t :: t in txs && !t.incoming && t.pooled == tx.id))
            && (k in q.receipts <==> k in p.receipts || (k in keys && exists t :: t in p.txs && HasKey(t, k)))
            && q.rows == DropDue(p.rows, RowKey, multiset(PackedKeys(p.txs, keys)))
            && q.pending == p.pending
  {
    hide RemoveRows, DropDue, PackedKeys, Unpacked, Uncommitted;
    var keys := PackedAt(p.rows, height);
    var ks := PackedKeys(p.txs, keys);
    var p1 := p.(cache := PushCommitted(p.cache, c.cacheSize, txs));
    RemoveRowsExactly(p1, ks, k);
    RemoveEachIsOnePass(p.rows, RowKey, ks);
    PackedKeysExactly(p.txs, keys, k);
    UnpackedExactly(p.txs, keys, tx);
    UncommittedExactly(Unpacked(p.txs, keys), PooledIds(txs), tx);
    assert k in keys ==> HasRow(p.rows, k);
    assert forall t <- txs :: !t.incoming ==> t.pooled in PooledIds(txs);
  }

  /** A block's transactions are the ordinary entries and the relay transactions of the messages taken. */
  lemma {:induction false} ExpandExactly(txs: seq<Tx>, x: nat)
    ensures x in Expand(txs) <==> exists tx :: tx in txs && Unpacks(tx, x)
  {
    if txs != [] {
      var n := |txs| - 1;
      ExpandExactly(txs[..n], x);
      assert txs == txs[..n] + [txs[n]];
      if txs[n].content.Message? && txs[n].content.cm.inner.Some? {
        RelayIdsExactly(txs[n].content.cm.inner.value, x);
      }
      assert x in Expand1(txs[n]) <==> Unpacks(txs[n], x);
      assert txs[n] in txs && (forall tx <- txs[..n] :: tx in txs);
    }
  }

  predicate Unpacks(tx: Tx, x: nat) {
    if tx.content.Ordinary? then tx.id == x else tx.content.cm.inner.Some? && InnerTx(x, true) in tx.content.cm.inner.value
  }

  lemma {:induction false} RelayIdsExactly(inner: seq<InnerTx>, x: nat)
    ensures x in RelayIds(inner) <==> InnerTx(x, true) in inner
  {
    if inner != [] {
      var n := |inner| - 1;
      RelayIdsExactly(inner[..n], x);
      assert inner == inner[..n] + [inner[n]];
    }
  }

  // ----- runs ------------------------------------------------------------------------------------

  datatype Event =
    | Submit(tx: Tx, checks: Checks)
    | Gossip(heard: Tx, checked: Checks)
    | CommitBlock(height: int, txs: seq<Committed>)
    | ReapRows(count: nat, height: int)
    | SyncRow(row: Row)
    | ModifyRows(height: int, packages: seq<Key>)
    | Recheck(bad: set<nat>)
    | SendOut(message: CrossMessage)
    | ResendCall
    | Restart

  /** Transactions a recheck throws out leave the cache too. */
  function Forget(cache: seq<nat>, txs: seq<Tx>, bad: set<nat>): seq<nat> {
    if txs == [] then cache
    else
      var rest := Forget(cache, txs[..|txs| - 1], bad);
      if txs[|txs| - 1].id in bad then TxCache.Without(rest, txs[|txs| - 1].id) else rest
  }

  /** Any number of readable messages may have got rows from a reap; only receipts outlive a restart. */
  function Step(p: Pool, c: Config, e: Event): Pool {
    match e
    case Submit(tx, checks) => CheckTx(p, c, tx, checks).0
    case Gossip(tx, checks) => Gossiped(p, c, tx, checks)
    case CommitBlock(height, txs) => Update(p, c, height, txs)
    case ReapRows(count, height) =>
      var all := ReadableOf(p.txs);
      p.(rows := p.rows + RowsOf(all[..if count <= |all| then count else |all|], height))
    case SyncRow(row) => p.(rows := p.rows + [row])
    case ModifyRows(height, packages) => p.(rows := Modified(p.rows, height, packages))
    case Recheck(bad) =>
      var left := Uncommitted(p.txs, bad);
      p.(txs := left, txsBytes := p.txsBytes - Bytes(p.txs) + Bytes(left), cache := Forget(p.cache, p.txs, bad))
    case SendOut(m) => p.(pending := p.pending + [Entry(m, 0)])
    case ResendCall => p.(pending := BumpAll(p.pending))
    case Restart => Pool([], 0, [], p.receipts, [], [])
  }

  ghost predicate IsRun(c: Config, ps: seq<Pool>, es: seq<Event>) {
    && |ps| == |es| + 1 && ps[0] == Pool([], 0, [], map[], [], [])
    && (forall i :: 0 <= i < |es| ==> ps[i + 1] == Step(ps[i], c, es[i]))
  }

  /** A peer gossips a foreign message with the key and it is admitted. */
  predicate Returns(p: Pool, c: Config, e: Event, k: Key) {
    e.Gossip? && Foreign(e.heard, c, k) && Admits(p, c, e.heard, e.checked)
  }

  lemma StepClosedExactlyWhen(p: Pool, c: Config, e: Event, k: Key)
    requires Closed(p, c, k)
    ensures Closed(Step(p, c, e), c, k) <==> !Returns(p, c, e, k)
  {
    hide RemoveEach, Uncommitted, Update, RowsOf, ReadableOf, BumpAll, Gossiped, Admits;
    var q := Step(p, c, e);
    match e {
      case Gossip(tx, checks) => GossipReopensExactlyWhen(p, c, tx, checks, k);
      case CommitBlock(height, txs) =>
        forall tx: Tx
          ensures tx in q.txs ==> tx in p.txs
          ensures k in q.receipts
        {
          UpdateSettles(p, c, height, txs, k, tx);
        }
        UpdateSettles(p, c, height, txs, k, Tx(0, 0, 0, Ordinary));
      case Recheck(bad) =>
        forall tx: Tx
          ensures tx in q.txs ==> tx in p.txs
        {
          UncommittedExactly(p.txs, bad, tx);
        }
      case _ =>
    }
  }

  lemma StepKeepsReceipt(p: Pool, c: Config, e: Event, k: Key)
    requires k in p.receipts
    ensures k in Step(p, c, e).receipts
  {
    hide RemoveEach, Uncommitted, Update, RowsOf, ReadableOf, BumpAll;
    match e {
      case CommitBlock(height, txs) => UpdateSettles(p, c, height, txs, k, Tx(0, 0, 0, Ordinary));
      case _ =>
    }
  }

  lemma {:induction false} ReceiptStays(c: Config, ps: seq<Pool>, es: seq<Event>, k: Key, i: nat, j: nat)
    requires IsRun(c, ps, es) && i <= j < |ps| && k in ps[i].receipts
    ensures k in ps[j].receipts
    decreases j
  {
    hide Step;
    if i < j {
      ReceiptStays(c, ps, es, k, i, j - 1);
      StepKeepsReceipt(ps[j - 1], c, es[j - 1], k);
    }
  }

  lemma {:induction false} ClosedUnlessReturned(c: Config, ps: seq<Pool>, es: seq<Event>, k: Key, i: nat, j: nat)
    requires IsRun(c, ps, es) && i <= j < |ps| && Closed(ps[i], c, k)
    requires forall m :: i <= m < j ==> !Returns(ps[m], c, es[m], k)
    ensures Closed(ps[j], c, k)
    decreases j
  {
    hide Step, Closed, Returns;
    if i < j {
      ClosedUnlessReturned(c, ps, es, k, i, j - 1);
      StepClosedExactlyWhen(ps[j - 1], c, es[j - 1], k);
    }
  }

  /** When a block settles a packed key that a pool message carries, then in every later state of any run,
      restarts and gossip included, the key has its receipt and submitting a foreign message with it leaves
      the whole mempool as it was. The pool holds none such all the way exactly when on the way no peer
      gossiped one that was admitted. */
  lemma SettledForever(c: Config, ps: seq<Pool>, es: seq<Event>, i: nat, t: Tx, j: nat, again: Tx, checks: Checks)
    requires IsRun(c, ps, es) && i < j < |ps| && es[i].CommitBlock?
    requires t in ps[i].txs && Packed(t, PackedAt(ps[i].rows, es[i].height))
    requires Foreign(again, c, t.content.cm.key)
    ensures t.content.cm.key in ps[j].receipts
    ensures CheckTx(ps[j], c, again, checks) == (ps[j], AlreadyReceipted)
    ensures (forall m :: i < m <= j ==> Closed(ps[m], c, t.content.cm.key))
            <==> (forall m :: i < m < j ==> !Returns(ps[m], c, es[m], t.content.cm.key))
  {
    hide Update, Step, Returns;
    var k := t.content.cm.key;
    SettlesNow(c, ps, es, i, t);
    ReceiptStays(c, ps, es, k, i + 1, j);
    if forall m :: i < m < j ==> !Returns(ps[m], c, es[m], k) {
      forall m | i < m <= j
        ensures Closed(ps[m], c, k)
      {
        ClosedUnlessReturned(c, ps, es, k, i + 1, m);
      }
    } else {
      var m :| i < m < j && Returns(ps[m], c, es[m], k);
      if Closed(ps[m], c, k) {
        StepClosedExactlyWhen(ps[m], c, es[m], k);
        assert !Closed(ps[m + 1], c, k);
      }
    }
  }

  lemma SettlesNow(c: Config, ps: seq<Pool>, es: seq<Event>, i: nat, t: Tx)
    requires IsRun(c, ps, es) && i < |es| && es[i].CommitBlock?
    requires t in ps[i].txs && Packed(t, PackedAt(ps[i].rows, es[i].height))
    ensures Closed(ps[i + 1], c, t.content.cm.key)
  {
    hide Update, Step;
    var k := t.content.cm.key;
    assert ps[i + 1] == Update(ps[i], c, es[i].height, es[i].txs) by { StepIsUpdate(c, ps, es, i); }
    assert HasKey(t, k);
    forall tx: Tx
      ensures tx in ps[i + 1].txs ==> !HasKey(tx, k)
      ensures k in ps[i + 1].receipts
    {
      UpdateSettles(ps[i], c, es[i].height, es[i].txs, k, tx);
    }
    UpdateSettles(ps[i], c, es[i].height, es[i].txs, k, t);
  }

  lemma StepIsUpdate(c: Config, ps: seq<Pool>, es: seq<Event>, i: nat)
    requires IsRun(c, ps, es) && i < |es| && es[i].CommitBlock?
    ensures ps[i + 1] == Update(ps[i], c, es[i].height, es[i].txs)
  {
  }

  const SMALL := Config(10, 1000, 100, 10, "A")
  const PASSES := Checks(true, true, true, true)
  const ABROAD := CrossMessage(1, Key(1, []), "B", "A", [], Some([]))

  /** The message in bytes that differ by the time they were made. */
  function Sent(at: nat): Tx {
    Tx(at, 1, 0, Message(ABROAD))
  }

  function Pools(es: seq<Event>, n: nat): Pool
    requires n <= |es|
  {
    if n == 0 then Pool([], 0, [], map[], [], []) else Step(Pools(es, n - 1), SMALL, es[n - 1])
  }

  function AllPools(es: seq<Event>): seq<Pool> {
    seq(|es| + 1, n requires 0 <= n <= |es| => Pools(es, n))
  }

  lemma AllPoolsRun(es: seq<Event>)
    ensures IsRun(SMALL, AllPools(es), es)
  {
    hide Step;
    forall i | 0 <= i < |es|
      ensures AllPools(es)[i + 1] == Step(AllPools(es)[i], SMALL, es[i])
    {
      assert Pools(es, i + 1) == Step(Pools(es, i), SMALL, es[i]);
    }
  }

  /** The message is submitted, packed and settled, and then a peer gossips it: after a restart in the
      same bytes, or in other bytes right away. */
  function Returning(restart: bool): seq<Event> {
    [Submit(Sent(1), PASSES), ReapRows(1, 5), CommitBlock(5, []),
     if restart then Restart else ResendCall, Gossip(Sent(if restart then 1 else 2), PASSES), ReapRows(1, 6)]
  }

  lemma PackedFirst(restart: bool)
    ensures var es := Returning(restart);
            && Sent(1) in Pools(es, 2).txs && ABROAD.key in PackedAt(Pools(es, 2).rows, 5)
            && Pools(es, 2) == Pool([Sent(1)], 1, [RowFor(ABROAD, 5)], map[], [], [1])
  {
    hide Update;
    var es := Returning(restart);
    OneReaped(Sent(1), 5);
    assert Pools(es, 0) == Pool([], 0, [], map[], [], []);
    assert Pools(es, 1) == Pool([Sent(1)], 1, [], map[], [], [1]);
    assert Pools(es, 2) == Pools(es, 1).(rows := [RowFor(ABROAD, 5)]);
    assert RowFor(ABROAD, 5) in Pools(es, 2).rows;
  }

  lemma OneReaped(tx: Tx, height: int)
    requires tx.content == Message(ABROAD)
    ensures ReadableOf([tx]) == [tx] && [tx][..1] == [tx] && RowsOf([tx], height) == [RowFor(ABROAD, height)]
  {
    assert [tx][..0] == [];
    assert ReadableOf([]) == [] && RowsOf([], height) == [];
  }

  lemma OnePacked()
    ensures var keys := PackedAt([RowFor(ABROAD, 5)], 5);
            keys == {ABROAD.key} && Unpacked([Sent(1)], keys) == [] && PackedKeys([Sent(1)], keys) == [ABROAD.key]
    ensures Bytes([Sent(1)]) == 1 && Bytes([]) == 0
  {
    var rows, txs, none: seq<Tx> := [RowFor(ABROAD, 5)], [Sent(1)], [];
    assert rows[0] in rows;
    var keys := PackedAt(rows, 5);
    assert keys == {ABROAD.key};
    assert txs[..0] == none;
    assert Unpacked(none, keys) == [] && PackedKeys(none, keys) == [] && Bytes(none) == 0;
  }

  lemma OneRowRemoved(p: Pool)
    requires p.rows == [RowFor(ABROAD, 5)]
    ensures RemoveRows(p, [ABROAD.key]) == p.(rows := [], receipts := p.receipts[ABROAD.key := ReceiptOf(RowFor(ABROAD, 5))])
  {
    RemoveRowsSnoc(p, [], ABROAD.key);
    assert [] + [ABROAD.key] == [ABROAD.key];
    RemoveRowAt(p, ABROAD.key, 0);
    assert p.rows[..0] + p.rows[1..] == [];
  }

  /** What the first block leaves behind. */
  lemma SettledFirst(restart: bool)
    ensures var p := Pools(Returning(restart), 3);
            && ABROAD.key in p.receipts && p.txs == [] && p.txsBytes == 0 && p.rows == [] && p.pending == [] && p.cache == [1]
  {
    hide Pools, PackedAt, Unpacked, PackedKeys, RemoveRows, Bytes, Uncommitted;
    PackedFirst(restart);
    var p := Pools(Returning(restart), 2);
    assert Pools(Returning(restart), 3) == Update(p, SMALL, 5, []) by { ThirdPool(restart); }
    OnePacked();
    OneRowRemoved(p);
    assert Uncommitted([], PooledIds([])) == [] by { NothingCommitted(); }
  }

  lemma NothingCommitted()
    ensures Uncommitted([], PooledIds([])) == []
  {
  }

  lemma ThirdPool(restart: bool)
    ensures Pools(Returning(restart), 3) == Update(Pools(Returning(restart), 2), SMALL, 5, [])
  {
    hide Update;
  }

  /** The peer's message is admitted. */
  lemma HeardAgain(restart: bool)
    ensures var es := Returning(restart);
            var p, tx := Pools(es, 3), Sent(if restart then 1 else 2);
            var q := Pool([], 0, [], p.receipts, [], if restart then [] else [1]);
            && Pools(es, 4) == q && Returns(q, SMALL, es[4], ABROAD.key)
            && Pools(es, 5) == Pool([tx], 1, [], p.receipts, [], q.cache + [tx.id])
  {
    hide Update;
    var es := Returning(restart);
    SettledFirst(restart);
    assert Pools(es, 4) == Step(Pools(es, 3), SMALL, es[3]);
    assert BumpAll([]) == [];
    assert Pools(es, 5) == Step(Pools(es, 4), SMALL, es[4]);
  }

  lemma PackedAgain(restart: bool)
    ensures var es := Returning(restart);
            var p, tx := Pools(es, 6), Sent(if restart then 1 else 2);
            p.receipts == Pools(es, 3).receipts && tx in p.txs && RowFor(ABROAD, 6) in p.rows
  {
    hide Update, Pools;
    var es := Returning(restart);
    var tx := Sent(if restart then 1 else 2);
    HeardAgain(restart);
    OneReaped(tx, 6);
    assert Pools(es, 6) == Step(Pools(es, 5), SMALL, es[5]) by { LastPool(es); }
    assert [] + [RowFor(ABROAD, 6)] == [RowFor(ABROAD, 6)];
  }

  lemma LastPool(es: seq<Event>)
    requires |es| == 6
    ensures Pools(es, 6) == Step(Pools(es, 5), SMALL, es[5])
  {
  }

  /** Both runs settle the key, and then the pool holds the message again and it is packed a second time,
      its receipt notwithstanding. */
  lemma MessageComesBack(restart: bool)
    ensures var es := Returning(restart);
            var ps := AllPools(es);
            && IsRun(SMALL, ps, es) && Closed(ps[3], SMALL, ABROAD.key) && Returns(ps[4], SMALL, es[4], ABROAD.key)
            && ABROAD.key in ps[6].receipts && ABROAD.key in PackedAt(ps[6].rows, 6)
            && exists tx :: tx in ps[6].txs && Packed(tx, PackedAt(ps[6].rows, 6))
  {
    hide Update, Step, Pools, IsRun;
    AllPoolsRun(Returning(restart));
    SettledFirst(restart);
    HeardAgain(restart);
    PackedAgain(restart);
  }

  // ----- what the cache remembers ------------------------------------------------------------------

  /** The hashes of the committed transactions that were in this shard's pools, in order. */
  function OwnHashes(txs: seq<Committed>): seq<nat> {
    if txs == [] then []
    else OwnHashes(txs[..|txs| - 1]) + (if txs[|txs| - 1].incoming then [] else [txs[|txs| - 1].hash])
  }

  lemma {:induction false} CommittedPushed(cache: seq<nat>, size: nat, txs: seq<Committed>)
    ensures PushCommitted(cache, size, txs) == TxCache.PushOnto(cache, size, OwnHashes(txs))
  {
    hide TxCache.Pushed;
    if txs != [] {
      var k := |txs| - 1;
      CommittedPushed(cache, size, txs[..k]);
      if !txs[k].incoming {
        var hs := OwnHashes(txs[..k]) + [txs[k].hash];
        assert hs[..|hs| - 1] == OwnHashes(txs[..k]);
      } else {
        assert OwnHashes(txs) == OwnHashes(txs[..k]);
      }
    }
  }

  lemma {:induction false} OwnHashAt(txs: seq<Committed>, i: nat) returns (j: nat)
    requires i < |txs| && !txs[i].incoming
    ensures j < |OwnHashes(txs)| && OwnHashes(txs)[j] == txs[i].hash
  {
    var k := |txs| - 1;
    if i == k {
      j := |OwnHashes(txs)| - 1;
    } else {
      j := OwnHashAt(txs[..k], i);
    }
  }

  /** The cache lists no hash twice and stays within its size. */
  ghost predicate CacheTidy(p: Pool, c: Config) {
    TxCache.Distinct(p.cache) && |p.cache| <= c.cacheSize
  }

  lemma {:induction false} ForgetKeeps(c: Config, cache: seq<nat>, txs: seq<Tx>, bad: set<nat>)
    requires TxCache.Distinct(cache) && |cache| <= c.cacheSize
    ensures TxCache.Distinct(Forget(cache, txs, bad)) && |Forget(cache, txs, bad)| <= c.cacheSize
  {
    hide TxCache.Distinct;
    if txs != [] {
      ForgetKeeps(c, cache, txs[..|txs| - 1], bad);
      TxCache.WithoutKeeps(Forget(cache, txs[..|txs| - 1], bad), txs[|txs| - 1].id, 0);
    }
  }

  lemma {:induction false} PushOntoKeeps(c: Config, cache: seq<nat>, hs: seq<nat>)
    requires TxCache.Distinct(cache) && |cache| <= c.cacheSize
    ensures TxCache.Distinct(TxCache.PushOnto(cache, c.cacheSize, hs)) && |TxCache.PushOnto(cache, c.cacheSize, hs)| <= c.cacheSize
  {
    hide TxCache.Distinct, TxCache.Pushed;
    if hs != [] {
      PushOntoKeeps(c, cache, hs[..|hs| - 1]);
      TxCache.PushedDistinct(TxCache.PushOnto(cache, c.cacheSize, hs[..|hs| - 1]), c.cacheSize, hs[|hs| - 1]);
    }
  }

  lemma UpdateCaches(p: Pool, c: Config, height: int, txs: seq<Committed>)
    ensures Update(p, c, height, txs).cache == TxCache.PushOnto(p.cache, c.cacheSize, OwnHashes(txs))
  {
    hide RemoveRows, PackedKeys, Unpacked, Uncommitted, TxCache.Pushed, TxCache.PushOnto, PushCommitted;
    CommittedPushed(p.cache, c.cacheSize, txs);
    var p1 := p.(cache := PushCommitted(p.cache, c.cacheSize, txs));
    RemoveRowsExactly(p1, PackedKeys(p1.txs, PackedAt(p1.rows, height)), Key(0, []));
  }

  lemma StepKeepsCache(p: Pool, c: Config, e: Event)
    requires CacheTidy(p, c)
    ensures CacheTidy(Step(p, c, e), c)
  {
    hide RemoveEach, Uncommitted, Update, RowsOf, ReadableOf, BumpAll, CheckTxWithInfo, TxCache.Distinct, TxCache.Pushed, TxCache.Without, Forget, TxCache.PushOnto;
    match e {
      case Submit(tx, checks) =>
        SubmittedExactly(p, c, tx, checks);
        TxCache.PushedDistinct(p.cache, c.cacheSize, tx.id);
        TxCache.WithoutKeeps(TxCache.Pushed(p.cache, c.cacheSize, tx.id), tx.id, 0);
      case Gossip(tx, checks) =>
        AnsweredExactly(p, c, tx, checks, false);
        TxCache.PushedDistinct(p.cache, c.cacheSize, tx.id);
        TxCache.WithoutKeeps(TxCache.Pushed(p.cache, c.cacheSize, tx.id), tx.id, 0);
      case CommitBlock(height, txs) =>
        UpdateCaches(p, c, height, txs);
        PushOntoKeeps(c, p.cache, OwnHashes(txs));
      case Recheck(bad) => ForgetKeeps(c, p.cache, p.txs, bad);
      case Restart => NothingCached(c);
      case _ =>
    }
  }

  lemma NothingCached(c: Config)
    ensures CacheTidy(Pool([], 0, [], map[], [], []), c)
  {
  }

  lemma {:induction false} RunCacheTidy(c: Config, ps: seq<Pool>, es: seq<Event>, i: nat)
    requires IsRun(c, ps, es) && i < |ps|
    ensures CacheTidy(ps[i], c)
  {
    hide Step, CacheTidy;
    if i == 0 {
      NothingCached(c);
    } else {
      RunCacheTidy(c, ps, es, i - 1);
      StepKeepsCache(ps[i - 1], c, es[i - 1]);
    }
  }

  /** Over every run: after a block the cache lists exactly the most recent of what it listed and the
      block's own transactions, in order, and nothing for those that came in with messages. So unless the
      block holds more own transactions than the cache has places, each of them is refused as cached when
      it comes again, whatever it carries, if only it passes the guards asked before. */
  lemma CommittedIsRefused(c: Config, ps: seq<Pool>, es: seq<Event>, i: nat, n: nat, tx: Tx, checks: Checks, receipt: bool)
    requires IsRun(c, ps, es) && i < |es| && es[i].CommitBlock? && n < |es[i].txs|
    ensures ps[i + 1].cache == TxCache.Last(TxCache.ByLastUse(ps[i].cache + OwnHashes(es[i].txs)), c.cacheSize)
    ensures !es[i].txs[n].incoming && |OwnHashes(es[i].txs)| <= c.cacheSize && tx.id == es[i].txs[n].hash
            && Passes(3, ps[i + 1], c, tx, checks, receipt) ==>
              CheckTxWithInfo(ps[i + 1], c, tx, checks, receipt).1 == InCache
  {
    hide Step, TxCache.Last, TxCache.ByLastUse, CheckTxWithInfo, Fails;
    var txs := es[i].txs;
    StepIsUpdate(c, ps, es, i);
    RunCacheTidy(c, ps, es, i);
    UpdateCaches(ps[i], c, es[i].height, txs);
    TxCache.PushedOntoHoldsMostRecent(ps[i].cache, c.cacheSize, OwnHashes(txs));
    if !txs[n].incoming && |OwnHashes(txs)| <= c.cacheSize && tx.id == txs[n].hash {
      var j := OwnHashAt(txs, n);
      TxCache.PushedIsFound(ps[i].cache, c.cacheSize, OwnHashes(txs), j);
      AnsweredExactly(ps[i + 1], c, tx, checks, receipt);
      CachedFails(ps[i + 1], c, tx, checks, receipt);
    }
  }

  lemma CachedFails(p: Pool, c: Config, tx: Tx, checks: Checks, receipt: bool)
    ensures Fails(InCache, p, c, tx, checks, receipt) <==> tx.id in p.cache
  {
  }

  /** The byte counter is the pool's size in every state of every run. */
  lemma {:induction false} BytesCounted(c: Config, ps: seq<Pool>, es: seq<Event>, i: nat)
    requires IsRun(c, ps, es) && i < |ps|
    ensures ps[i].txsBytes == Bytes(ps[i].txs)
  {
    if i > 0 {
      BytesCounted(c, ps, es, i - 1);
      StepCounts(ps[i - 1], c, es[i - 1]);
    }
  }

  lemma StepCounts(p: Pool, c: Config, e: Event)
    requires p.txsBytes == Bytes(p.txs)
    ensures Step(p, c, e).txsBytes == Bytes(Step(p, c, e).txs)
  {
    hide RemoveEach, Uncommitted, Unpacked, RowsOf, ReadableOf, BumpAll, Bytes, PackedKeys, RemoveRows;
    match e {
      case Submit(tx, checks) => BytesSnoc(p.txs, tx);
      case Gossip(tx, checks) => BytesSnoc(p.txs, tx);
      case CommitBlock(height, txs) =>
      case Restart => PackedNone(p, {});
      case _ =>
    }
  }

  // ----- reaping ---------------------------------------------------------------------------------

  /** There is one longest prefix that fits. */
  lemma LongestIsUnique(overhead: nat -> nat, txs: seq<Tx>, maxBytes: int, maxGas: int, m: nat, n: nat)
    requires Longest(overhead, txs, maxBytes, maxGas, m) && Longest(overhead, txs, maxBytes, maxGas, n)
    ensures m == n
  {
    if m < n {
      FitsLess(overhead, txs, maxBytes, maxGas, m + 1, n);
    } else if n < m {
      FitsLess(overhead, txs, maxBytes, maxGas, n + 1, m);
    }
  }

  lemma FitsLess(overhead: nat -> nat, txs: seq<Tx>, maxBytes: int, maxGas: int, m: nat, n: nat)
    requires m <= n && Fits(overhead, txs, maxBytes, maxGas, n)
    ensures Fits(overhead, txs, maxBytes, maxGas, m)
  {
  }

  lemma {:induction false} CostGrows(overhead: nat -> nat, txs: seq<Tx>, m: nat, n: nat)
    requires m <= n <= |txs|
    ensures TotalCost(overhead, txs[..m]) <= TotalCost(overhead, txs[..n])
  {
    if m < n {
      CostGrows(overhead, txs, m, n - 1);
      TakeOne(txs, n - 1);
    }
  }

  /** Without a gas limit a prefix fits exactly when its own total does, so the longest one is the
      longest whose total fits, and no row is written for a message left out. */
  lemma ReapWithoutGas(overhead: nat -> nat, txs: seq<Tx>, maxBytes: int, n: nat, m: nat)
    requires Longest(overhead, txs, maxBytes, -1, n)
    ensures m <= |txs| ==> (FitsBytes(overhead, txs[..m], maxBytes) || m == 0 <==> m <= n)
    ensures !Stranded(overhead, txs, maxBytes, -1, n)
  {
    if 1 <= m <= n {
      assert FitsBytes(overhead, txs[..m], maxBytes);
    } else if n < m <= |txs| {
      forall k | 1 <= k <= n + 1
        ensures FitsBytes(overhead, txs[..m], maxBytes) ==> FitsBytes(overhead, txs[..k], maxBytes)
      {
        CostGrows(overhead, txs, k, m);
      }
      assert FitsBytes(overhead, txs[..m], maxBytes) ==> Fits(overhead, txs, maxBytes, -1, n + 1);
    }
  }

  // ----- what a receipt tells ----------------------------------------------------------------------

  /** The packages a height was last given in a stretch of events, or those there before. */
  function Confirmed(es: seq<Event>, lo: nat, hi: nat, height: int, before: seq<Key>): seq<Key>
    requires lo <= hi <= |es|
    decreases hi
  {
    if lo == hi then before
    else if es[hi - 1].ModifyRows? && es[hi - 1].height == height then es[hi - 1].packages
    else Confirmed(es, lo, hi - 1, height, before)
  }

  /** What the j-th event wrote into the row: the zones of a pool message reaped for that height, or what
      another node packed. */
  ghost predicate Wrote(ps: seq<Pool>, es: seq<Event>, j: nat, row: Row, before: seq<Key>) {
    && j < |es| < |ps|
    && (|| (es[j].SyncRow? && es[j].row == row.(packages := before))
        || (es[j].ReapRows? && es[j].height == row.csHeight && before == []
            && exists tx :: tx in ps[j].txs && tx.content.Message? && tx.content.cm.key == row.key
                            && tx.content.cm.srcZone == row.srcZone && tx.content.cm.desZone == row.desZone))
  }

  /** A row is as some event wrote it, with the packages its height was given last since. */
  ghost predicate Traced(ps: seq<Pool>, es: seq<Event>, n: nat, row: Row) {
    && n <= |es|
    && exists j: nat, before: seq<Key> :: j < n && Wrote(ps, es, j, row, before) && row.packages == Confirmed(es, j + 1, n, row.csHeight, before)
  }

  lemma TracedOn(ps: seq<Pool>, es: seq<Event>, n: nat, was: Row, row: Row)
    requires n < |es| && Traced(ps, es, n, was)
    requires row == if es[n].ModifyRows? && es[n].height == was.csHeight then was.(packages := es[n].packages) else was
    ensures Traced(ps, es, n + 1, row)
  {
    var j: nat, before: seq<Key> :| j < n && Wrote(ps, es, j, was, before) && was.packages == Confirmed(es, j + 1, n, was.csHeight, before);
    assert Wrote(ps, es, j, row, before);
  }

  lemma {:induction false} ReadableWithin(txs: seq<Tx>, tx: Tx)
    requires tx in ReadableOf(txs)
    ensures tx in txs
  {
    if txs != [] && tx in ReadableOf(txs[..|txs| - 1]) {
      ReadableWithin(txs[..|txs| - 1], tx);
    }
  }

  lemma {:induction false} RowsOfMessages(txs: seq<Tx>, height: int, row: Row) returns (tx: Tx)
    requires row in RowsOf(txs, height)
    ensures tx in txs && tx.content.Message? && tx.content.cm.key == row.key
            && tx.content.cm.srcZone == row.srcZone && tx.content.cm.desZone == row.desZone
            && row.csHeight == height && row.packages == []
  {
    var n := |txs| - 1;
    if row in RowsOf(txs[..n], height) {
      tx := RowsOfMessages(txs[..n], height, row);
    } else {
      tx := txs[n];
    }
  }

  lemma {:induction false} DropWithin(rows: seq<Row>, due: multiset<Key>, row: Row)
    requires row in DropDue(rows, RowKey, due)
    ensures row in rows
  {
    var k := RowKey(rows[0]);
    if k in due {
      DropWithin(rows[1..], due - multiset{k}, row);
    } else if row != rows[0] {
      DropWithin(rows[1..], due, row);
    }
  }

  lemma NewRowTraced(c: Config, ps: seq<Pool>, es: seq<Event>, n: nat, row: Row)
    requires IsRun(c, ps, es) && n < |es| && row in ps[n + 1].rows && row !in ps[n].rows && !es[n].ModifyRows?
    ensures Traced(ps, es, n + 1, row)
  {
    hide Update, ReadableOf, RowsOf;
    var p := ps[n];
    assert ps[n + 1] == Step(p, c, es[n]);
    match es[n] {
      case ReapRows(count, height) =>
        var all := ReadableOf(p.txs);
        var tx := RowsOfMessages(all[..if count <= |all| then count else |all|], height, row);
        ReadableWithin(p.txs, tx);
        assert Wrote(ps, es, n, row, []);
      case SyncRow(r) =>
        assert Wrote(ps, es, n, row, row.packages);
      case CommitBlock(height, txs) =>
        UpdateSettles(p, c, height, txs, row.key, Tx(0, 0, 0, Ordinary));
        DropWithin(p.rows, multiset(PackedKeys(p.txs, PackedAt(p.rows, height))), row);
        assert false;
      case _ =>
    }
  }

  /** In every state of every run each row tells the zones of a message that was in the pool when it was
      reaped for the row's height, or what another node packed, and the packages that height was given last. */
  lemma {:induction false} RowsTell(c: Config, ps: seq<Pool>, es: seq<Event>, n: nat, row: Row)
    requires IsRun(c, ps, es) && n < |ps| && row in ps[n].rows
    ensures Traced(ps, es, n, row)
  {
    hide Traced, Step;
    if n > 0 {
      var e: Event := es[n - 1];
      if e.ModifyRows? {
        var i := ModifiedFrom(c, ps, es, n - 1, row);
        RowsTell(c, ps, es, n - 1, ps[n - 1].rows[i]);
        TracedOn(ps, es, n - 1, ps[n - 1].rows[i], row);
      } else if row in ps[n - 1].rows {
        RowsTell(c, ps, es, n - 1, row);
        TracedOn(ps, es, n - 1, row, row);
      } else {
        NewRowTraced(c, ps, es, n - 1, row);
      }
    }
  }

  lemma ModifiedFrom(c: Config, ps: seq<Pool>, es: seq<Event>, n: nat, row: Row) returns (i: nat)
    requires IsRun(c, ps, es) && n < |es| && es[n].ModifyRows? && row in ps[n + 1].rows
    ensures i < |ps[n].rows|
    ensures row == if ps[n].rows[i].csHeight == es[n].height then ps[n].rows[i].(packages := es[n].packages) else ps[n].rows[i]
  {
    assert ps[n + 1] == Step(ps[n], c, es[n]);
    i :| 0 <= i < |ps[n + 1].rows| && ps[n + 1].rows[i] == row;
  }

  /** A receipt after removing rows was there before or is of a row of its key. */
  lemma {:induction false} ReceiptOfRow(p: Pool, ks: seq<Key>, k: Key)
    requires k in RemoveRows(p, ks).receipts
    ensures (k in p.receipts && RemoveRows(p, ks).receipts[k] == p.receipts[k])
            || exists row :: row in p.rows && row.key == k
                             && RemoveRows(p, ks).receipts[k] == Receipt(k, row.srcZone, row.desZone, row.packages)
  {
    if ks != [] {
      var n := |ks| - 1;
      var q := RemoveRows(p, ks[..n]);
      var r := FirstRow(q.rows, ks[n]);
      if r.Some? && ks[n] == k {
        FirstRowIn(q.rows, k);
        RemoveRowsExactly(p, ks[..n], k);
        RemoveEachIsOnePass(p.rows, RowKey, ks[..n]);
        DropWithin(p.rows, multiset(ks[..n]), r.value);
      } else {
        ReceiptOfRow(p, ks[..n], k);
      }
    }
  }

  lemma {:induction false} FirstRowIn(rows: seq<Row>, k: Key)
    requires FirstRow(rows, k).Some?
    ensures FirstRow(rows, k).value in rows && FirstRow(rows, k).value.key == k
  {
    if rows[0].key != k {
      FirstRowIn(rows[1..], k);
    }
  }

  /** In every state of every run each receipt is of a row of its key that was in the table when a block was
      committed, and so tells the zones of a message packed and the packages its block confirmed. */
  lemma {:induction false} ReceiptsTell(c: Config, ps: seq<Pool>, es: seq<Event>, n: nat, k: Key) returns (i: nat, row: Row)
    requires IsRun(c, ps, es) && n < |ps| && k in ps[n].receipts
    ensures i < n && es[i].CommitBlock? && row in ps[i].rows && row.key == k && Traced(ps, es, i, row)
    ensures ps[n].receipts[k] == Receipt(k, row.srcZone, row.desZone, row.packages)
  {
    hide Traced, Update;
    assert n > 0;
    var p := ps[n - 1];
    assert ps[n] == Step(p, c, es[n - 1]);
    if k in p.receipts && ps[n].receipts[k] == p.receipts[k] {
      i, row := ReceiptsTell(c, ps, es, n - 1, k);
    } else {
      row := NewReceipt(p, c, es[n - 1], k);
      i := n - 1;
      RowsTell(c, ps, es, i, row);
    }
  }

  lemma NewReceipt(p: Pool, c: Config, e: Event, k: Key) returns (row: Row)
    requires k in Step(p, c, e).receipts && !(k in p.receipts && Step(p, c, e).receipts[k] == p.receipts[k])
    ensures e.CommitBlock? && row in p.rows && row.key == k
    ensures Step(p, c, e).receipts[k] == Receipt(k, row.srcZone, row.desZone, row.packages)
  {
    hide RemoveEach, RemoveRows, PackedKeys, Unpacked, Uncommitted, PackedAt;
    if e.CommitBlock? {
      var keys := PackedAt(p.rows, e.height);
      var p1 := p.(cache := PushCommitted(p.cache, c.cacheSize, e.txs));
      ReceiptOfRow(p1, PackedKeys(p.txs, keys), k);
      row :| row in p.rows && row.key == k && Step(p, c, e).receipts[k] == Receipt(k, row.srcZone, row.desZone, row.packages);
    } else {
      assert false;
    }
  }
}
