/** The mempool's cross-shard bookkeeping (`mempool/mempool.go`, `checkdb/aggtx.go`): admission,
    the relation table from packed messages to receipts, removal after a block, and reaping.

    A transaction is its parsed content with the identity and size of its bytes. Each handler the
    source runs under its lock is one step; checking a transaction includes the application's
    answer, since the connection is flushed before every update. */
module Mempool {
  import opened Options
  import opened KeyedList
  import opened CrossMessages
  import TxCache

  // ----- state -----------------------------------------------------------------------------------

  datatype Content = Message(cm: CrossMessage) | Ordinary

  /** `id` stands for the transaction's bytes and their hash. */
  datatype Tx = Tx(id: nat, size: nat, gas: int, content: Content)

  /** A cross message packed for the block at `csHeight`. */
  datatype Row = Row(csHeight: int, key: Key, srcZone: string, desZone: string, packages: seq<Key>)

  datatype Receipt = Receipt(key: Key, srcZone: string, desZone: string, packages: seq<Key>)

  datatype Pool = Pool(
    txs: seq<Tx>,
    txsBytes: int,
    rows: seq<Row>,
    receipts: map<Key, Receipt>,
    pending: seq<Entry>,
    cache: seq<nat>)

  datatype Config = Config(size: nat, maxTxsBytes: int, maxTxSize: nat, cacheSize: nat, zone: string)

  function RowKey(r: Row): Key {
    r.key
  }

  function RowFor(cm: CrossMessage, height: int): Row {
    Row(height, cm.key, cm.srcZone, cm.desZone, [])
  }

  function ReceiptOf(r: Row): Receipt {
    Receipt(r.key, r.srcZone, r.desZone, r.packages)
  }

  predicate HasKey(tx: Tx, k: Key) {
    tx.content.Message? && tx.content.cm.key == k
  }

  function Bytes(txs: seq<Tx>): nat {
    if txs == [] then 0 else Bytes(txs[..|txs| - 1]) + txs[|txs| - 1].size
  }

  // ----- admission -------------------------------------------------------------------------------

  /** The outcomes of checks this model does not look into. */
  datatype Checks = Checks(preCheck: bool, signature: bool, transactions: bool, app: bool)

  datatype Answer = Added | Full | TooLarge | PreCheckFailed | InCache | Invalid | AppRejected | AlreadyReceipted

  function CheckTxWithInfo(p: Pool, c: Config, tx: Tx, k: Checks, receipt: bool): (Pool, Answer) {
    if |p.txs| >= c.size || tx.size + p.txsBytes > c.maxTxsBytes then (p, Full)
    else if tx.size > c.maxTxSize then (p, TooLarge)
    else if !k.preCheck then (p, PreCheckFailed)
    else
      var p1 := p.(cache := TxCache.Pushed(p.cache, c.cacheSize, tx.id));
      if tx.id in p.cache then (p1, InCache)
      else if tx.content.Message? && !receipt then
        if tx.content.cm.inner.None? || !k.signature then (p1, Invalid)
        else
          var p2 := p1.(pending := RemoveEach(p1.pending, EntryKey, tx.content.cm.packages));
          if !k.transactions then (p2, Invalid) else AppCheck(p2, tx, k)
      else if tx.content.Ordinary? && !k.transactions then (p1, Invalid)
      else AppCheck(p1, tx, k)
  }

  function AppCheck(p: Pool, tx: Tx, k: Checks): (Pool, Answer) {
    if k.app then (p.(txs := p.txs + [tx], txsBytes := p.txsBytes + tx.size), Added)
    else (p.(cache := TxCache.Without(p.cache, tx.id)), AppRejected)
  }

  /** A message from this shard's own zone is a receipt coming back; a foreign one whose key already
      has a receipt is answered from the database and goes no further. */
  function CheckTx(p: Pool, c: Config, tx: Tx, k: Checks): (Pool, Answer) {
    if tx.content.Ordinary? then CheckTxWithInfo(p, c, tx, k, false)
    else
      var cm := tx.content.cm;
      if cm.srcZone == c.zone then
        CheckTxWithInfo(p.(pending := RemoveEach(p.pending, EntryKey, cm.packages)), c, tx, k, true)
      else if cm.key in p.receipts then (p, AlreadyReceipted)
      else CheckTxWithInfo(p, c, tx, k, false)
  }

  /** Each guard by the answer its failure gives. `receipt`: a message coming back to its own zone. */
  predicate Fails(a: Answer, p: Pool, c: Config, tx: Tx, k: Checks, receipt: bool) {
    match a
    case Full => |p.txs| >= c.size || tx.size + p.txsBytes > c.maxTxsBytes
    case TooLarge => tx.size > c.maxTxSize
    case PreCheckFailed => !k.preCheck
    case InCache => tx.id in p.cache
    case Invalid =>
      if tx.content.Ordinary? then !k.transactions
      else !receipt && (tx.content.cm.inner.None? || !k.signature || !k.transactions)
    case AppRejected => !k.app
    case _ => false
  }

  /** The guards asked before the n-th all pass. */
  predicate Passes(n: nat, p: Pool, c: Config, tx: Tx, k: Checks, receipt: bool) {
    && (n > 0 ==> !Fails(Full, p, c, tx, k, receipt))
    && (n > 1 ==> !Fails(TooLarge, p, c, tx, k, receipt))
    && (n > 2 ==> !Fails(PreCheckFailed, p, c, tx, k, receipt))
    && (n > 3 ==> !Fails(InCache, p, c, tx, k, receipt))
    && (n > 4 ==> !Fails(Invalid, p, c, tx, k, receipt))
    && (n > 5 ==> !Fails(AppRejected, p, c, tx, k, receipt))
  }

  /** Added when every guard passes, and otherwise the answer of the first guard that fails. */
  predicate Answers(a: Answer, p: Pool, c: Config, tx: Tx, k: Checks, receipt: bool) {
    && (a.Added? <==> Passes(6, p, c, tx, k, receipt))
    && (a.Full? <==> Fails(Full, p, c, tx, k, receipt))
    && (a.TooLarge? <==> Passes(1, p, c, tx, k, receipt) && Fails(TooLarge, p, c, tx, k, receipt))
    && (a.PreCheckFailed? <==> Passes(2, p, c, tx, k, receipt) && Fails(PreCheckFailed, p, c, tx, k, receipt))
    && (a.InCache? <==> Passes(3, p, c, tx, k, receipt) && Fails(InCache, p, c, tx, k, receipt))
    && (a.Invalid? <==> Passes(4, p, c, tx, k, receipt) && Fails(Invalid, p, c, tx, k, receipt))
    && (a.AppRejected? <==> Passes(5, p, c, tx, k, receipt) && Fails(AppRejected, p, c, tx, k, receipt))
  }

  /** The transaction is remembered once the first three guards pass, unless the application rejects it. */
  predicate Remembers(p: Pool, c: Config, tx: Tx, a: Answer, cache: seq<nat>) {
    if a.Full? || a.TooLarge? || a.PreCheckFailed? then cache == p.cache
    else if a.AppRejected? then cache == TxCache.Without(TxCache.Pushed(p.cache, c.cacheSize, tx.id), tx.id)
    else cache == TxCache.Pushed(p.cache, c.cacheSize, tx.id)
  }

  /** Every transaction is added exactly when all guards pass and refused by the first that fails; the
      pool grows by it exactly when it is added; and the packages a foreign message confirms are cleared
      once its list and signature are good, even if it is refused afterwards. */
  lemma AnsweredExactly(p: Pool, c: Config, tx: Tx, k: Checks, receipt: bool)
    ensures var (q, a) := CheckTxWithInfo(p, c, tx, k, receipt);
            && Answers(a, p, c, tx, k, receipt) && Remembers(p, c, tx, a, q.cache)
            && q.txs == p.txs + (if a.Added? then [tx] else []) && q.txsBytes == p.txsBytes + (if a.Added? then tx.size else 0)
            && q.rows == p.rows && q.receipts == p.receipts
            && q.pending == (if tx.content.Message? && !receipt && tx.content.cm.inner.Some? && k.signature
                                && Passes(4, p, c, tx, k, receipt)
                             then RemoveEach(p.pending, EntryKey, tx.content.cm.packages) else p.pending)
  {
    hide RemoveEach, TxCache.Pushed, TxCache.Without;
  }

  /** The same for what is submitted: a foreign message whose key has a receipt changes nothing; one from
      this zone is checked as a receipt, and clears what it confirms whatever the answer. */
  lemma SubmittedExactly(p: Pool, c: Config, tx: Tx, k: Checks)
    ensures var (q, a) := CheckTx(p, c, tx, k);
            var own := tx.content.Message? && tx.content.cm.srcZone == c.zone;
            var settled := tx.content.Message? && !own && tx.content.cm.key in p.receipts;
            && (settled <==> a.AlreadyReceipted?) && (settled ==> q == p)
            && (!settled ==> Answers(a, p, c, tx, k, own) && Remembers(p, c, tx, a, q.cache))
            && q.txs == p.txs + (if a.Added? then [tx] else []) && q.rows == p.rows && q.receipts == p.receipts
            && (own ==> q.pending == RemoveEach(p.pending, EntryKey, tx.content.cm.packages))
  {
    hide RemoveEach, TxCache.Pushed, TxCache.Without, CheckTxWithInfo;
    AnsweredExactly(p, c, tx, k, false);
    if tx.content.Message? && tx.content.cm.srcZone == c.zone {
      AnsweredExactly(p.(pending := RemoveEach(p.pending, EntryKey, tx.content.cm.packages)), c, tx, k, true);
    }
  }

  /** What a peer gossips: a receipt for this shard only clears what it confirms; anything else is
      checked without asking for a receipt first. */
  function Gossiped(p: Pool, c: Config, tx: Tx, k: Checks): Pool {
    if tx.content.Message? && tx.content.cm.srcZone == c.zone then
      p.(pending := RemoveEach(p.pending, EntryKey, tx.content.cm.packages))
    else CheckTxWithInfo(p, c, tx, k, false).0
  }

  /** The guards of admission, all of them. */
  predicate Admits(p: Pool, c: Config, tx: Tx, k: Checks) {
    && |p.txs| < c.size && tx.size + p.txsBytes <= c.maxTxsBytes && tx.size <= c.maxTxSize
    && k.preCheck && tx.id !in p.cache && k.transactions && k.app
    && (tx.content.Message? ==> tx.content.cm.inner.Some? && k.signature)
  }

  predicate Foreign(tx: Tx, c: Config, k: Key) {
    HasKey(tx, k) && tx.content.cm.srcZone != c.zone
  }

  /** The key has its receipt and no foreign message with it is in the pool. */
  ghost predicate Closed(p: Pool, c: Config, k: Key) {
    k in p.receipts && forall tx :: tx in p.txs ==> !Foreign(tx, c, k)
  }

  /** Gossip puts a foreign message of a settled key back into the pool exactly when admission's guards
      all pass. */
  lemma GossipReopensExactlyWhen(p: Pool, c: Config, tx: Tx, checks: Checks, k: Key)
    requires Closed(p, c, k)
    ensures Closed(Gossiped(p, c, tx, checks), c, k) <==> !(Foreign(tx, c, k) && Admits(p, c, tx, checks))
  {
    hide RemoveEach;
    var q := Gossiped(p, c, tx, checks);
    assert q.txs == p.txs || q.txs == p.txs + [tx];
    if q.txs == p.txs + [tx] {
      assert q.txs[|p.txs|] == tx;
    }
  }

  // ----- the relation table ----------------------------------------------------------------------

  function FirstRow(rows: seq<Row>, k: Key): Option<Row> {
    if rows == [] then None else if rows[0].key == k then Some(rows[0]) else FirstRow(rows[1..], k)
  }

  /** The first row with the key, at whatever height, becomes its receipt. */
  function RemoveRow(p: Pool, k: Key): Pool {
    var r := FirstRow(p.rows, k);
    if r.None? then p
    else p.(rows := RemoveFirst(p.rows, RowKey, k), receipts := p.receipts[k := ReceiptOf(r.value)])
  }

  function RemoveRows(p: Pool, ks: seq<Key>): Pool {
    if ks == [] then p else RemoveRow(RemoveRows(p, ks[..|ks| - 1]), ks[|ks| - 1])
  }

  function PackedAt(rows: seq<Row>, height: int): set<Key> {
    set r | r in rows && r.csHeight == height :: r.key
  }

  lemma PackedSnoc(rows: seq<Row>, r: Row, height: int)
    ensures PackedAt(rows + [r], height) == PackedAt(rows, height) + (if r.csHeight == height then {r.key} else {})
  {
    forall k: Key | k in PackedAt(rows, height)
      ensures k in PackedAt(rows + [r], height)
    {
      var q :| q in rows && q.csHeight == height && q.key == k;
      assert q in rows + [r];
    }
    assert r in rows + [r];
  }

  function WithPackages(r: Row, height: int, packages: seq<Key>): Row {
    if r.csHeight == height then r.(packages := packages) else r
  }

  /** The rows of a height take the packages their block confirms. */
  function Modified(rows: seq<Row>, height: int, packages: seq<Key>): (r: seq<Row>)
    ensures |r| == |rows| && forall i :: 0 <= i < |rows| ==> r[i] == WithPackages(rows[i], height, packages)
  {
    seq(|rows|, i requires 0 <= i < |rows| => WithPackages(rows[i], height, packages))
  }

  // ----- after a block ---------------------------------------------------------------------------

  predicate Packed(tx: Tx, keys: set<Key>) {
    tx.content.Message? && tx.content.cm.key in keys
  }

  function Unpacked(txs: seq<Tx>, keys: set<Key>): seq<Tx> {
    if txs == [] then []
    else Unpacked(txs[..|txs| - 1], keys) + (if Packed(txs[|txs| - 1], keys) then [] else [txs[|txs| - 1]])
  }

  function PackedKeys(txs: seq<Tx>, keys: set<Key>): seq<Key> {
    if txs == [] then []
    else PackedKeys(txs[..|txs| - 1], keys) + (if Packed(txs[|txs| - 1], keys) then [txs[|txs| - 1].content.cm.key] else [])
  }

  /** Every pool message packed at the height goes, and each takes a row with it. */
  function RemoveCm(p: Pool, height: int): Pool {
    var keys := PackedAt(p.rows, height);
    var left := Unpacked(p.txs, keys);
    RemoveRows(p, PackedKeys(p.txs, keys)).(txs := left, txsBytes := p.txsBytes - Bytes(p.txs) + Bytes(left))
  }

  /** A committed transaction: its hash, whether it came out of a cross message, and the bytes under
      which this shard's pool would hold it. */
  datatype Committed = Committed(hash: nat, incoming: bool, pooled: nat)

  function PushCommitted(cache: seq<nat>, size: nat, txs: seq<Committed>): seq<nat> {
    if txs == [] then cache
    else
      var rest := PushCommitted(cache, size, txs[..|txs| - 1]);
      var tx := txs[|txs| - 1];
      if tx.incoming then rest else TxCache.Pushed(rest, size, tx.hash)
  }

  function PooledIds(txs: seq<Committed>): set<nat> {
    set tx | tx in txs && !tx.incoming :: tx.pooled
  }

  function Uncommitted(txs: seq<Tx>, ids: set<nat>): seq<Tx> {
    if txs == [] then []
    else Uncommitted(txs[..|txs| - 1], ids) + (if txs[|txs| - 1].id in ids then [] else [txs[|txs| - 1]])
  }

  function RemoveTxs(p: Pool, txs: seq<Committed>): Pool {
    var left := Uncommitted(p.txs, PooledIds(txs));
    p.(txs := left, txsBytes := p.txsBytes - Bytes(p.txs) + Bytes(left))
  }

  function Update(p: Pool, c: Config, height: int, txs: seq<Committed>): Pool {
    RemoveTxs(RemoveCm(p.(cache := PushCommitted(p.cache, c.cacheSize, txs)), height), txs)
  }

  // ----- reaping ---------------------------------------------------------------------------------

  const RESERVED := 1500000

  /** What an entry costs in a block: its size and its encoding overhead. */
  function Cost(overhead: nat -> nat, tx: Tx): nat {
    tx.size + overhead(tx.size)
  }

  function TotalCost(overhead: nat -> nat, txs: seq<Tx>): nat {
    if txs == [] then 0 else TotalCost(overhead, txs[..|txs| - 1]) + Cost(overhead, txs[|txs| - 1])
  }

  function TotalGas(txs: seq<Tx>): int {
    if txs == [] then 0 else TotalGas(txs[..|txs| - 1]) + txs[|txs| - 1].gas
  }

  /** A message whose list does not decompress is passed over. */
  predicate Readable(tx: Tx) {
    tx.content.Message? ==> tx.content.cm.inner.Some?
  }

  function ReadableOf(txs: seq<Tx>): seq<Tx> {
    if txs == [] then []
    else ReadableOf(txs[..|txs| - 1]) + (if Readable(txs[|txs| - 1]) then [txs[|txs| - 1]] else [])
  }

  function RelayIds(inner: seq<InnerTx>): seq<nat> {
    if inner == [] then []
    else RelayIds(inner[..|inner| - 1]) + (if inner[|inner| - 1].relay then [inner[|inner| - 1].id] else [])
  }

  /** An entry's transactions in the block: itself, or the relay transactions of a message. */
  function Expand1(tx: Tx): seq<nat> {
    if tx.content.Ordinary? then [tx.id]
    else if tx.content.cm.inner.Some? then RelayIds(tx.content.cm.inner.value)
    else []
  }

  function Expand(txs: seq<Tx>): seq<nat> {
    if txs == [] then [] else Expand(txs[..|txs| - 1]) + Expand1(txs[|txs| - 1])
  }

  function RowsOf(txs: seq<Tx>, height: int): seq<Row> {
    if txs == [] then []
    else
      RowsOf(txs[..|txs| - 1], height)
      + (if txs[|txs| - 1].content.Message? then [RowFor(txs[|txs| - 1].content.cm, height)] else [])
  }

  predicate FitsBytes(overhead: nat -> nat, txs: seq<Tx>, maxBytes: int) {
    maxBytes > -1 ==> TotalCost(overhead, txs) <= maxBytes - RESERVED
  }

  predicate FitsGas(txs: seq<Tx>, maxGas: int) {
    maxGas > -1 ==> TotalGas(txs) <= maxGas
  }

  /** The first n entries fit, each in turn. */
  ghost predicate Fits(overhead: nat -> nat, txs: seq<Tx>, maxBytes: int, maxGas: int, n: nat) {
    n <= |txs| && forall m :: 1 <= m <= n ==> FitsBytes(overhead, txs[..m], maxBytes) && FitsGas(txs[..m], maxGas)
  }

  ghost predicate Longest(overhead: nat -> nat, txs: seq<Tx>, maxBytes: int, maxGas: int, n: nat) {
    && Fits(overhead, txs, maxBytes, maxGas, n)
    && (n < |txs| ==> !Fits(overhead, txs, maxBytes, maxGas, n + 1))
  }

  /** The entry after the first n is a message that fits by size and fails only on gas: its row is
      already in the table when reaping stops. */
  ghost predicate Stranded(overhead: nat -> nat, txs: seq<Tx>, maxBytes: int, maxGas: int, n: nat) {
    n < |txs| && txs[n].content.Message? && FitsBytes(overhead, txs[..n + 1], maxBytes) && !FitsGas(txs[..n + 1], maxGas)
  }

  // ----- the object ------------------------------------------------------------------------------

  lemma RemoveRowAt(p: Pool, k: Key, i: nat)
    requires i < |p.rows| && p.rows[i].key == k && forall j :: 0 <= j < i ==> p.rows[j].key != k
    ensures RemoveRow(p, k) == p.(rows := p.rows[..i] + p.rows[i + 1..], receipts := p.receipts[k := ReceiptOf(p.rows[i])])
  {
    FirstRowAt(p.rows, k, i);
    RemoveFirstAt(p.rows, RowKey, k, i);
  }

  lemma {:induction false} FirstRowAt(rows: seq<Row>, k: Key, i: nat)
    requires i < |rows| && rows[i].key == k && forall j :: 0 <= j < i ==> rows[j].key != k
    ensures FirstRow(rows, k) == Some(rows[i])
  {
    if i > 0 {
      FirstRowAt(rows[1..], k, i - 1);
    }
  }

  lemma {:induction false} FirstRowAbsent(rows: seq<Row>, k: Key)
    requires forall j :: 0 <= j < |rows| ==> rows[j].key != k
    ensures FirstRow(rows, k) == None
  {
    if rows != [] {
      FirstRowAbsent(rows[1..], k);
    }
  }

  lemma {:induction false} RemoveRowsKeeps(p: Pool, ks: seq<Key>)
    ensures RemoveRows(p, ks).txs == p.txs && RemoveRows(p, ks).txsBytes == p.txsBytes
  {
    if ks != [] {
      RemoveRowsKeeps(p, ks[..|ks| - 1]);
    }
  }

  lemma TakeOne<T>(s: seq<T>, i: nat)
    requires i < |s|
    ensures s[..i + 1] != [] && s[..i + 1][..|s[..i + 1]| - 1] == s[..i] && s[..i + 1][|s[..i + 1]| - 1] == s[i]
  {
    assert s[..i + 1][..i] == s[..i];
  }

  lemma BytesSnoc(txs: seq<Tx>, tx: Tx)
    ensures Bytes(txs + [tx]) == Bytes(txs) + tx.size
  {
    assert (txs + [tx])[..|txs|] == txs;
  }

  lemma RemoveRowsSnoc(p: Pool, ks: seq<Key>, k: Key)
    ensures RemoveRows(p, ks + [k]) == RemoveRow(RemoveRows(p, ks), k)
  {
    assert (ks + [k])[..|ks|] == ks;
  }

  lemma PackedNone(p: Pool, keys: set<Key>)
    ensures Unpacked(p.txs[..0], keys) == [] && PackedKeys(p.txs[..0], keys) == [] && Bytes(p.txs[..0]) == 0 && Bytes([]) == 0
    ensures RemoveRows(p, []) == p
  {
  }

  lemma PackedStep(txs: seq<Tx>, keys: set<Key>, i: nat)
    requires i < |txs|
    ensures Bytes(txs[..i + 1]) == Bytes(txs[..i]) + txs[i].size
    ensures if Packed(txs[i], keys)
            then Unpacked(txs[..i + 1], keys) == Unpacked(txs[..i], keys)
                 && PackedKeys(txs[..i + 1], keys) == PackedKeys(txs[..i], keys) + [txs[i].content.cm.key]
            else Unpacked(txs[..i + 1], keys) == Unpacked(txs[..i], keys) + [txs[i]]
                 && PackedKeys(txs[..i + 1], keys) == PackedKeys(txs[..i], keys)
  {
    TakeOne(txs, i);
  }

  lemma UncommittedNone(txs: seq<Tx>, ids: set<nat>)
    ensures Uncommitted(txs[..0], ids) == [] && Bytes(txs[..0]) == 0 && Bytes([]) == 0
  {
  }

  lemma UncommittedStep(txs: seq<Tx>, ids: set<nat>, i: nat)
    requires i < |txs|
    ensures Bytes(txs[..i + 1]) == Bytes(txs[..i]) + txs[i].size
    ensures Uncommitted(txs[..i + 1], ids) == Uncommitted(txs[..i], ids) + (if txs[i].id in ids then [] else [txs[i]])
  {
    TakeOne(txs, i);
  }

  lemma ReapNone(overhead: nat -> nat, txs: seq<Tx>, height: int)
    ensures ReadableOf(txs)[..0] == ReadableOf(txs[..0]) == []
    ensures TotalCost(overhead, []) == 0 && TotalGas([]) == 0 && Expand([]) == [] && RowsOf([], height) == []
  {
  }

  /** The readable entries so far, and one more, are a prefix of all of them. */
  lemma {:induction false} ReadablePrefix(txs: seq<Tx>, i: nat)
    requires i <= |txs|
    ensures ReadableOf(txs[..i]) <= ReadableOf(txs)
    decreases |txs|
  {
    if i == |txs| {
      assert txs[..i] == txs;
    } else {
      var k := |txs| - 1;
      ReadablePrefix(txs[..k], i);
      assert txs[..k][..i] == txs[..i];
    }
  }

  lemma ReadableStep(txs: seq<Tx>, i: nat)
    requires i < |txs|
    ensures var n := |ReadableOf(txs[..i])|;
            var all := ReadableOf(txs);
            if Readable(txs[i]) then n < |all| && all[n] == txs[i] && all[..n + 1] == ReadableOf(txs[..i + 1])
            else ReadableOf(txs[..i + 1]) == ReadableOf(txs[..i])
  {
    TakeOne(txs, i);
    ReadablePrefix(txs, i + 1);
  }

  lemma ReapStep(overhead: nat -> nat, all: seq<Tx>, tx: Tx, height: int, n: nat)
    requires n < |all| && all[n] == tx
    ensures TotalCost(overhead, all[..n + 1]) == TotalCost(overhead, all[..n]) + tx.size + overhead(tx.size)
    ensures TotalGas(all[..n + 1]) == TotalGas(all[..n]) + tx.gas
    ensures Expand(all[..n + 1]) == Expand(all[..n]) + Expand1(tx)
    ensures RowsOf(all[..n + 1], height)
            == RowsOf(all[..n], height) + (if tx.content.Message? then [RowFor(tx.content.cm, height)] else [])
  {
    TakeOne(all, n);
  }

  lemma FitsStep(overhead: nat -> nat, all: seq<Tx>, maxBytes: int, maxGas: int, n: nat)
    requires n < |all| && Fits(overhead, all, maxBytes, maxGas, n)
    ensures Fits(overhead, all, maxBytes, maxGas, n + 1)
            <==> FitsBytes(overhead, all[..n + 1], maxBytes) && FitsGas(all[..n + 1], maxGas)
  {
  }

  class MempoolNode {
    const config: Config
    var pool: Pool

    constructor (config: Config)
      ensures this.config == config && pool == Pool([], 0, [], map[], [], [])
    {
      this.config := config;
      pool := Pool([], 0, [], map[], [], []);
    }

    method AddRelationTable(cm: CrossMessage, height: int)
      modifies this
      ensures forall h :: PackedAt(pool.rows, h) == PackedAt(old(pool.rows), h) + (if h == height then {cm.key} else {})
      ensures pool == old(pool).(rows := old(pool.rows) + [RowFor(cm, height)])
    {
      forall h: int
        ensures PackedAt(pool.rows + [RowFor(cm, height)], h) == PackedAt(pool.rows, h) + (if h == height then {cm.key} else {})
      {
        PackedSnoc(pool.rows, RowFor(cm, height), h);
      }
      pool := pool.(rows := pool.rows + [RowFor(cm, height)]);
    }

    /** A row for a message another node packed. */
    method SyncRelationTable(key: Key, srcZone: string, desZone: string, height: int)
      modifies this
      ensures forall h :: PackedAt(pool.rows, h) == PackedAt(old(pool.rows), h) + (if h == height then {key} else {})
      ensures pool == old(pool).(rows := old(pool.rows) + [Row(height, key, srcZone, desZone, [])])
    {
      forall h: int
        ensures PackedAt(pool.rows + [Row(height, key, srcZone, desZone, [])], h)
                == PackedAt(pool.rows, h) + (if h == height then {key} else {})
      {
        PackedSnoc(pool.rows, Row(height, key, srcZone, desZone, []), h);
      }
      pool := pool.(rows := pool.rows + [Row(height, key, srcZone, desZone, [])]);
    }

    method ModifyRelationTable(packages: seq<Key>, height: int)
      modifies this
      ensures pool == old(pool).(rows := Modified(old(pool.rows), height, packages))
    {
      var rows := pool.rows;
      var i := 0;
      while i < |rows|
        invariant 0 <= i <= |rows| == |old(pool.rows)| && pool == old(pool)
        invariant forall j :: 0 <= j < i ==> rows[j] == WithPackages(old(pool.rows)[j], height, packages)
        invariant forall j :: i <= j < |rows| ==> rows[j] == old(pool.rows)[j]
      {
        if rows[i].csHeight == height {
          rows := rows[i := rows[i].(packages := packages)];
        }
        i := i + 1;
      }
      assert rows == Modified(old(pool.rows), height, packages);
      pool := pool.(rows := rows);
    }

    method RemoveRelationTable(k: Key)
      modifies this
      ensures pool == RemoveRow(old(pool), k)
    {
      var i := 0;
      while i < |pool.rows|
        invariant 0 <= i <= |pool.rows| && pool == old(pool)
        invariant forall j :: 0 <= j < i ==> pool.rows[j].key != k
      {
        var row := pool.rows[i];
        if row.key == k {
          RemoveRowAt(pool, k, i);
          pool := pool.(rows := pool.rows[..i] + pool.rows[i + 1..], receipts := pool.receipts[k := ReceiptOf(row)]);
          return;
        }
        i := i + 1;
      }
      FirstRowAbsent(pool.rows, k);
    }

    /** Walks the pool once; each packed message leaves it and takes a row along. */
    method RemovePacked(height: int)
      modifies this
      ensures pool == RemoveCm(old(pool), height)
    {
      hide RemoveRow, RemoveRows, PackedAt, PackedKeys, Unpacked, Bytes;
      PackedNone(pool, PackedAt(pool.rows, height));
      var keys := PackedAt(pool.rows, height);
      ghost var p := pool;
      var all := pool.txs;
      var i := 0;
      var left := [];
      var bytes := pool.txsBytes;
      while i < |all|
        invariant 0 <= i <= |all|
        invariant left == Unpacked(all[..i], keys)
        invariant bytes == p.txsBytes - Bytes(all[..i]) + Bytes(left)
        invariant pool == RemoveRows(p, PackedKeys(all[..i], keys))
      {
        PackedStep(all, keys, i);
        var tx := all[i];
        if tx.content.Message? && tx.content.cm.key in keys {
          bytes := bytes - tx.size;
          RemoveRowsSnoc(p, PackedKeys(all[..i], keys), tx.content.cm.key);
          RemoveRelationTable(tx.content.cm.key);
        } else {
          BytesSnoc(left, tx);
          left := left + [tx];
        }
        i := i + 1;
      }
      assert all[..i] == all;
      RemoveRowsKeeps(p, PackedKeys(all, keys));
      pool := pool.(txs := left, txsBytes := bytes);
    }

    method RemoveCommitted(txs: seq<Committed>)
      modifies this
      ensures pool == RemoveTxs(old(pool), txs)
    {
      hide Uncommitted, Bytes, PooledIds;
      var ids := PooledIds(txs);
      var all := pool.txs;
      UncommittedNone(all, ids);
      var i := 0;
      var left := [];
      var bytes := pool.txsBytes;
      while i < |all|
        invariant 0 <= i <= |all| && pool == old(pool)
        invariant left == Uncommitted(all[..i], ids)
        invariant bytes == pool.txsBytes - Bytes(all[..i]) + Bytes(left)
      {
        UncommittedStep(all, ids, i);
        if all[i].id in ids {
          bytes := bytes - all[i].size;
        } else {
          BytesSnoc(left, all[i]);
          left := left + [all[i]];
        }
        i := i + 1;
      }
      assert all[..i] == all;
      pool := pool.(txs := left, txsBytes := bytes);
    }

    method UpdatePool(height: int, txs: seq<Committed>)
      modifies this
      ensures pool == Update(old(pool), config, height, txs)
    {
      var i := 0;
      var cache := pool.cache;
      while i < |txs|
        invariant 0 <= i <= |txs| && pool == old(pool)
        invariant cache == PushCommitted(pool.cache, config.cacheSize, txs[..i])
      {
        TakeOne(txs, i);
        if !txs[i].incoming {
          cache := TxCache.Pushed(cache, config.cacheSize, txs[i].hash);
        }
        i := i + 1;
      }
      assert txs[..i] == txs;
      pool := pool.(cache := cache);
      RemovePacked(height);
      RemoveCommitted(txs);
    }

    method Check(tx: Tx, k: Checks) returns (a: Answer)
      modifies this
      ensures forall x :: Closed(old(pool), config, x) ==> Closed(pool, config, x)
      ensures tx.content.Message? && Foreign(tx, config, tx.content.cm.key) && tx.content.cm.key in old(pool.receipts) ==>
                a == AlreadyReceipted && pool == old(pool)
      ensures pool.txs == old(pool.txs) + (if a.Added? then [tx] else [])
      ensures !a.AlreadyReceipted? ==>
                Answers(a, old(pool), config, tx, k, tx.content.Message? && tx.content.cm.srcZone == config.zone)
      ensures old(pool.txsBytes == Bytes(pool.txs)) ==> pool.txsBytes == Bytes(pool.txs)
      ensures (pool, a) == CheckTx(old(pool), config, tx, k)
    {
      hide RemoveEach, Bytes;
      var receipt := false;
      if tx.content.Message? {
        var cm := tx.content.cm;
        if cm.srcZone == config.zone {
          pool := pool.(pending := RemoveEach(pool.pending, EntryKey, cm.packages));
          receipt := true;
        } else if cm.key in pool.receipts {
          return AlreadyReceipted;
        }
      }
      a := CheckWithInfo(tx, k, receipt);
    }

    /** A transaction gossiped by a peer. */
    method Receive(tx: Tx, k: Checks)
      modifies this
      ensures forall x :: Closed(old(pool), config, x) ==>
                (Closed(pool, config, x) <==> !(Foreign(tx, config, x) && Admits(old(pool), config, tx, k)))
      ensures pool.receipts == old(pool.receipts) && pool.rows == old(pool.rows)
      ensures old(pool.txsBytes == Bytes(pool.txs)) ==> pool.txsBytes == Bytes(pool.txs)
      ensures pool == Gossiped(old(pool), config, tx, k)
    {
      hide RemoveEach, Bytes, Closed, Admits, CheckTxWithInfo;
      forall x: Key | Closed(pool, config, x)
        ensures Closed(Gossiped(pool, config, tx, k), config, x) <==> !(Foreign(tx, config, x) && Admits(pool, config, tx, k))
      {
        GossipReopensExactlyWhen(pool, config, tx, k, x);
      }
      if tx.content.Message? && tx.content.cm.srcZone == config.zone {
        pool := pool.(pending := RemoveEach(pool.pending, EntryKey, tx.content.cm.packages));
      } else {
        var a := CheckWithInfo(tx, k, false);
      }
    }

    method CheckWithInfo(tx: Tx, k: Checks, receipt: bool) returns (a: Answer)
      modifies this
      ensures pool.txs == old(pool.txs) + (if a.Added? then [tx] else [])
      ensures a.Added? ==> |pool.txs| <= config.size && pool.txsBytes <= config.maxTxsBytes && tx.id !in old(pool.cache)
      ensures Answers(a, old(pool), config, tx, k, receipt) && Remembers(old(pool), config, tx, a, pool.cache)
      ensures pool.rows == old(pool.rows) && pool.receipts == old(pool.receipts)
      ensures old(pool.txsBytes == Bytes(pool.txs)) ==> pool.txsBytes == Bytes(pool.txs)
      ensures (pool, a) == CheckTxWithInfo(old(pool), config, tx, k, receipt)
    {
      hide RemoveEach, Bytes, TxCache.Pushed, TxCache.Without;
      BytesSnoc(pool.txs, tx);
      if |pool.txs| >= config.size || tx.size + pool.txsBytes > config.maxTxsBytes {
        return Full;
      }
      if tx.size > config.maxTxSize {
        return TooLarge;
      }
      if !k.preCheck {
        return PreCheckFailed;
      }
      var cached := tx.id in pool.cache;
      pool := pool.(cache := TxCache.Pushed(pool.cache, config.cacheSize, tx.id));
      if cached {
        return InCache;
      }
      if tx.content.Message? {
        if !receipt {
          if tx.content.cm.inner.None? || !k.signature {
            return Invalid;
          }
          pool := pool.(pending := RemoveEach(pool.pending, EntryKey, tx.content.cm.packages));
          if !k.transactions {
            return Invalid;
          }
        }
      } else if !k.transactions {
        return Invalid;
      }
      if !k.app {
        pool := pool.(cache := TxCache.Without(pool.cache, tx.id));
        return AppRejected;
      }
      pool := pool.(txs := pool.txs + [tx], txsBytes := pool.txsBytes + tx.size);
      return Added;
    }

    method CollectRelays(inner: seq<InnerTx>) returns (ids: seq<nat>)
      ensures ids == RelayIds(inner)
    {
      ids := [];
      var i := 0;
      while i < |inner|
        invariant 0 <= i <= |inner| && ids == RelayIds(inner[..i])
      {
        TakeOne(inner, i);
        if inner[i].relay {
          ids := ids + [inner[i].id];
        }
        i := i + 1;
      }
      assert inner[..i] == inner;
    }

    /** One walk from the front: the longest readable prefix that fits, expanded in order, and a row
        for every message in it, plus one for a message that only gas kept out. */
    method Reap(overhead: nat -> nat, maxBytes: int, maxGas: int, height: int) returns (out: seq<nat>, ghost n: nat)
      modifies this
      ensures var all := ReadableOf(old(pool.txs));
              && Longest(overhead, all, maxBytes, maxGas, n)
              && out == Expand(all[..n])
              && pool == old(pool).(rows := old(pool.rows)
                           + RowsOf(all[..if Stranded(overhead, all, maxBytes, maxGas, n) then n + 1 else n], height))
    {
      hide ReadableOf, Expand, RowsOf, TotalCost, TotalGas;
      var txs := pool.txs;
      ghost var all := ReadableOf(txs);
      ghost var rows := pool.rows;
      ReapNone(overhead, txs, height);
      out, n := [], 0;
      var totalBytes, totalGas := 0, 0;
      var i := 0;
      while i < |txs|
        invariant 0 <= i <= |txs| && n <= |all| && all[..n] == ReadableOf(txs[..i])
        invariant Fits(overhead, all, maxBytes, maxGas, n)
        invariant totalBytes == TotalCost(overhead, all[..n]) && totalGas == TotalGas(all[..n])
        invariant out == Expand(all[..n])
        invariant pool == old(pool).(rows := rows + RowsOf(all[..n], height))
      {
        var tx := txs[i];
        ReadableStep(txs, i);
        if Readable(tx) {
          ReapStep(overhead, all, tx, height, n);
          FitsStep(overhead, all, maxBytes, maxGas, n);
          var ids := [tx.id];
          if tx.content.Message? {
            ids := CollectRelays(tx.content.cm.inner.value);
          }
          if maxBytes > -1 && totalBytes + tx.size + overhead(tx.size) > maxBytes - RESERVED {
            return;
          }
          if tx.content.Message? {
            AddRelationTable(tx.content.cm, height);
          }
          totalBytes := totalBytes + tx.size + overhead(tx.size);
          if maxGas > -1 && totalGas + tx.gas > maxGas {
            return;
          }
          totalGas := totalGas + tx.gas;
          out := out + ids;
          n := n + 1;
        }
        i := i + 1;
      }
      assert txs[..i] == txs && all[..n] == all;
    }
  }
}
