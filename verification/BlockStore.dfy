/** The block store (`blockchain/store.go`): a block goes to the database key by key and the height
    descriptor comes last, so an interrupted save is not visible below the descriptor. */
module BlockStore {
  import opened Options

  type Bytes = seq<nat>

  datatype Key = MetaKey(height: nat) | PartKey(height: nat, index: nat) | CommitKey(height: nat) | SeenKey(height: nat) | HeightKey

  /** A meta entry matters here for the number of parts it names. */
  datatype Value = Meta(total: nat) | PartBytes(bytes: Bytes) | Commit(id: nat) | Height(height: nat)

  type DB = map<Key, Value>

  datatype Entry = Entry(key: Key, value: Value)

  datatype Block = Block(height: nat, parts: seq<Bytes>, lastCommit: nat, seenCommit: nat)

  // ----- writing ---------------------------------------------------------------------------------

  function PartEntries(height: nat, parts: seq<Bytes>): (r: seq<Entry>)
    ensures |r| == |parts| && forall i :: 0 <= i < |parts| ==> r[i] == Entry(PartKey(height, i), PartBytes(parts[i]))
  {
    seq(|parts|, i requires 0 <= i < |parts| => Entry(PartKey(height, i), PartBytes(parts[i])))
  }

  /** Every write of a save, in order. */
  function Entries(b: Block): seq<Entry>
    requires b.height >= 1
  {
    [Entry(MetaKey(b.height), Meta(|b.parts|))] + PartEntries(b.height, b.parts)
    + [Entry(CommitKey(b.height - 1), Commit(b.lastCommit)), Entry(SeenKey(b.height), Commit(b.seenCommit)),
       Entry(HeightKey, Height(b.height))]
  }

  function Put(db: DB, es: seq<Entry>): DB {
    if es == [] then db else Put(db, es[..|es| - 1])[es[|es| - 1].key := es[|es| - 1].value]
  }

  /** What a restart takes for the height: the descriptor, or zero without one. */
  function HeightOf(db: DB): nat {
    if HeightKey in db && db[HeightKey].Height? then db[HeightKey].height else 0
  }

  // ----- reading ---------------------------------------------------------------------------------

  datatype LoadResult = Loaded(bytes: Bytes) | NoBlock | LoadPanic

  /** The first n parts of a block put together; a missing one panics. */
  function LoadParts(db: DB, height: nat, n: nat): LoadResult {
    if n == 0 then Loaded([])
    else
      var before := LoadParts(db, height, n - 1);
      if !before.Loaded? then before
      else if PartKey(height, n - 1) in db && db[PartKey(height, n - 1)].PartBytes?
      then Loaded(before.bytes + db[PartKey(height, n - 1)].bytes)
      else LoadPanic
  }

  function LoadBlock(db: DB, height: nat): LoadResult {
    if MetaKey(height) in db && db[MetaKey(height)].Meta? then LoadParts(db, height, db[MetaKey(height)].total) else NoBlock
  }

  function LoadCommit(db: DB, k: Key): Option<nat> {
    if k in db && db[k].Commit? then Some(db[k].id) else None
  }

  function Concat(parts: seq<Bytes>): Bytes {
    if parts == [] then [] else Concat(parts[..|parts| - 1]) + parts[|parts| - 1]
  }

  class Store {
    var db: DB
    var height: nat
    ghost var trace: seq<Entry>

    method Set(k: Key, v: Value)
      modifies this`db, this`trace
      ensures trace == old(trace) + [Entry(k, v)] && db == old(db)[k := v]
    {
      db := db[k := v];
      trace := trace + [Entry(k, v)];
    }

    /** Refuses a block that is not the next one or whose parts are incomplete. */
    method SaveBlock(b: Block, complete: bool) returns (panicked: bool)
      requires trace == []
      modifies this
      ensures panicked <==> b.height != old(height) + 1 || !complete
      ensures panicked ==> db == old(db) && height == old(height) && trace == []
      ensures !panicked ==> trace == Entries(b) && db == Put(old(db), trace) && height == b.height
    {
      hide Put;
      if b.height != height + 1 || !complete {
        return true;
      }
      PutNothing(db);
      Set(MetaKey(b.height), Meta(|b.parts|));
      PutOne(old(db), [], trace[0]);
      ghost var head := [Entry(MetaKey(b.height), Meta(|b.parts|))];
      var i := 0;
      while i < |b.parts|
        invariant 0 <= i <= |b.parts| && height == old(height)
        invariant trace == head + PartEntries(b.height, b.parts)[..i]
        invariant db == Put(old(db), trace)
      {
        ghost var t := trace;
        Set(PartKey(b.height, i), PartBytes(b.parts[i]));
        PutOne(old(db), t, trace[|t|]);
        i := i + 1;
      }
      ghost var t1 := trace;
      Set(CommitKey(b.height - 1), Commit(b.lastCommit));
      PutOne(old(db), t1, trace[|t1|]);
      ghost var t2 := trace;
      Set(SeenKey(b.height), Commit(b.seenCommit));
      PutOne(old(db), t2, trace[|t2|]);
      ghost var t3 := trace;
      Set(HeightKey, Height(b.height));
      PutOne(old(db), t3, trace[|t3|]);
      height := b.height;
      assert trace == Entries(b);
      return false;
    }
  }

  lemma PutNothing(db: DB)
    ensures Put(db, []) == db
  {
  }

  lemma PutOne(db: DB, es: seq<Entry>, e: Entry)
    ensures Put(db, es + [e]) == Put(db, es)[e.key := e.value]
  {
    assert (es + [e])[..|es|] == es;
  }

  // ----- interrupted saves -----------------------------------------------------------------------

  /** The i-th write of a save. */
  function EntryAt(b: Block, i: nat): Entry
    requires b.height >= 1
  {
    var n := |b.parts|;
    if i == 0 then Entry(MetaKey(b.height), Meta(n))
    else if i <= n then Entry(PartKey(b.height, i - 1), PartBytes(b.parts[i - 1]))
    else if i == n + 1 then Entry(CommitKey(b.height - 1), Commit(b.lastCommit))
    else if i == n + 2 then Entry(SeenKey(b.height), Commit(b.seenCommit))
    else Entry(HeightKey, Height(b.height))
  }

  lemma EntriesAre(b: Block)
    requires b.height >= 1
    ensures |Entries(b)| == |b.parts| + 4 && forall i :: 0 <= i < |Entries(b)| ==> Entries(b)[i] == EntryAt(b, i)
  {
  }

  /** A key a prefix does not write keeps its value; a key it writes has the value written. */
  lemma {:induction false} PutMisses(db: DB, es: seq<Entry>, k: Key)
    requires forall i :: 0 <= i < |es| ==> es[i].key != k
    ensures k in Put(db, es) <==> k in db
    ensures k in db ==> Put(db, es)[k] == db[k]
  {
    if es != [] {
      PutMisses(db, es[..|es| - 1], k);
    }
  }

  lemma {:induction false} PutHits(db: DB, es: seq<Entry>, i: nat)
    requires i < |es| && forall j :: i < j < |es| ==> es[j].key != es[i].key
    ensures es[i].key in Put(db, es) && Put(db, es)[es[i].key] == es[i].value
  {
    var n := |es| - 1;
    if i < n {
      PutHits(db, es[..n], i);
    }
  }

  lemma SaveMisses(db: DB, b: Block, m: nat, k: Key)
    requires b.height >= 1 && m <= |b.parts| + 4 && |Entries(b)| == |b.parts| + 4
    requires forall i: nat :: i < m ==> EntryAt(b, i).key != k
    ensures k in Put(db, Entries(b)[..m]) <==> k in db
    ensures k in db ==> Put(db, Entries(b)[..m])[k] == db[k]
  {
    hide Entries, EntryAt, Put;
    EntriesAre(b);
    PutMisses(db, Entries(b)[..m], k);
  }

  lemma SaveHits(db: DB, b: Block, m: nat, i: nat)
    requires b.height >= 1 && i < m <= |b.parts| + 4 && |Entries(b)| == |b.parts| + 4
    ensures EntryAt(b, i).key in Put(db, Entries(b)[..m]) && Put(db, Entries(b)[..m])[EntryAt(b, i).key] == EntryAt(b, i).value
  {
    hide Entries, Put;
    EntriesAre(b);
    PutHits(db, Entries(b)[..m], i);
  }

  lemma {:induction false} SameParts(db: DB, other: DB, height: nat, n: nat)
    requires forall i: nat :: i < n ==> (PartKey(height, i) in db <==> PartKey(height, i) in other)
                                        && (PartKey(height, i) in db ==> db[PartKey(height, i)] == other[PartKey(height, i)])
    ensures LoadParts(db, height, n) == LoadParts(other, height, n)
  {
    if n > 0 {
      SameParts(db, other, height, n - 1);
    }
  }

  /** What no entry of a prefix touches: other heights' blocks. */
  lemma OtherHeights(db: DB, b: Block, k: nat, h: nat)
    requires b.height >= 1 && k <= |Entries(b)| && h != b.height
    ensures LoadBlock(Put(db, Entries(b)[..k]), h) == LoadBlock(db, h)
  {
    hide Entries, Put, LoadParts;
    EntriesAre(b);
    SaveMisses(db, b, k, MetaKey(h));
    var after := Put(db, Entries(b)[..k]);
    forall i: nat
      ensures PartKey(h, i) in after <==> PartKey(h, i) in db
      ensures PartKey(h, i) in db ==> after[PartKey(h, i)] == db[PartKey(h, i)]
    {
      SaveMisses(db, b, k, PartKey(h, i));
    }
    if MetaKey(h) in db && db[MetaKey(h)].Meta? {
      SameParts(after, db, h, db[MetaKey(h)].total);
    }
  }

  lemma {:induction false} OwnParts(db: DB, b: Block, n: nat)
    requires n <= |b.parts|
    requires forall i: nat :: i < n ==> PartKey(b.height, i) in db && db[PartKey(b.height, i)] == PartBytes(b.parts[i])
    ensures LoadParts(db, b.height, n) == Loaded(Concat(b.parts[..n]))
  {
    if n > 0 {
      OwnParts(db, b, n - 1);
      assert b.parts[..n][..n - 1] == b.parts[..n - 1];
    }
  }

  /** The descriptor moves with the last write, and then the block reads back whole. */
  lemma SaveIsAtomic(db: DB, b: Block, k: nat, h: nat)
    requires b.height == HeightOf(db) + 1 && k <= |Entries(b)|
    ensures var after := Put(db, Entries(b)[..k]);
            && (k < |Entries(b)| ==> HeightOf(after) == HeightOf(db))
            && (k == |Entries(b)| ==> HeightOf(after) == b.height && LoadBlock(after, b.height) == Loaded(Concat(b.parts)))
            && (h <= HeightOf(db) ==> LoadBlock(after, h) == LoadBlock(db, h))
  {
    hide Entries, Put, LoadBlock;
    EntriesAre(b);
    if h <= HeightOf(db) {
      OtherHeights(db, b, k, h);
    }
    if k < |Entries(b)| {
      SaveMisses(db, b, k, HeightKey);
    } else {
      SaveHits(db, b, k, k - 1);
      PartsSaved(db, b, k, |b.parts|);
    }
  }

  /** A complete save leaves the commit of the block before and the one seen for this block; whatever was cut
      off, the commits of lower heights are as they were. */
  lemma CommitsSaved(db: DB, b: Block, k: nat, h: nat)
    requires b.height == HeightOf(db) + 1 && k <= |Entries(b)|
    ensures var after := Put(db, Entries(b)[..k]);
            && (k == |Entries(b)| ==>
                  && LoadCommit(after, CommitKey(b.height - 1)) == Some(b.lastCommit)
                  && LoadCommit(after, SeenKey(b.height)) == Some(b.seenCommit))
            && (h < HeightOf(db) ==> LoadCommit(after, CommitKey(h)) == LoadCommit(db, CommitKey(h)))
            && (h <= HeightOf(db) ==> LoadCommit(after, SeenKey(h)) == LoadCommit(db, SeenKey(h)))
  {
    hide Entries, Put;
    EntriesAre(b);
    if k == |Entries(b)| {
      SaveHits(db, b, k, |b.parts| + 1);
      SaveHits(db, b, k, |b.parts| + 2);
    }
    if h < HeightOf(db) {
      SaveMisses(db, b, k, CommitKey(h));
    }
    if h <= HeightOf(db) {
      SaveMisses(db, b, k, SeenKey(h));
    }
  }

  /** After the meta entry and n parts of a save, those parts are there. */
  lemma PartsSaved(db: DB, b: Block, k: nat, n: nat)
    requires b.height >= 1 && n < k <= |Entries(b)| && n <= |b.parts|
    ensures var after := Put(db, Entries(b)[..k]);
            && LoadParts(after, b.height, n) == Loaded(Concat(b.parts[..n]))
            && LoadBlock(after, b.height) == LoadParts(after, b.height, |b.parts|)
            && (n == |b.parts| ==> LoadBlock(after, b.height) == Loaded(Concat(b.parts)))
  {
    hide Entries, Put, LoadParts;
    EntriesAre(b);
    SaveHits(db, b, k, 0);
    var after := Put(db, Entries(b)[..k]);
    forall i: nat | i < n
      ensures PartKey(b.height, i) in after && after[PartKey(b.height, i)] == PartBytes(b.parts[i])
    {
      SaveHits(db, b, k, i + 1);
    }
    OwnParts(after, b, n);
    assert n == |b.parts| ==> b.parts[..n] == b.parts;
  }

  /** The meta entry goes first although a comment asks for it last: on a store holding nothing of the
      next height, reading that height panics exactly when the save was cut off after the meta entry
      and before the last part. */
  lemma HalfSavedPanicsExactlyWhen(db: DB, b: Block, k: nat)
    requires b.height == HeightOf(db) + 1 && k <= |Entries(b)|
    requires MetaKey(b.height) !in db && forall i: nat :: PartKey(b.height, i) !in db
    ensures LoadBlock(Put(db, Entries(b)[..k]), b.height).LoadPanic? <==> 1 <= k <= |b.parts|
  {
    hide Entries, Put, LoadParts;
    EntriesAre(b);
    if k == 0 {
      SaveMisses(db, b, k, MetaKey(b.height));
    } else {
      var n := if k - 1 < |b.parts| then k - 1 else |b.parts|;
      PartsSaved(db, b, k, n);
      if n < |b.parts| {
        SaveMisses(db, b, k, PartKey(b.height, n));
        MissingPanics(Put(db, Entries(b)[..k]), b.height, n, |b.parts|);
      }
    }
  }

  lemma {:induction false} MissingPanics(db: DB, height: nat, n: nat, total: nat)
    requires n < total && PartKey(height, n) !in db && LoadParts(db, height, n).Loaded?
    ensures LoadParts(db, height, total) == LoadPanic
  {
    if n + 1 < total {
      MissingPanics(db, height, n, total - 1);
    }
  }
}
