/** The mempool's cache of transaction hashes (`mapTxCache` in `mempool/mempool.go`): a list in
    recency order and a map into it, bounded by evicting the front. Of size zero it remembers nothing
    (`nopTxCache`). */
module TxCache {

  type Hash = nat

  // ----- recency lists ---------------------------------------------------------------------------

  ghost predicate Distinct(s: seq<Hash>) {
    forall i, j :: 0 <= i < j < |s| ==> s[i] != s[j]
  }

  function Without(s: seq<Hash>, x: Hash): seq<Hash> {
    if s == [] then [] else if s[0] == x then Without(s[1..], x) else [s[0]] + Without(s[1..], x)
  }

  /** The distinct elements of a list, in the order of their last occurrences. */
  function ByLastUse(p: seq<Hash>): seq<Hash> {
    if p == [] then [] else Without(ByLastUse(p[..|p| - 1]), p[|p| - 1]) + [p[|p| - 1]]
  }

  function Last(s: seq<Hash>, n: nat): seq<Hash> {
    s[if |s| <= n then 0 else |s| - n..]
  }

  /** What one push does to the recency list. */
  function Pushed(s: seq<Hash>, size: nat, x: Hash): seq<Hash> {
    if size == 0 then s
    else if x in s then Without(s, x) + [x]
    else if |s| >= size && s != [] then s[1..] + [x]
    else s + [x]
  }

  lemma {:induction false} WithoutAbsent(s: seq<Hash>, x: Hash)
    requires x !in s
    ensures Without(s, x) == s
  {
    if s != [] {
      WithoutAbsent(s[1..], x);
    }
  }

  lemma {:induction false} WithoutAt(s: seq<Hash>, x: Hash, i: nat)
    requires Distinct(s) && i < |s| && s[i] == x
    ensures Without(s, x) == s[..i] + s[i + 1..]
  {
    if i == 0 {
      WithoutAbsent(s[1..], x);
    } else {
      WithoutAt(s[1..], x, i - 1);
      assert s[1..][..i - 1] == s[1..i] && s[1..][i..] == s[i + 1..];
      assert [s[0]] + s[1..i] == s[..i];
    }
  }

  lemma PushedDistinct(s: seq<Hash>, size: nat, x: Hash)
    requires Distinct(s)
    ensures Distinct(Pushed(s, size, x)) && (|s| <= size ==> |Pushed(s, size, x)| <= size)
  {
    hide Without;
    if i: nat :| i < |s| && s[i] == x {
      WithoutAt(s, x, i);
      MovedDistinct(s, i);
    } else {
      AppendDistinct(s, x);
    }
  }

  lemma MovedDistinct(s: seq<Hash>, i: nat)
    requires Distinct(s) && i < |s|
    ensures Distinct(s[..i] + s[i + 1..] + [s[i]])
  {
    var t := s[..i] + s[i + 1..] + [s[i]];
    assert forall k :: 0 <= k < |t| ==> t[k] == if k < i then s[k] else if k < |s| - 1 then s[k + 1] else s[i];
  }

  lemma AppendDistinct(s: seq<Hash>, x: Hash)
    requires Distinct(s) && x !in s
    ensures Distinct(s + [x]) && (s != [] ==> Distinct(s[1..] + [x]))
  {
  }

  lemma {:induction false} ByLastUseDistinct(p: seq<Hash>)
    ensures Distinct(ByLastUse(p)) && forall x: Hash :: x in ByLastUse(p) <==> x in p
  {
    hide Without;
    if p != [] {
      var k := |p| - 1;
      ByLastUseDistinct(p[..k]);
      var s := ByLastUse(p[..k]);
      if i: nat :| i < |s| && s[i] == p[k] {
        WithoutAt(s, p[k], i);
        SplitMembers(s, i);
      } else {
        WithoutAbsent(s, p[k]);
      }
      assert p == p[..k] + [p[k]];
    }
  }

  lemma SplitMembers(s: seq<Hash>, i: nat)
    requires i < |s|
    ensures forall x: Hash :: x in s <==> x in s[..i] + s[i + 1..] + [s[i]]
  {
    assert s == s[..i] + [s[i]] + s[i + 1..];
  }

  lemma MovedTail(s: seq<Hash>, d: nat, i: nat)
    requires i < |s| && d < |s|
    ensures var w := s[..i] + s[i + 1..] + [s[i]];
            w[d..] == if d <= i then s[d..][..i - d] + s[d..][i - d + 1..] + [s[i]]
                      else s[d..][1..] + [s[i]]
  {
    var w := s[..i] + s[i + 1..] + [s[i]];
    if d <= i {
      assert w[d..] == s[d..][..i - d] + s[d..][i - d + 1..] + [s[i]];
    } else {
      assert w[d..] == s[d..][1..] + [s[i]];
    }
  }

  lemma PushRecent(s: seq<Hash>, size: nat, i: nat)
    requires Distinct(s) && size > 0 && i < |s| && i >= |s| - size
    ensures Pushed(Last(s, size), size, s[i]) == Last(Without(s, s[i]) + [s[i]], size)
  {
    hide Without, Distinct;
    var d := if |s| <= size then 0 else |s| - size;
    var t := s[d..];
    var w := s[..i] + s[i + 1..] + [s[i]];
    assert Without(s, s[i]) + [s[i]] == w by { WithoutAt(s, s[i], i); }
    assert Pushed(t, size, s[i]) == t[..i - d] + t[i - d + 1..] + [s[i]] by {
      TailDistinct(s, d);
      WithoutAt(t, s[i], i - d);
      assert t[i - d] == s[i];
    }
    MovedTail(s, d, i);
    assert |w| == |s|;
  }

  lemma TailDistinct(s: seq<Hash>, d: nat)
    requires Distinct(s) && d <= |s|
    ensures Distinct(s[d..])
  {
  }

  lemma OldIsGone(s: seq<Hash>, d: nat, i: nat)
    requires Distinct(s) && i < d <= |s|
    ensures s[i] !in s[d..]
  {
  }

  lemma PushOld(s: seq<Hash>, size: nat, i: nat)
    requires Distinct(s) && size > 0 && i < |s| - size
    ensures s[i] !in Last(s, size)
    ensures Pushed(Last(s, size), size, s[i]) == Last(Without(s, s[i]) + [s[i]], size)
  {
    hide Without, Distinct, Last, Pushed;
    var d := |s| - size;
    OldIsGone(s, d, i);
    WithoutAt(s, s[i], i);
    LastIs(s, size);
    LastIs(s[..i] + s[i + 1..] + [s[i]], size);
    PushedFull(s[d..], size, s[i]);
    OldMoved(s, d, i);
  }

  lemma LastIs(s: seq<Hash>, size: nat)
    requires size <= |s|
    ensures Last(s, size) == s[|s| - size..]
  {
  }

  lemma PushedFull(s: seq<Hash>, size: nat, x: Hash)
    requires |s| == size > 0 && x !in s
    ensures Pushed(s, size, x) == s[1..] + [x]
  {
  }

  lemma OldMoved(s: seq<Hash>, d: nat, i: nat)
    requires i < d < |s|
    ensures (s[..i] + s[i + 1..] + [s[i]])[d..] == s[d..][1..] + [s[i]]
  {
  }

  lemma PushNew(s: seq<Hash>, size: nat, x: Hash)
    requires size > 0 && x !in s
    ensures Pushed(Last(s, size), size, x) == Last(Without(s, x) + [x], size)
  {
    hide Without;
    WithoutAbsent(s, x);
    var w := s + [x];
    if |s| < size {
      assert Last(s, size) == s && Last(w, size) == w;
    } else {
      var d := |s| - size;
      assert Last(s, size) == s[d..] && Last(w, size) == w[d + 1..];
      assert w[d + 1..] == s[d..][1..] + [x];
    }
  }

  /** Pushing onto the most recent ones gives the most recent ones. */
  lemma PushKeepsLast(s: seq<Hash>, size: nat, x: Hash)
    requires Distinct(s) && size > 0
    ensures Pushed(Last(s, size), size, x) == Last(Without(s, x) + [x], size)
  {
    hide Pushed, Last, Without;
    if i: nat :| i < |s| && s[i] == x {
      if i >= |s| - size {
        PushRecent(s, size, i);
      } else {
        PushOld(s, size, i);
      }
    } else {
      PushNew(s, size, x);
    }
  }

  lemma {:induction false} WithoutKeeps(s: seq<Hash>, x: Hash, y: Hash)
    ensures y in Without(s, x) <==> y in s && y != x
    ensures |Without(s, x)| <= |s| && (Distinct(s) ==> Distinct(Without(s, x)))
  {
    if i: nat :| i < |s| && s[i] == x && Distinct(s) {
      WithoutAt(s, x, i);
    }
    if s != [] {
      WithoutKeeps(s[1..], x, y);
      if Distinct(s) && s[0] != x {
        WithoutKeeps(s[1..], x, s[0]);
      }
    }
  }

  function PushOnto(s: seq<Hash>, size: nat, p: seq<Hash>): seq<Hash> {
    if p == [] then s else Pushed(PushOnto(s, size, p[..|p| - 1]), size, p[|p| - 1])
  }

  /** Pushing onto a cache that is not empty: the most recent of what it listed and what was pushed. */
  lemma {:induction false} PushedOntoHoldsMostRecent(s: seq<Hash>, size: nat, p: seq<Hash>)
    requires Distinct(s) && |s| <= size
    ensures PushOnto(s, size, p) == Last(ByLastUse(s + p), size)
  {
    if p == [] {
      assert s + p == s;
      DistinctIsOwnOrder(s);
    } else {
      var k := |p| - 1;
      PushedOntoHoldsMostRecent(s, size, p[..k]);
      assert (s + p)[..|s + p| - 1] == s + p[..k] && (s + p)[|s + p| - 1] == p[k];
      ByLastUseDistinct(s + p[..k]);
      if size > 0 {
        PushKeepsLast(ByLastUse(s + p[..k]), size, p[k]);
      }
    }
  }

  lemma {:induction false} DistinctIsOwnOrder(s: seq<Hash>)
    requires Distinct(s)
    ensures ByLastUse(s) == s
  {
    if s != [] {
      var k := |s| - 1;
      DistinctIsOwnOrder(s[..k]);
      WithoutAbsent(s[..k], s[k]);
    }
  }

  /** No more pushes than the cache is large: each of them is found. */
  lemma {:induction false} PushedIsFound(s: seq<Hash>, size: nat, p: seq<Hash>, i: nat)
    requires Distinct(s) && |p| <= size && i < |p|
    ensures Distinct(PushOnto(s, size, p)) && p[i] in PushOnto(s, size, p)
    ensures exists at :: |PushOnto(s, size, p)| - |p| + i <= at < |PushOnto(s, size, p)| && at >= 0 && PushOnto(s, size, p)[at] == p[i]
  {
    var k := |p| - 1;
    var before := PushOnto(s, size, p[..k]);
    PushOntoDistinct(s, size, p[..k]);
    PushedDistinct(before, size, p[k]);
    var after := Pushed(before, size, p[k]);
    if i == k {
      PushedLast(before, size, p[k]);
    } else {
      PushedIsFound(s, size, p[..k], i);
      var at :| |before| - k + i <= at < |before| && at >= 0 && before[at] == p[i];
      if p[i] == p[k] {
        PushedLast(before, size, p[k]);
      } else {
        PushedShifts(before, size, p[k], at);
      }
    }
  }

  lemma {:induction false} PushOntoDistinct(s: seq<Hash>, size: nat, p: seq<Hash>)
    requires Distinct(s)
    ensures Distinct(PushOnto(s, size, p))
  {
    if p != [] {
      PushOntoDistinct(s, size, p[..|p| - 1]);
      PushedDistinct(PushOnto(s, size, p[..|p| - 1]), size, p[|p| - 1]);
    }
  }

  lemma PushedLast(s: seq<Hash>, size: nat, x: Hash)
    requires size > 0
    ensures Pushed(s, size, x) != [] && Pushed(s, size, x)[|Pushed(s, size, x)| - 1] == x
  {
  }

  /** Another push moves an entry down by at most one place, counted from the end. */
  lemma PushedShifts(s: seq<Hash>, size: nat, x: Hash, at: nat)
    requires Distinct(s) && size > 0 && at < |s| && s[at] != x && (|s| - at < size || |s| < size || x in s)
    ensures exists to: nat :: to < |Pushed(s, size, x)| && |Pushed(s, size, x)| - to <= |s| - at + 1 && Pushed(s, size, x)[to] == s[at]
  {
    var t := Pushed(s, size, x);
    if i: nat :| i < |s| && s[i] == x {
      WithoutAt(s, x, i);
      assert t[if at < i then at else at - 1] == s[at];
    } else if |s| >= size {
      assert t[at - 1] == s[at];
    } else {
      assert t[at] == s[at];
    }
  }

  function PushAll(size: nat, p: seq<Hash>): seq<Hash> {
    if p == [] then [] else Pushed(PushAll(size, p[..|p| - 1]), size, p[|p| - 1])
  }

  /** After any pushes the cache lists exactly the most recently pushed distinct hashes, up to its
      size, in order of last use; so a push finds its hash exactly when it is among them. */
  lemma {:induction false} CacheHoldsMostRecent(size: nat, p: seq<Hash>)
    ensures PushAll(size, p) == Last(ByLastUse(p), size)
  {
    hide Without, Distinct;
    if p != [] {
      var k := |p| - 1;
      CacheHoldsMostRecent(size, p[..k]);
      ByLastUseDistinct(p[..k]);
      if size > 0 {
        PushKeepsLast(ByLastUse(p[..k]), size, p[k]);
      }
    }
  }

  // ----- the cache -------------------------------------------------------------------------------

  /** A list element; the map points at elements by identity. */
  datatype Element = Element(id: nat, hash: Hash)

  function Hashes(list: seq<Element>): (r: seq<Hash>)
    ensures |r| == |list| && forall i :: 0 <= i < |list| ==> r[i] == list[i].hash
  {
    seq(|list|, i requires 0 <= i < |list| => list[i].hash)
  }

  lemma HashesMoved(list: seq<Element>, i: nat)
    requires i < |list|
    ensures Hashes(list[..i] + list[i + 1..] + [list[i]]) == Hashes(list)[..i] + Hashes(list)[i + 1..] + [list[i].hash]
  {
  }

  lemma HashesTail(list: seq<Element>)
    requires list != []
    ensures Hashes(list[1..]) == Hashes(list)[1..]
  {
  }

  lemma HashesAppend(list: seq<Element>, e: Element)
    ensures Hashes(list + [e]) == Hashes(list) + [e.hash]
  {
  }

  /** Map and list in bijection, without duplicates. */
  ghost predicate Linked(list: seq<Element>, index: map<Hash, nat>, nextId: nat) {
    && (forall e :: e in list ==> e.id < nextId && e.hash in index && index[e.hash] == e.id)
    && (forall h :: h in index ==> Element(index[h], h) in list)
    && (forall i, j :: 0 <= i < j < |list| ==> list[i].id != list[j].id)
  }

  lemma LinkedMembers(list: seq<Element>, index: map<Hash, nat>, nextId: nat, h: Hash)
    requires Linked(list, index, nextId)
    ensures Distinct(Hashes(list)) && (h in index <==> h in Hashes(list))
  {
    forall i, j | 0 <= i < j < |list|
      ensures Hashes(list)[i] != Hashes(list)[j]
    {
      assert list[i] in list && list[j] in list;
    }
    if h in index {
      var i :| 0 <= i < |list| && list[i] == Element(index[h], h);
      assert Hashes(list)[i] == h;
    }
    if i: nat :| i < |list| && Hashes(list)[i] == h {
      assert list[i] in list;
    }
  }

  lemma DropMembers(list: seq<Element>, i: nat, e: Element)
    requires i < |list| && forall j, k :: 0 <= j < k < |list| ==> list[j].id != list[k].id
    ensures e in list[..i] + list[i + 1..] <==> e in list && e != list[i]
  {
    if k: nat :| k < |list| && list[k] == e {
      if k < i {
        assert (list[..i] + list[i + 1..])[k] == e;
      } else if k > i {
        assert (list[..i] + list[i + 1..])[k - 1] == e;
      }
    }
    var rest := list[..i] + list[i + 1..];
    if k: nat :| k < |rest| && rest[k] == e {
      assert e == list[if k < i then k else k + 1];
    }
  }

  lemma LinkedDrop(list: seq<Element>, index: map<Hash, nat>, nextId: nat, i: nat)
    requires Linked(list, index, nextId) && i < |list|
    ensures Linked(list[..i] + list[i + 1..], index - {list[i].hash}, nextId)
  {
    var rest := list[..i] + list[i + 1..];
    assert list[i] in list;
    forall e | e in list
      ensures e in rest <==> e != list[i]
      ensures e.hash == list[i].hash <==> e == list[i]
    {
      DropMembers(list, i, e);
    }
    forall e | e in rest
      ensures e in list && e != list[i]
    {
      DropMembers(list, i, e);
    }
  }

  lemma LinkedAdd(list: seq<Element>, index: map<Hash, nat>, nextId: nat, h: Hash)
    requires Linked(list, index, nextId) && h !in index
    ensures Linked(list + [Element(nextId, h)], index[h := nextId], nextId + 1)
  {
    var more := list + [Element(nextId, h)];
    assert more[|list|] == Element(nextId, h);
    forall g | g in index
      ensures Element(index[g], g) in more
    {
    }
    forall i, j | 0 <= i < j < |more|
      ensures more[i].id != more[j].id
    {
      assert list[i] in list;
    }
  }

  /** Moving an element to the back changes no membership. */
  lemma LinkedMove(list: seq<Element>, index: map<Hash, nat>, nextId: nat, i: nat)
    requires Linked(list, index, nextId) && i < |list|
    ensures Linked(list[..i] + list[i + 1..] + [list[i]], index, nextId)
  {
    var moved := list[..i] + list[i + 1..] + [list[i]];
    forall e: Element
      ensures e in moved <==> e in list
    {
      DropMembers(list, i, e);
    }
  }

  class MapTxCache {
    const size: nat
    var index: map<Hash, nat>
    var list: seq<Element>
    var nextId: nat

    ghost predicate Valid()
      reads this
    {
      size > 0 && |list| <= size && Linked(list, index, nextId)
    }

    constructor (size: nat)
      requires size > 0
      ensures Valid() && this.size == size && Hashes(list) == []
    {
      this.size := size;
      index := map[];
      list := [];
      nextId := 0;
    }

    method Position(id: nat) returns (i: nat)
      requires exists k :: 0 <= k < |list| && list[k].id == id
      ensures i < |list| && list[i].id == id
    {
      i := 0;
      while list[i].id != id
        invariant i < |list| && forall k :: 0 <= k < i ==> list[k].id != id
        decreases |list| - i
      {
        i := i + 1;
      }
    }

    method Push(h: Hash) returns (added: bool)
      requires Valid()
      modifies this
      ensures Valid() && added == (h !in old(Hashes(list)))
      ensures Hashes(list) == Pushed(old(Hashes(list)), size, h)
    {
      hide Linked, Without, Distinct, Hashes;
      LinkedMembers(list, index, nextId, h);
      if h in index {
        HasElement(list, index, nextId, h);
        var i := Position(index[h]);
        SameElement(list, index, nextId, h, i);
        WithoutAt(Hashes(list), h, i);
        LinkedMove(list, index, nextId, i);
        HashesMoved(list, i);
        list := list[..i] + list[i + 1..] + [list[i]];
        return false;
      }
      if |list| >= size {
        LinkedDrop(list, index, nextId, 0);
        assert list[..0] + list[1..] == list[1..];
        HashesTail(list);
        var popped := list[0];
        index := index - {popped.hash};
        list := list[1..];
      }
      LinkedAdd(list, index, nextId, h);
      HashesAppend(list, Element(nextId, h));
      list := list + [Element(nextId, h)];
      index := index[h := nextId];
      nextId := nextId + 1;
      added := true;
    }

    method Remove(h: Hash)
      requires Valid()
      modifies this
      ensures Valid() && Hashes(list) == Without(old(Hashes(list)), h)
    {
      hide Linked;
      LinkedMembers(list, index, nextId, h);
      if h in index {
        HasElement(list, index, nextId, h);
        var i := Position(index[h]);
        SameElement(list, index, nextId, h, i);
        WithoutAt(Hashes(list), h, i);
        LinkedDrop(list, index, nextId, i);
        assert Hashes(list[..i] + list[i + 1..]) == Hashes(list)[..i] + Hashes(list)[i + 1..];
        index := index - {h};
        list := list[..i] + list[i + 1..];
      } else {
        WithoutAbsent(Hashes(list), h);
      }
    }

    method Reset()
      requires Valid()
      modifies this
      ensures Valid() && Hashes(list) == []
    {
      index := map[];
      list := [];
    }
  }

  lemma HasElement(list: seq<Element>, index: map<Hash, nat>, nextId: nat, h: Hash)
    requires Linked(list, index, nextId) && h in index
    ensures exists k :: 0 <= k < |list| && list[k].id == index[h]
  {
    var k :| 0 <= k < |list| && list[k] == Element(index[h], h);
  }

  lemma SameElement(list: seq<Element>, index: map<Hash, nat>, nextId: nat, h: Hash, i: nat)
    requires Linked(list, index, nextId) && h in index && i < |list| && list[i].id == index[h]
    ensures list[i].hash == h
  {
    var k :| 0 <= k < |list| && list[k] == Element(index[h], h);
  }
}
