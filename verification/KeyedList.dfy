/** Removing the first entry with a key, over and over: the shape of both the cross-message database
    and the relation table. Done for a list of keys it is one pass that drops, per key, as many
    entries from the front as the list names that key. */
module KeyedList {

  function RemoveFirst<T, K(==)>(s: seq<T>, key: T -> K, k: K): seq<T> {
    if s == [] then [] else if key(s[0]) == k then s[1..] else [s[0]] + RemoveFirst(s[1..], key, k)
  }

  /** `RemoveFirst` for each key of a list in turn. */
  function RemoveEach<T, K(==)>(s: seq<T>, key: T -> K, ks: seq<K>): seq<T> {
    if ks == [] then s else RemoveFirst(RemoveEach(s, key, ks[..|ks| - 1]), key, ks[|ks| - 1])
  }

  /** One pass: an entry goes while its key is still due. */
  function DropDue<T, K(==)>(s: seq<T>, key: T -> K, due: multiset<K>): seq<T> {
    if s == [] then []
    else if key(s[0]) in due then DropDue(s[1..], key, due - multiset{key(s[0])})
    else [s[0]] + DropDue(s[1..], key, due)
  }

  function Count<T, K(==)>(s: seq<T>, key: T -> K, k: K): nat {
    if s == [] then 0 else (if key(s[0]) == k then 1 else 0) + Count(s[1..], key, k)
  }

  /** An entry put at the end is removed only after every earlier one with its key. */
  lemma {:induction false} RemoveFirstSnoc<T, K>(s: seq<T>, key: T -> K, x: T, k: K)
    ensures RemoveFirst(s + [x], key, k) ==
            if Count(s, key, k) > 0 then RemoveFirst(s, key, k) + [x] else if key(x) == k then s else s + [x]
  {
    if s == [] {
      assert [x][1..] == [];
    } else {
      assert (s + [x])[1..] == s[1..] + [x] && s == [s[0]] + s[1..];
      RemoveFirstSnoc(s[1..], key, x, k);
    }
  }

  lemma {:induction false} DropNone<T, K>(s: seq<T>, key: T -> K)
    ensures DropDue(s, key, multiset{}) == s
  {
    if s != [] {
      DropNone(s[1..], key);
    }
  }

  /** One more key due is one more removal from what the pass leaves. */
  lemma {:induction false} DropOneMore<T, K>(s: seq<T>, key: T -> K, due: multiset<K>, k: K)
    ensures DropDue(s, key, due + multiset{k}) == RemoveFirst(DropDue(s, key, due), key, k)
  {
    if s != [] {
      var x := key(s[0]);
      var more := due + multiset{k};
      if x in due {
        assert more - multiset{x} == (due - multiset{x}) + multiset{k};
        DropOneMore(s[1..], key, due - multiset{x}, k);
      } else if x == k {
        assert more - multiset{x} == due;
        assert ([s[0]] + DropDue(s[1..], key, due))[1..] == DropDue(s[1..], key, due);
      } else {
        DropOneMore(s[1..], key, due, k);
        assert ([s[0]] + DropDue(s[1..], key, due))[1..] == DropDue(s[1..], key, due);
      }
    }
  }

  lemma {:induction false} RemoveEachIsOnePass<T, K>(s: seq<T>, key: T -> K, ks: seq<K>)
    ensures RemoveEach(s, key, ks) == DropDue(s, key, multiset(ks))
  {
    if ks == [] {
      DropNone(s, key);
    } else {
      var n := |ks| - 1;
      RemoveEachIsOnePass(s, key, ks[..n]);
      assert ks == ks[..n] + [ks[n]];
      DropOneMore(s, key, multiset(ks[..n]), ks[n]);
    }
  }

  /** Per key, exactly the lesser of what was there and what was due is gone. */
  lemma {:induction false} DropCounts<T, K>(s: seq<T>, key: T -> K, due: multiset<K>, k: K)
    ensures Count(DropDue(s, key, due), key, k) == if Count(s, key, k) <= due[k] then 0 else Count(s, key, k) - due[k]
  {
    if s != [] {
      var x := key(s[0]);
      if x in due {
        DropCounts(s[1..], key, due - multiset{x}, k);
      } else {
        DropCounts(s[1..], key, due, k);
        assert ([s[0]] + DropDue(s[1..], key, due))[1..] == DropDue(s[1..], key, due);
      }
    }
  }

  /** What is left keeps its order: it is the list at increasing positions. */
  ghost predicate Subsequence<T>(a: seq<T>, s: seq<T>) {
    if a == [] then true
    else if s == [] then false
    else Subsequence(a, s[1..]) || (a[0] == s[0] && Subsequence(a[1..], s[1..]))
  }

  lemma {:induction false} DropKeepsOrder<T, K>(s: seq<T>, key: T -> K, due: multiset<K>)
    ensures Subsequence(DropDue(s, key, due), s)
  {
    if s != [] {
      var x := key(s[0]);
      if x in due {
        DropKeepsOrder(s[1..], key, due - multiset{x});
      } else {
        DropKeepsOrder(s[1..], key, due);
        assert ([s[0]] + DropDue(s[1..], key, due))[1..] == DropDue(s[1..], key, due);
      }
    }
  }

  lemma {:induction false} RemoveFirstAt<T, K>(s: seq<T>, key: T -> K, k: K, i: nat)
    requires i < |s| && key(s[i]) == k && forall j :: 0 <= j < i ==> key(s[j]) != k
    ensures RemoveFirst(s, key, k) == s[..i] + s[i + 1..]
  {
    if i > 0 {
      RemoveFirstAt(s[1..], key, k, i - 1);
      assert s[1..][..i - 1] == s[1..i] && s[1..][i..] == s[i + 1..];
      assert [s[0]] + s[1..i] == s[..i];
    }
  }

  lemma {:induction false} RemoveAbsent<T, K>(s: seq<T>, key: T -> K, k: K)
    requires forall j :: 0 <= j < |s| ==> key(s[j]) != k
    ensures RemoveFirst(s, key, k) == s
  {
    if s != [] {
      RemoveAbsent(s[1..], key, k);
    }
  }
}
