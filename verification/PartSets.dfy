/** Splitting a block into parts, collecting parts in any order, and reading the bytes back
    (`types/part_set.go`). */
module PartSets {
  import opened Options
  import opened Merkle

  datatype Part = Part(index: nat, bytes: Bytes, proof: Proof)

  // ----- splitting -------------------------------------------------------------------------------

  function Chunks(data: Bytes, size: nat): seq<Bytes>
    requires size > 0
  {
    if data == [] then [] else if |data| <= size then [data] else [data[..size]] + Chunks(data[size..], size)
  }

  function Flatten(cs: seq<Bytes>): Bytes {
    if cs == [] then [] else cs[0] + Flatten(cs[1..])
  }

  function TotalParts(n: nat, size: nat): nat
    requires size > 0
  {
    (n + size - 1) / size
  }

  lemma {:induction false} ChunksRejoin(data: Bytes, size: nat)
    requires size > 0
    ensures Flatten(Chunks(data, size)) == data
  {
    if |data| > size {
      ChunksRejoin(data[size..], size);
      assert ([data[..size]] + Chunks(data[size..], size))[1..] == Chunks(data[size..], size);
    } else if data != [] {
      assert [data][1..] == [];
    }
  }

  lemma MulLess(a: nat, b: nat, size: nat)
    requires a < b
    ensures a * size + size <= b * size
  {
    assert b * size == a * size + size + (b - a - 1) * size;
  }

  lemma DivUnique(a: nat, size: nat, q: nat)
    requires size > 0 && q * size <= a < q * size + size
    ensures a / size == q
  {
    var r := a / size;
    assert a == r * size + a % size;
    if r < q {
      MulLess(r, q, size);
    } else if q < r {
      MulLess(q, r, size);
    }
  }

  /** Rounding up counts the chunks. */
  lemma {:induction false} ChunkCount(data: Bytes, size: nat)
    requires size > 0
    ensures |Chunks(data, size)| == TotalParts(|data|, size)
  {
    if |data| > size {
      ChunkCount(data[size..], size);
      var q := |Chunks(data[size..], size)|;
      var a := |data| - 1;
      assert a == (a / size) * size + a % size;
      assert (q + 1) * size == q * size + size;
      DivUnique(|data| + size - 1, size, q + 1);
    } else if data != [] {
      assert 1 * size == size;
      DivUnique(|data| + size - 1, size, 1);
    } else {
      assert 0 * size == 0;
      DivUnique(size - 1, size, 0);
    }
  }

  /** The i-th chunk is the i-th stretch of `size` bytes, the last one shorter, and none is empty. */
  lemma {:induction false} ChunkAt(data: Bytes, size: nat, i: nat, lo: nat)
    requires size > 0 && i < |Chunks(data, size)| && lo == i * size
    ensures var hi := if |data| < lo + size then |data| else lo + size;
            lo < hi && Chunks(data, size)[i] == data[lo..hi]
  {
    if i > 0 {
      assert lo == (i - 1) * size + size;
      ChunkAt(data[size..], size, i - 1, lo - size);
    }
  }

  function Produced(d: Digest, data: Bytes, size: nat, i: nat): Part
    requires size > 0 && i < |Chunks(data, size)|
  {
    Part(i, Chunks(data, size)[i], ProofOf(d, Chunks(data, size), i))
  }

  // ----- collecting ------------------------------------------------------------------------------

  datatype AddResult = AddedPart | AlreadyThere | UnexpectedIndex | InvalidProof

  function Place(d: Digest, hash: Bytes, slots: seq<Option<Part>>, p: Part): (seq<Option<Part>>, AddResult) {
    if p.index >= |slots| then (slots, UnexpectedIndex)
    else if slots[p.index].Some? then (slots, AlreadyThere)
    else if !Verifies(d, hash, p.bytes, p.proof) then (slots, InvalidProof)
    else (slots[p.index := Some(p)], AddedPart)
  }

  function NoParts(n: nat): seq<Option<Part>> {
    seq(n, i => None)
  }

  function Filled(slots: seq<Option<Part>>): nat {
    if slots == [] then 0 else Filled(slots[..|slots| - 1]) + (if slots[|slots| - 1].Some? then 1 else 0)
  }

  lemma {:induction false} FillOne(slots: seq<Option<Part>>, i: nat, p: Part)
    requires i < |slots| && slots[i].None?
    ensures Filled(slots[i := Some(p)]) == Filled(slots) + 1
  {
    var n := |slots| - 1;
    if i < n {
      FillOne(slots[..n], i, p);
      assert slots[i := Some(p)][..n] == slots[..n][i := Some(p)];
    } else {
      assert slots[i := Some(p)][..n] == slots[..n];
    }
  }

  lemma {:induction false} AllFilled(slots: seq<Option<Part>>)
    ensures Filled(slots) <= |slots|
    ensures Filled(slots) == |slots| <==> forall i :: 0 <= i < |slots| ==> slots[i].Some?
  {
    if slots != [] {
      AllFilled(slots[..|slots| - 1]);
    }
  }

  lemma {:induction false} NoneFilled(n: nat)
    ensures Filled(NoParts(n)) == 0
  {
    if n > 0 {
      NoneFilled(n - 1);
      assert NoParts(n)[..n - 1] == NoParts(n - 1);
    }
  }

  class PartSet {
    const total: nat
    const hash: Bytes
    const parts: array<Option<Part>>
    const bits: array<bool>
    var count: nat

    /** The counter and the bit array agree with the slots. */
    ghost predicate Valid()
      reads this, parts, bits
    {
      && parts.Length == bits.Length == total
      && count == Filled(parts[..])
      && (forall i :: 0 <= i < total ==> bits[i] == parts[i].Some?)
    }

    constructor FromHeader(total: nat, hash: Bytes)
      ensures Valid() && fresh(parts) && fresh(bits) && this.total == total && this.hash == hash
      ensures parts[..] == NoParts(total)
    {
      this.total := total;
      this.hash := hash;
      parts := new Option<Part>[total](i => None);
      bits := new bool[total](i => false);
      count := 0;
      new;
      assert parts[..] == NoParts(total);
      NoneFilled(total);
    }

    /** No set: splitting nothing panics, for there is no root. */
    static method FromBytes(d: Digest, data: Bytes, size: nat) returns (r: PartSet?)
      requires size > 0
      ensures r == null <==> data == []
      ensures r != null ==> && r.Valid() && fresh(r) && fresh(r.parts) && fresh(r.bits) && r.IsComplete()
                            && r.total == |Chunks(data, size)| && r.hash == Root(d, Chunks(data, size))
                            && forall i :: 0 <= i < r.total ==> r.parts[i] == Some(Produced(d, data, size, i))
    {
      if data == [] {
        return null;
      }
      r := new PartSet.FromData(d, data, size);
    }

    static method Cut(data: Bytes, size: nat) returns (chunks: seq<Bytes>)
      requires size > 0
      ensures chunks == Chunks(data, size)
    {
      ChunkCount(data, size);
      var n := (|data| + size - 1) / size;
      chunks := [];
      for i := 0 to n
        invariant |chunks| == i && forall j :: 0 <= j < i ==> chunks[j] == Chunks(data, size)[j]
      {
        ChunkAt(data, size, i, i * size);
        var hi := if |data| < i * size + size then |data| else i * size + size;
        chunks := chunks + [data[i * size..hi]];
      }
    }

    constructor FromData(d: Digest, data: Bytes, size: nat)
      requires size > 0 && data != []
      ensures Valid() && fresh(parts) && fresh(bits)
      ensures total == |Chunks(data, size)| && hash == Root(d, Chunks(data, size)) && count == total
      ensures forall i :: 0 <= i < total ==> parts[i] == Some(Produced(d, data, size, i))
    {
      hide Root, ProofOf, Chunks;
      var chunks := Cut(data, size);
      var n := |chunks|;
      total := n;
      hash := Root(d, chunks);
      parts := new Option<Part>[n](i => None);
      bits := new bool[n](i => false);
      count := n;
      new;
      for i := 0 to total
        invariant parts.Length == bits.Length == total == count == |Chunks(data, size)| && fresh(parts) && fresh(bits)
        invariant forall j :: 0 <= j < i ==> parts[j] == Some(Produced(d, data, size, j)) && bits[j]
      {
        parts[i] := Some(Part(i, chunks[i], ProofOf(d, chunks, i)));
        bits[i] := true;
      }
      assert forall i :: 0 <= i < total ==> parts[..][i].Some?;
      AllFilled(parts[..]);
    }

    method AddPart(d: Digest, p: Part) returns (r: AddResult)
      requires Valid()
      modifies this, parts, bits
      ensures Valid() && (parts[..], r) == Place(d, hash, old(parts[..]), p)
      ensures r.AddedPart? <==> p.index < total && old(parts[..])[p.index].None? && Verifies(d, hash, p.bytes, p.proof)
      ensures r.UnexpectedIndex? <==> p.index >= total
      ensures r.AlreadyThere? <==> p.index < total && old(parts[..])[p.index].Some?
      ensures parts[..] == (if r.AddedPart? then old(parts[..])[p.index := Some(p)] else old(parts[..]))
      ensures count == old(count) + (if r.AddedPart? then 1 else 0)
    {
      if p.index >= total {
        return UnexpectedIndex;
      }
      if parts[p.index].Some? {
        return AlreadyThere;
      }
      if !Verifies(d, hash, p.bytes, p.proof) {
        return InvalidProof;
      }
      FillOne(parts[..], p.index, p);
      parts[p.index] := Some(p);
      bits[p.index] := true;
      count := count + 1;
      assert parts[..] == old(parts[..])[p.index := Some(p)];
      return AddedPart;
    }

    predicate IsComplete()
      reads this
    {
      count == total
    }

    /** No reader: the method panics, on an incomplete set, or on an empty one for want of a first part. */
    method GetReader() returns (r: PartSetReader?)
      requires Valid()
      ensures r == null <==> total == 0 || exists i :: 0 <= i < total && parts[i].None?
      ensures r != null ==> fresh(r) && (forall i :: 0 <= i < total ==> parts[i].Some?)
                            && r.Remaining() == Flatten(PartBytes(parts[..]))
    {
      hide Flatten;
      AllFilled(parts[..]);
      assert forall i :: 0 <= i < total ==> parts[i] == parts[..][i];
      if count != total || total == 0 {
        return null;
      }
      r := new PartSetReader(PartBytes(parts[..]));
    }
  }

  /** Adding parts one after the other. */
  function PlaceAll(d: Digest, hash: Bytes, slots: seq<Option<Part>>, ps: seq<Part>): seq<Option<Part>> {
    if ps == [] then slots else Place(d, hash, PlaceAll(d, hash, slots, ps[..|ps| - 1]), ps[|ps| - 1]).0
  }

  function Pick(d: Digest, data: Bytes, size: nat, order: seq<nat>): seq<Part>
    requires size > 0 && forall k :: 0 <= k < |order| ==> order[k] < |Chunks(data, size)|
  {
    seq(|order|, k requires 0 <= k < |order| => Produced(d, data, size, order[k]))
  }

  /** In any order, with any repetition: a slot holds its produced part exactly when that part has
      been added. */
  lemma {:induction false} SlotsAfter(d: Digest, data: Bytes, size: nat, order: seq<nat>)
    requires size > 0 && forall k :: 0 <= k < |order| ==> order[k] < |Chunks(data, size)|
    ensures var cs := Chunks(data, size);
            var slots := PlaceAll(d, Root(d, cs), NoParts(|cs|), Pick(d, data, size, order));
            && |slots| == |cs|
            && (forall i: nat :: i < |cs| ==> slots[i] == if i in order then Some(Produced(d, data, size, i)) else None)
  {
    hide Root, ProofOf, Verifies;
    if order != [] {
      var n := |order| - 1;
      SlotsAfter(d, data, size, order[..n]);
      assert Pick(d, data, size, order)[..n] == Pick(d, data, size, order[..n]);
      assert order == order[..n] + [order[n]];
      ProofsVerify(d, Chunks(data, size), order[n]);
    }
  }

  function PartBytes(slots: seq<Option<Part>>): seq<Bytes>
    requires forall i :: 0 <= i < |slots| ==> slots[i].Some?
  {
    seq(|slots|, i requires 0 <= i < |slots| => slots[i].value.bytes)
  }

  /** Split and reassemble: collecting the produced parts in any order, with repetitions, completes
      the set exactly when every index has been added, and then the parts hold the data. */
  lemma Reassembles(d: Digest, data: Bytes, size: nat, order: seq<nat>)
    requires size > 0 && forall k :: 0 <= k < |order| ==> order[k] < |Chunks(data, size)|
    ensures var cs := Chunks(data, size);
            var slots := PlaceAll(d, Root(d, cs), NoParts(|cs|), Pick(d, data, size, order));
            && (Filled(slots) == |cs| <==> forall i: nat :: i < |cs| ==> i in order)
            && (Filled(slots) == |cs| ==>
                  (forall i :: 0 <= i < |slots| ==> slots[i].Some?) && Flatten(PartBytes(slots)) == data)
  {
    SlotsAfter(d, data, size, order);
    var cs := Chunks(data, size);
    var slots := PlaceAll(d, Root(d, cs), NoParts(|cs|), Pick(d, data, size, order));
    AllFilled(slots);
    if Filled(slots) == |cs| {
      assert PartBytes(slots) == cs;
      ChunksRejoin(data, size);
    }
  }

  /** Every slot filled from empty holds a part that names the slot and verifies. */
  lemma {:induction false} PlacedVerify(d: Digest, hash: Bytes, n: nat, ps: seq<Part>)
    ensures var slots := PlaceAll(d, hash, NoParts(n), ps);
            |slots| == n && forall i :: 0 <= i < n && slots[i].Some? ==>
              slots[i].value.index == i && Verifies(d, hash, slots[i].value.bytes, slots[i].value.proof)
  {
    hide Verifies;
    if ps != [] {
      PlacedVerify(d, hash, n, ps[..|ps| - 1]);
    }
  }

  predicate Complete(slots: seq<Option<Part>>) {
    forall i :: 0 <= i < |slots| ==> slots[i].Some?
  }

  /** The check collecting could make, and the code does not: the part's proof is for its own index in a
      tree of as many parts as the set has. */
  predicate Guarded(slots: seq<Option<Part>>, i: nat)
    requires Complete(slots) && i < |slots|
  {
    slots[i].value.proof.total == |slots| && slots[i].value.proof.index == i
  }

  /** The chunk a part brings, known from its proof's index and total and the size of the set. */
  function Brings(slots: seq<Option<Part>>, i: nat): (r: nat)
    requires Complete(slots) && i < |slots|
    ensures r < |slots|
  {
    var p := slots[i].value.proof;
    if 0 <= p.index < p.total then Reached(|slots|, p.index, p.total) else 0
  }

  /** Each slot's bytes are the chunk its part brings. */
  ghost predicate AllBring(cs: seq<Bytes>, slots: seq<Option<Part>>) {
    && |slots| == |cs| && Complete(slots)
    && forall i: nat :: i < |slots| ==> slots[i].value.bytes == cs[Brings(slots, i)]
  }

  /** Each slot has the chunk that belongs there. */
  ghost predicate AllInPlace(cs: seq<Bytes>, slots: seq<Option<Part>>)
    requires |slots| == |cs| && Complete(slots)
  {
    forall i: nat :: i < |slots| ==> cs[Brings(slots, i)] == cs[i]
  }

  ghost predicate SameLengths(cs: seq<Bytes>, slots: seq<Option<Part>>)
    requires |slots| == |cs| && Complete(slots)
  {
    forall i: nat :: i < |slots| ==> |slots[i].value.bytes| == |cs[i]|
  }

  lemma PartsBring(d: Digest, cs: seq<Bytes>, ps: seq<Part>)
    requires CollisionFree(d) && Filled(PlaceAll(d, Root(d, cs), NoParts(|cs|), ps)) == |cs|
    ensures AllBring(cs, PlaceAll(d, Root(d, cs), NoParts(|cs|), ps))
  {
    hide PlaceAll, Verifies, Root, Reached, CollisionFree, Filled;
    PlacedVerify(d, Root(d, cs), |cs|, ps);
    var slots := PlaceAll(d, Root(d, cs), NoParts(|cs|), ps);
    AllFilled(slots);
    forall i: nat | i < |slots|
      ensures slots[i].value.bytes == cs[Brings(slots, i)]
    {
      VerifiedItem(d, cs, slots[i].value.bytes, slots[i].value.proof);
    }
  }

  lemma GuardedBringsOwn(slots: seq<Option<Part>>, i: nat)
    requires Complete(slots) && i < |slots| && Guarded(slots, i)
    ensures Brings(slots, i) == i
  {
    OwnTotalReachesIndex(|slots|, i);
  }

  /** Whatever parts arrive, a complete set holds in each slot the chunk that part brings. If each part
      is guarded the set holds the data. Where the parts have the lengths their slots ask for, as when the
      data fills its parts, the set holds the data exactly when each slot's chunk equals the one that
      belongs there. */
  lemma AnyPartsReassemble(d: Digest, data: Bytes, size: nat, ps: seq<Part>)
    requires CollisionFree(d) && size > 0
    requires var cs := Chunks(data, size); Filled(PlaceAll(d, Root(d, cs), NoParts(|cs|), ps)) == |cs|
    ensures var cs := Chunks(data, size);
            var slots := PlaceAll(d, Root(d, cs), NoParts(|cs|), ps);
            && AllBring(cs, slots)
            && ((forall i: nat :: i < |slots| ==> Guarded(slots, i)) ==> AllInPlace(cs, slots))
            && (AllInPlace(cs, slots) ==> Flatten(PartBytes(slots)) == data)
            && (SameLengths(cs, slots) || |data| % size == 0 ==>
                  (Flatten(PartBytes(slots)) == data <==> AllInPlace(cs, slots)))
  {
    hide PlaceAll, Flatten, Chunks, Root, CollisionFree, Filled, Brings, SameLengths, PartBytes;
    var cs := Chunks(data, size);
    var slots := PlaceAll(d, Root(d, cs), NoParts(|cs|), ps);
    PartsBring(d, cs, ps);
    if forall i: nat :: i < |slots| ==> Guarded(slots, i) {
      forall i: nat | i < |slots|
        ensures cs[Brings(slots, i)] == cs[i]
      {
        GuardedBringsOwn(slots, i);
      }
    }
    if AllInPlace(cs, slots) {
      InPlaceJoins(data, size, slots);
    } else if SameLengths(cs, slots) || |data| % size == 0 {
      MisplacedShows(data, size, slots);
    }
  }

  lemma InPlaceJoins(data: Bytes, size: nat, slots: seq<Option<Part>>)
    requires size > 0 && AllBring(Chunks(data, size), slots) && AllInPlace(Chunks(data, size), slots)
    ensures Flatten(PartBytes(slots)) == data
  {
    hide Flatten, Chunks, Brings;
    ChunksRejoin(data, size);
    assert PartBytes(slots) == Chunks(data, size);
  }

  /** A chunk out of place shows in the bytes, unless lengths differ too. */
  lemma MisplacedShows(data: Bytes, size: nat, slots: seq<Option<Part>>)
    requires size > 0 && AllBring(Chunks(data, size), slots) && !AllInPlace(Chunks(data, size), slots)
    requires SameLengths(Chunks(data, size), slots) || |data| % size == 0
    ensures Flatten(PartBytes(slots)) != data
  {
    hide Flatten, Chunks, Brings;
    var cs := Chunks(data, size);
    ChunksRejoin(data, size);
    forall i: nat | i < |slots|
      ensures |PartBytes(slots)[i]| == |cs[i]|
    {
      if |data| % size == 0 {
        FullChunk(data, size, i);
        FullChunk(data, size, Brings(slots, i));
      }
    }
    var i: nat :| i < |slots| && cs[Brings(slots, i)] != cs[i];
    assert PartBytes(slots)[i] != cs[i];
    if Flatten(PartBytes(slots)) == Flatten(cs) {
      FlattenExact(PartBytes(slots), cs);
      assert false;
    }
  }

  lemma {:induction false} FullChunk(data: Bytes, size: nat, i: nat)
    requires size > 0 && |data| % size == 0 && i < |Chunks(data, size)|
    ensures |Chunks(data, size)[i]| == size
  {
    if |data| > size {
      var q := |data| / size;
      assert |data| == q * size;
      assert |data[size..]| == (q - 1) * size;
      ModOfMultiple(q - 1, size);
      if i > 0 {
        FullChunk(data[size..], size, i - 1);
      }
    }
  }

  lemma ModOfMultiple(q: nat, size: nat)
    requires size > 0
    ensures (q * size) % size == 0
  {
    DivUnique(q * size, size, q);
  }

  /** Joined, chunks of the same lengths are what they were. */
  lemma {:induction false} FlattenExact(a: seq<Bytes>, b: seq<Bytes>)
    requires |a| == |b| && Flatten(a) == Flatten(b)
    requires forall i :: 0 <= i < |a| ==> |a[i]| == |b[i]|
    ensures a == b
  {
    if a != [] {
      var n := |a[0]|;
      assert a[0] == Flatten(a)[..n] && b[0] == Flatten(b)[..n];
      assert Flatten(a[1..]) == Flatten(a)[n..] && Flatten(b[1..]) == Flatten(b)[n..];
      FlattenExact(a[1..], b[1..]);
      assert a == [a[0]] + a[1..] && b == [b[0]] + b[1..];
    }
  }

  lemma OneByOne()
    ensures Chunks([1, 2], 1) == [[1], [2]] && Chunks([1, 2, 3], 1) == [[1], [2], [3]]
  {
    assert [1, 2][..1] == [1] && [1, 2][1..] == [2];
    assert [1, 2, 3][..1] == [1] && [1, 2, 3][1..] == [2, 3];
    assert [2, 3][..1] == [2] && [2, 3][1..] == [3];
    assert Chunks([2], 1) == [[2]] && Chunks([3], 1) == [[3]];
    assert Chunks([2, 3], 1) == [[2], [3]];
  }

  /** Placing parts that verify, each in a slot of its own, fills the slots. */
  lemma {:induction false} PlacedInTurn(d: Digest, hash: Bytes, total: nat, ps: seq<Part>)
    requires |ps| <= total && forall i :: 0 <= i < |ps| ==> ps[i].index == i && Verifies(d, hash, ps[i].bytes, ps[i].proof)
    ensures PlaceAll(d, hash, NoParts(total), ps) == seq(total, i requires 0 <= i => if i < |ps| then Some(ps[i]) else None)
  {
    hide Verifies;
    if ps != [] {
      PlacedInTurn(d, hash, total, ps[..|ps| - 1]);
    }
  }

  /** Two parts with each other's index are both accepted, the set is complete, and the bytes come out
      the wrong way round. */
  lemma SwappedPartsAccepted(d: Digest)
    ensures var cs := [[1], [2]];
            var swapped := [Part(0, [2], ProofOf(d, cs, 1)), Part(1, [1], ProofOf(d, cs, 0))];
            var slots := PlaceAll(d, Root(d, cs), NoParts(2), swapped);
            && Chunks([1, 2], 1) == cs
            && slots == [Some(swapped[0]), Some(swapped[1])] && Flatten(PartBytes(slots)) == [2, 1]
  {
    hide Verifies, ProofOf, Root;
    OneByOne();
    var cs: seq<Bytes> := [[1], [2]];
    ProofsVerify(d, cs, 0);
    ProofsVerify(d, cs, 1);
    var swapped := [Part(0, [2], ProofOf(d, cs, 1)), Part(1, [1], ProofOf(d, cs, 0))];
    PlacedInTurn(d, Root(d, cs), 2, swapped);
    var slots := PlaceAll(d, Root(d, cs), NoParts(2), swapped);
    assert slots == [Some(swapped[0]), Some(swapped[1])];
    assert PartBytes(slots) == [[2], [1]];
    FlattenTwo([2], [1]);
  }

  /** The index alone is not enough: a part whose proof carries the part's own index, but the total of a
      smaller tree, is accepted with another chunk. Every part of the complete set carries its own index
      in its proof, and the second chunk is lost. */
  lemma OtherTotalAccepted(d: Digest)
    ensures var cs := [[1], [2], [3]];
            var ps := [Part(0, [1], ProofOf(d, cs, 0)), Part(1, [3], LastOfThree(d, [1], [2], [3])), Part(2, [3], ProofOf(d, cs, 2))];
            var slots := PlaceAll(d, Root(d, cs), NoParts(3), ps);
            && Chunks([1, 2, 3], 1) == cs
            && slots == [Some(ps[0]), Some(ps[1]), Some(ps[2])]
            && (forall i :: 0 <= i < 3 ==> ps[i].proof.index == ps[i].index == i)
            && Flatten(PartBytes(slots)) == [1, 3, 3]
  {
    hide Verifies, Root;
    OneByOne();
    var cs: seq<Bytes> := [[1], [2], [3]];
    ProofsVerify(d, cs, 0);
    ProofsVerify(d, cs, 2);
    OtherTotalVerifies(d, [1], [2], [3]);
    var ps := [Part(0, [1], ProofOf(d, cs, 0)), Part(1, [3], LastOfThree(d, [1], [2], [3])), Part(2, [3], ProofOf(d, cs, 2))];
    PlacedInTurn(d, Root(d, cs), 3, ps);
    var slots := PlaceAll(d, Root(d, cs), NoParts(3), ps);
    assert slots == [Some(ps[0]), Some(ps[1]), Some(ps[2])];
    var bytes: seq<Bytes> := PartBytes(slots);
    assert bytes == [[1], [3], [3]] && bytes[1..] == [[3], [3]];
    FlattenTwo([3], [3]);
  }

  lemma FlattenTwo(a: Bytes, b: Bytes)
    ensures Flatten([a, b]) == a + b
  {
    var one: seq<Bytes> := [b];
    assert [a, b][1..] == one && one[1..] == [];
    assert Flatten(one) == b;
  }

  // ----- reading ---------------------------------------------------------------------------------

  function Min(a: nat, b: nat): nat {
    if a < b then a else b
  }

  /** Of the bytes `all`, a buffer of n gets the first n, or all of them and the end of file. */
  ghost predicate Takes(all: Bytes, n: nat, out: Bytes, left: Bytes, eof: bool) {
    && out == all[..Min(n, |all|)] && left == all[Min(n, |all|)..]
    && eof == (|all| < n)
  }

  /** A cursor over the parts: the part it is in and what is unread of it. */
  class PartSetReader {
    const parts: seq<Bytes>
    var i: nat
    var rest: Bytes

    constructor (parts: seq<Bytes>)
      requires parts != []
      ensures this.parts == parts && Remaining() == Flatten(parts)
    {
      this.parts := parts;
      i := 0;
      rest := parts[0];
    }

    ghost function Remaining(): Bytes
      reads this
    {
      rest + (if i < |parts| then Flatten(parts[i + 1..]) else [])
    }

    /** Fills a buffer of n bytes from what remains; end of file exactly when that is too little,
        possibly with bytes delivered. */
    method Read(n: nat) returns (out: Bytes, eof: bool)
      requires n > 0
      modifies this
      ensures Takes(old(Remaining()), n, out, Remaining(), eof)
      ensures i >= old(i)
      decreases if i <= |parts| then |parts| - i else 0, n
    {
      hide Takes, Flatten;
      ghost var all := Remaining();
      if |rest| >= n {
        out, eof := rest[..n], false;
        rest := rest[n..];
        TakesFront(all, n, out, Remaining());
      } else if |rest| > 0 {
        ghost var k := |rest|;
        var first, e := Read(|rest|);
        TakesAll(all, k, first, Remaining(), e);
        if e {
          assert false;
        }
        var second;
        second, eof := Read(n - |first|);
        out := first + second;
        TakesTwice(all, k, n, first, second, Remaining(), eof);
      } else {
        ghost var before := i;
        i := i + 1;
        if i >= |parts| {
          TakesNothing(parts, before, n);
          return [], true;
        }
        assert all == Flatten(parts[i..]);
        FlattenStep(parts, i);
        rest := parts[i];
        out, eof := Read(n);
      }
    }

    /** Reading with any non-empty buffers until the end of file returns everything that remained. */
    method ReadAll(bufferSize: nat -> nat) returns (out: Bytes)
      requires forall k: nat :: bufferSize(k) > 0
      modifies this
      ensures out == old(Remaining()) && Remaining() == []
    {
      out := [];
      var k := 0;
      var eof := false;
      while !eof
        invariant out + Remaining() == old(Remaining())
        invariant eof ==> Remaining() == []
        decreases |Remaining()|, !eof
      {
        var chunk;
        chunk, eof := Read(bufferSize(k));
        out := out + chunk;
        k := k + 1;
      }
    }
  }

  lemma FlattenStep(parts: seq<Bytes>, i: nat)
    requires i < |parts|
    ensures Flatten(parts[i..]) == parts[i] + Flatten(parts[i + 1..])
  {
    assert parts[i..][1..] == parts[i + 1..];
  }

  lemma TakesFront(all: Bytes, n: nat, out: Bytes, left: Bytes)
    requires |out| == n && all == out + left
    ensures Takes(all, n, out, left, false)
  {
  }

  lemma TakesAll(all: Bytes, k: nat, first: Bytes, left: Bytes, eof: bool)
    requires k <= |all| && Takes(all, k, first, left, eof)
    ensures !eof && |first| == k && left == all[k..] && first == all[..k]
  {
  }

  lemma TakesTwice(all: Bytes, k: nat, n: nat, first: Bytes, second: Bytes, left: Bytes, eof: bool)
    requires k <= n && k <= |all| && first == all[..k] && Takes(all[k..], n - k, second, left, eof)
    ensures Takes(all, n, first + second, left, eof)
  {
    var m := Min(n - k, |all| - k);
    assert all[k..][..m] == all[k..k + m] && all[k..][m..] == all[k + m..];
    assert all[..k] + all[k..k + m] == all[..k + m];
  }

  lemma TakesNothing(parts: seq<Bytes>, i: nat, n: nat)
    requires n > 0 && i + 1 >= |parts|
    ensures (if i < |parts| then Flatten(parts[i + 1..]) else []) == []
    ensures Takes([], n, [], [], true)
  {
  }
}
