/** Outgoing cross-shard messages awaiting receipts, and their periodic resending
    (`mempool/mempool.go`). */
module CrossMessages {
  import opened Options
  import opened KeyedList

  /** A message is identified by its source height and Merkle root; the destination is no part of it. */
  datatype Key = Key(height: int, root: seq<nat>)

  /** A transaction inside a message; only relay transactions are unpacked into a block. */
  datatype InnerTx = InnerTx(id: nat, relay: bool)

  /** `inner` is the transaction list, or None when it does not decompress. */
  datatype CrossMessage = CrossMessage(
    id: nat, key: Key, srcZone: string, desZone: string, packages: seq<Key>, inner: Option<seq<InnerTx>>)

  /** A message and the timer its resending runs on. */
  datatype Entry = Entry(content: CrossMessage, timer: nat)

  const RESEND_AT := 20

  function EntryKey(e: Entry): Key {
    e.content.key
  }

  predicate Due(e: Entry) {
    e.timer == 0 || e.timer == RESEND_AT
  }

  function Bump(e: Entry): Entry {
    Entry(e.content, if e.timer == RESEND_AT then 1 else e.timer + 1)
  }

  function Emitted(entries: seq<Entry>): seq<CrossMessage> {
    if entries == [] then []
    else Emitted(entries[..|entries| - 1]) + (if Due(entries[|entries| - 1]) then [entries[|entries| - 1].content] else [])
  }

  function BumpAll(entries: seq<Entry>): (r: seq<Entry>)
    ensures |r| == |entries| && forall i :: 0 <= i < |entries| ==> r[i] == Bump(entries[i])
  {
    seq(|entries|, i requires 0 <= i < |entries| => Bump(entries[i]))
  }

  class CrossMessageDB {
    var entries: seq<Entry>

    constructor ()
      ensures entries == []
    {
      entries := [];
    }

    method Add(m: CrossMessage)
      modifies this
      ensures Emitted(entries) == Emitted(old(entries)) + [m]
      ensures forall k :: RemoveFirst(entries, EntryKey, k) ==
                if Count(old(entries), EntryKey, k) > 0 then RemoveFirst(old(entries), EntryKey, k) + [Entry(m, 0)]
                else if k == m.key then old(entries) else entries
      ensures entries == old(entries) + [Entry(m, 0)]
    {
      forall k: Key
        ensures RemoveFirst(entries + [Entry(m, 0)], EntryKey, k) ==
                if Count(entries, EntryKey, k) > 0 then RemoveFirst(entries, EntryKey, k) + [Entry(m, 0)]
                else if k == m.key then entries else entries + [Entry(m, 0)]
      {
        RemoveFirstSnoc(entries, EntryKey, Entry(m, 0), k);
      }
      assert (entries + [Entry(m, 0)])[..|entries|] == entries;
      entries := entries + [Entry(m, 0)];
    }

    /** Each receipt removes the first entry with its key, if there is one. */
    method Remove(packs: seq<Key>)
      modifies this
      ensures entries == RemoveEach(old(entries), EntryKey, packs)
    {
      var j := 0;
      while j < |packs|
        invariant 0 <= j <= |packs|
        invariant entries == RemoveEach(old(entries), EntryKey, packs[..j])
      {
        assert packs[..j + 1][..j] == packs[..j];
        RemoveOne(packs[j]);
        j := j + 1;
      }
      assert packs[..j] == packs;
    }

    method RemoveOne(k: Key)
      modifies this
      ensures entries == RemoveFirst(old(entries), EntryKey, k)
    {
      var i := 0;
      while i < |entries|
        invariant 0 <= i <= |entries| && entries == old(entries)
        invariant forall j :: 0 <= j < i ==> EntryKey(entries[j]) != k
      {
        if entries[i].content.key == k {
          RemoveFirstAt(entries, EntryKey, k, i);
          entries := entries[..i] + entries[i + 1..];
          return;
        }
        i := i + 1;
      }
      RemoveAbsent(entries, EntryKey, k);
    }

    method Update() returns (out: seq<CrossMessage>)
      modifies this
      ensures out == Emitted(old(entries)) && entries == BumpAll(old(entries))
    {
      out := [];
      var i := 0;
      while i < |entries|
        invariant 0 <= i <= |entries| == |old(entries)|
        invariant out == Emitted(old(entries)[..i])
        invariant forall j :: 0 <= j < i ==> entries[j] == Bump(old(entries)[j])
        invariant forall j :: i <= j < |entries| ==> entries[j] == old(entries)[j]
      {
        var e := entries[i];
        assert old(entries)[..i + 1][..i] == old(entries)[..i];
        if e.timer == 0 {
          out := out + [e.content];
          entries := entries[i := e.(timer := e.timer + 1)];
        } else if e.timer == RESEND_AT {
          out := out + [e.content];
          entries := entries[i := e.(timer := 1)];
        } else {
          entries := entries[i := e.(timer := e.timer + 1)];
        }
        i := i + 1;
      }
      assert old(entries)[..i] == old(entries);
    }
  }

  // ----- runs ------------------------------------------------------------------------------------

  datatype Event = AddMessage(message: CrossMessage) | Receipts(packs: seq<Key>) | UpdateCall

  /** What the database holds and everything emitted so far, call by call. */
  datatype Sent = Sent(entries: seq<Entry>, calls: seq<seq<CrossMessage>>)

  function Next(s: Sent, e: Event): Sent {
    match e
    case AddMessage(m) => s.(entries := s.entries + [Entry(m, 0)])
    case Receipts(packs) => s.(entries := RemoveEach(s.entries, EntryKey, packs))
    case UpdateCall => Sent(BumpAll(s.entries), s.calls + [Emitted(s.entries)])
  }

  function Run(events: seq<Event>): Sent {
    if events == [] then Sent([], []) else Next(Run(events[..|events| - 1]), events[|events| - 1])
  }

  /** The reference: no timers, only the number of calls made before an entry was added. */
  datatype Stamped = Stamped(content: CrossMessage, born: nat)
  datatype Plan = Plan(entries: seq<Stamped>, calls: seq<seq<CrossMessage>>)

  function StampedKey(e: Stamped): Key {
    e.content.key
  }

  /** On its 1st, 21st, 41st, ... call. */
  predicate DueOn(e: Stamped, call: nat) {
    call >= e.born && (call - e.born) % 20 == 0
  }

  function DueNow(entries: seq<Stamped>, call: nat): seq<CrossMessage> {
    if entries == [] then []
    else
      DueNow(entries[..|entries| - 1], call)
      + (if DueOn(entries[|entries| - 1], call) then [entries[|entries| - 1].content] else [])
  }

  /** A receipt list takes effect in one pass: per key, as many of the oldest entries go as it names. */
  function PlanNext(p: Plan, e: Event): Plan {
    match e
    case AddMessage(m) => p.(entries := p.entries + [Stamped(m, |p.calls|)])
    case Receipts(packs) => p.(entries := DropDue(p.entries, StampedKey, multiset(packs)))
    case UpdateCall => p.(calls := p.calls + [DueNow(p.entries, |p.calls|)])
  }

  function PlanRun(events: seq<Event>): Plan {
    if events == [] then Plan([], []) else PlanNext(PlanRun(events[..|events| - 1]), events[|events| - 1])
  }

  /** The timer after a number of calls. */
  function TimerAfter(n: nat): nat {
    if n == 0 then 0 else (n - 1) % RESEND_AT + 1
  }

  function Timed(e: Stamped, calls: nat): Entry {
    Entry(e.content, if calls >= e.born then TimerAfter(calls - e.born) else 0)
  }

  function TimedAll(entries: seq<Stamped>, calls: nat): (r: seq<Entry>)
    ensures |r| == |entries| && forall i :: 0 <= i < |entries| ==> r[i] == Timed(entries[i], calls)
  {
    seq(|entries|, i requires 0 <= i < |entries| => Timed(entries[i], calls))
  }

  lemma TimerSteps(n: nat)
    ensures Bump(Entry(CrossMessage(0, Key(0, []), "", "", [], None), TimerAfter(n))).timer == TimerAfter(n + 1)
    ensures (TimerAfter(n) == 0 || TimerAfter(n) == RESEND_AT) <==> n % RESEND_AT == 0
  {
  }

  lemma {:induction false} RemoveFirstTimed(entries: seq<Stamped>, calls: nat, k: Key)
    ensures RemoveFirst(TimedAll(entries, calls), EntryKey, k) == TimedAll(RemoveFirst(entries, StampedKey, k), calls)
  {
    if entries != [] {
      RemoveFirstTimed(entries[1..], calls, k);
      assert TimedAll(entries, calls)[1..] == TimedAll(entries[1..], calls);
    }
  }

  lemma {:induction false} RemoveEachTimed(entries: seq<Stamped>, calls: nat, ks: seq<Key>)
    ensures RemoveEach(TimedAll(entries, calls), EntryKey, ks) == TimedAll(RemoveEach(entries, StampedKey, ks), calls)
  {
    if ks != [] {
      var n := |ks| - 1;
      RemoveEachTimed(entries, calls, ks[..n]);
      RemoveFirstTimed(RemoveEach(entries, StampedKey, ks[..n]), calls, ks[n]);
    }
  }

  lemma {:induction false} EmittedWhenDue(entries: seq<Stamped>, calls: nat)
    requires forall i :: 0 <= i < |entries| ==> entries[i].born <= calls
    ensures Emitted(TimedAll(entries, calls)) == DueNow(entries, calls)
    ensures BumpAll(TimedAll(entries, calls)) == TimedAll(entries, calls + 1)
  {
    forall i | 0 <= i < |entries|
      ensures Bump(Timed(entries[i], calls)) == Timed(entries[i], calls + 1)
      ensures Due(Timed(entries[i], calls)) <==> DueOn(entries[i], calls)
    {
      TimerSteps(calls - entries[i].born);
    }
    if entries != [] {
      var n := |entries| - 1;
      EmittedWhenDue(entries[..n], calls);
      assert TimedAll(entries, calls)[..n] == TimedAll(entries[..n], calls);
    }
  }

  lemma {:induction false} BornBounded(s: seq<Stamped>, due: multiset<Key>, n: nat)
    requires forall i :: 0 <= i < |s| ==> s[i].born <= n
    ensures forall i :: 0 <= i < |DropDue(s, StampedKey, due)| ==> DropDue(s, StampedKey, due)[i].born <= n
  {
    if s != [] {
      var x := StampedKey(s[0]);
      if x in due {
        BornBounded(s[1..], due - multiset{x}, n);
      } else {
        BornBounded(s[1..], due, n);
      }
    }
  }

  ghost predicate Follows(s: Sent, p: Plan) {
    && s.calls == p.calls && s.entries == TimedAll(p.entries, |p.calls|)
    && (forall i :: 0 <= i < |p.entries| ==> p.entries[i].born <= |p.calls|)
  }

  lemma NextFollows(s: Sent, p: Plan, e: Event)
    requires Follows(s, p)
    ensures Follows(Next(s, e), PlanNext(p, e))
  {
    hide DropDue, RemoveEach, Emitted, DueNow, TimerAfter;
    match e {
      case AddMessage(m) => NewbornTimer(m, |p.calls|);
      case Receipts(packs) =>
        RemoveEachIsOnePass(p.entries, StampedKey, packs);
        RemoveEachTimed(p.entries, |p.calls|, packs);
        BornBounded(p.entries, multiset(packs), |p.calls|);
      case UpdateCall =>
        EmittedWhenDue(p.entries, |p.calls|);
    }
  }

  lemma NewbornTimer(m: CrossMessage, calls: nat)
    ensures Timed(Stamped(m, calls), calls) == Entry(m, 0)
  {
  }

  /** The timers refine the plan over every interleaving of additions, receipts and calls: what is
      emitted, call by call, is what is due on that call, and what is left is what the plan has left. */
  lemma {:induction false} ResendFollowsPlan(events: seq<Event>)
    ensures Follows(Run(events), PlanRun(events))
  {
    if events != [] {
      var n := |events| - 1;
      ResendFollowsPlan(events[..n]);
      NextFollows(Run(events[..n]), PlanRun(events[..n]), events[n]);
    }
  }

  /** A receipt list removes, per key, exactly the lesser of receipts and entries, and leaves the
      rest in order, each with the timer it had. */
  lemma ReceiptsRemoveExactly(entries: seq<Entry>, packs: seq<Key>, k: Key)
    ensures var left := RemoveEach(entries, EntryKey, packs);
            && Subsequence(left, entries)
            && Count(left, EntryKey, k) ==
               if Count(entries, EntryKey, k) <= multiset(packs)[k] then 0
               else Count(entries, EntryKey, k) - multiset(packs)[k]
  {
    RemoveEachIsOnePass(entries, EntryKey, packs);
    DropKeepsOrder(entries, EntryKey, multiset(packs));
    DropCounts(entries, EntryKey, multiset(packs), k);
  }
}
