/** Weighted voting power and the quorum arithmetic every vote count relies on.

    A validator set is the sequence of its members' voting powers; a validator is its index.
    A quorum is `total*2/3 + 1`, as `VoteSet` and `VerifyCommit` compute it. */
module VotingPower {

  /** The power held by the members of `s` among the first `n` validators. */
  function TallyUpTo(powers: seq<nat>, s: set<nat>, n: nat): nat
    requires n <= |powers|
  {
    if n == 0 then 0
    else TallyUpTo(powers, s, n - 1) + (if n - 1 in s then powers[n - 1] else 0)
  }

  function Tally(powers: seq<nat>, s: set<nat>): nat {
    TallyUpTo(powers, s, |powers|)
  }

  function TotalUpTo(powers: seq<nat>, n: nat): nat
    requires n <= |powers|
  {
    if n == 0 then 0 else TotalUpTo(powers, n - 1) + powers[n - 1]
  }

  function Total(powers: seq<nat>): nat {
    TotalUpTo(powers, |powers|)
  }

  function Quorum(powers: seq<nat>): nat {
    Total(powers) * 2 / 3 + 1
  }

  lemma {:induction false} EmptyTally(powers: seq<nat>, s: set<nat>, n: nat)
    requires n <= |powers| && s == {}
    ensures TallyUpTo(powers, s, n) == 0
  {
    if n != 0 {
      EmptyTally(powers, s, n - 1);
    }
  }

  lemma {:induction false} TallyMonotone(powers: seq<nat>, s: set<nat>, t: set<nat>, n: nat)
    requires n <= |powers|
    requires forall i: nat :: i < n && i in s ==> i in t
    ensures TallyUpTo(powers, s, n) <= TallyUpTo(powers, t, n)
  {
    if n != 0 {
      TallyMonotone(powers, s, t, n - 1);
    }
  }

  lemma {:induction false} TallyAtMostTotal(powers: seq<nat>, s: set<nat>, n: nat)
    requires n <= |powers|
    ensures TallyUpTo(powers, s, n) <= TotalUpTo(powers, n)
  {
    if n != 0 {
      TallyAtMostTotal(powers, s, n - 1);
    }
  }

  lemma {:induction false} TallyInsert(powers: seq<nat>, s: set<nat>, i: nat, n: nat)
    requires n <= |powers| && i < |powers| && i !in s
    ensures TallyUpTo(powers, s + {i}, n) == TallyUpTo(powers, s, n) + (if i < n then powers[i] else 0)
  {
    if n != 0 {
      TallyInsert(powers, s, i, n - 1);
    }
  }

  lemma {:induction false} TallyInclusionExclusion(powers: seq<nat>, s: set<nat>, t: set<nat>, n: nat)
    requires n <= |powers|
    ensures TallyUpTo(powers, s, n) + TallyUpTo(powers, t, n)
         == TallyUpTo(powers, s * t, n) + TallyUpTo(powers, s + t, n)
  {
    if n != 0 {
      TallyInclusionExclusion(powers, s, t, n - 1);
    }
  }

  /** Two quorums share a validator outside any set that holds less than a third of the power. */
  lemma QuorumsShareHonest(powers: seq<nat>, s: set<nat>, t: set<nat>, byzantine: set<nat>) returns (v: nat)
    requires Tally(powers, s) >= Quorum(powers)
    requires Tally(powers, t) >= Quorum(powers)
    requires 3 * Tally(powers, byzantine) < Total(powers)
    ensures v in s && v in t && v < |powers| && v !in byzantine
  {
    TallyInclusionExclusion(powers, s, t, |powers|);
    TallyAtMostTotal(powers, s + t, |powers|);
    if forall i: nat :: i < |powers| && i in s * t ==> i in byzantine {
      TallyMonotone(powers, s * t, byzantine, |powers|);
      assert false;
    }
    v :| v < |powers| && v in s * t && v !in byzantine;
  }
}
