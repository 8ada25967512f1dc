/** Sixteen-bit IDs for mempool peers (`mempool/reactor.go`): allocation walks upward from the last
    one given and wraps around. */
module PeerIds {

  const IDS := 65536
  const MAX_ACTIVE := 65535

  /** How far it is upward from one ID to another, wrapping around. */
  function Distance(a: nat, b: nat): nat
    requires a < IDS && b < IDS
  {
    if a <= b then b - a else IDS - a + b
  }

  function Next(id: nat): nat {
    (id + 1) % IDS
  }

  lemma DistanceStep(a: nat, b: nat)
    requires a < IDS && b < IDS && a != b
    ensures Distance(Next(a), b) == Distance(a, b) - 1
  {
  }

  /** Fewer elements than numbers leave a number out. */
  lemma {:induction false} SomeFree(s: set<nat>, n: nat) returns (free: nat)
    requires |s| < n
    ensures free < n && free !in s
  {
    if n - 1 !in s {
      free := n - 1;
    } else {
      var rest := s - {n - 1};
      free := SomeFree(rest, n - 1);
    }
  }

  class MempoolIDs {
    var peerMap: map<nat, nat>
    var activeIDs: set<nat>
    var nextID: nat

    /** Connected peers hold distinct, non-zero, active IDs; zero is never given out. */
    ghost predicate Valid()
      reads this
    {
      && nextID < IDS && |activeIDs| <= MAX_ACTIVE && 0 in activeIDs
      && (forall id :: id in activeIDs ==> id < IDS)
      && (forall p :: p in peerMap ==> peerMap[p] in activeIDs && peerMap[p] != 0)
      && (forall p, q :: p in peerMap && q in peerMap && p != q ==> peerMap[p] != peerMap[q])
    }

    /** Every active ID but zero is held by a peer. */
    ghost predicate NoneLost()
      reads this
    {
      forall id :: id in activeIDs && id != 0 ==> exists p :: p in peerMap && peerMap[p] == id
    }

    constructor ()
      ensures Valid() && NoneLost() && peerMap == map[] && activeIDs == {0} && nextID == 1
    {
      peerMap := map[];
      activeIDs := {0};
      nextID := 1;
    }

    /** The first inactive ID at or above the counter, going around; panics exactly when all 65535
        are active. The walk ends despite the wrap-around. */
    method NextPeerID() returns (panicked: bool, id: nat)
      requires Valid()
      modifies this`nextID
      ensures nextID < IDS && (panicked <==> |activeIDs| == MAX_ACTIVE)
      ensures panicked ==> nextID == old(nextID)
      ensures !panicked ==> id < IDS && id !in activeIDs && nextID == Next(id)
      ensures !panicked ==> forall k :: 0 <= k < IDS && Distance(old(nextID), k) < Distance(old(nextID), id) ==> k in activeIDs
    {
      id := 0;
      if |activeIDs| == MAX_ACTIVE {
        return true, 0;
      }
      ghost var free := SomeFree(activeIDs, IDS);
      ghost var start := nextID;
      var exists' := nextID in activeIDs;
      while exists'
        invariant nextID < IDS && exists' == (nextID in activeIDs)
        invariant Distance(start, nextID) <= Distance(start, free)
        invariant Distance(start, nextID) + Distance(nextID, free) == Distance(start, free)
        invariant forall k :: 0 <= k < IDS && Distance(start, k) < Distance(start, nextID) ==> k in activeIDs
        decreases Distance(nextID, free)
      {
        DistanceStep(nextID, free);
        nextID := (nextID + 1) % IDS;
        exists' := nextID in activeIDs;
      }
      id := nextID;
      nextID := (nextID + 1) % IDS;
      panicked := false;
    }

    method ReserveForPeer(peer: nat) returns (panicked: bool)
      requires Valid()
      modifies this
      ensures Valid() && (panicked <==> |old(activeIDs)| == MAX_ACTIVE)
      ensures panicked ==> peerMap == old(peerMap) && activeIDs == old(activeIDs)
      ensures !panicked ==> peer in peerMap && peerMap == old(peerMap)[peer := peerMap[peer]]
                            && peerMap[peer] !in old(activeIDs) && activeIDs == old(activeIDs) + {peerMap[peer]}
      ensures !panicked && old(NoneLost()) ==> (NoneLost() <==> peer !in old(peerMap))
    {
      var id;
      panicked, id := NextPeerID();
      if panicked {
        return;
      }
      assert peer in peerMap ==> peerMap[peer] != id;
      peerMap := peerMap[peer := id];
      activeIDs := activeIDs + {id};
      assert NoneLost() || peer in old(peerMap) || !old(NoneLost()) by {
        forall k | k in activeIDs && k != 0 && k != id && old(NoneLost()) && peer !in old(peerMap)
          ensures exists p :: p in peerMap && peerMap[p] == k
        {
          var p :| p in old(peerMap) && old(peerMap)[p] == k;
          assert p in peerMap && peerMap[p] == k;
        }
        assert peer in peerMap && peerMap[peer] == id;
      }
    }

    method Reclaim(peer: nat)
      requires Valid()
      modifies this
      ensures Valid() && peerMap == old(peerMap) - {peer} && nextID == old(nextID)
      ensures activeIDs == if peer in old(peerMap) then old(activeIDs) - {old(peerMap)[peer]} else old(activeIDs)
      ensures old(NoneLost()) ==> NoneLost()
    {
      if peer in peerMap {
        var id := peerMap[peer];
        activeIDs := activeIDs - {id};
        peerMap := peerMap - {peer};
        forall k | k in activeIDs && k != 0 && old(NoneLost())
          ensures exists p :: p in peerMap && peerMap[p] == k
        {
          var p :| p in old(peerMap) && old(peerMap)[p] == k;
          assert p in peerMap && peerMap[p] == k;
        }
      }
    }
  }
}
