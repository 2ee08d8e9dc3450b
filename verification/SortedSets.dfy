/** Redis sorted sets, as the queue uses them: members with a score, ordered by score and then by member. */
module SortedSets {
  // Execution ids are numbers here; only their identity and a fixed total order matter to Redis.
  type Id = nat
  type ZSet = map<Id, real>

  /** The order of a sorted set: score first, equal scores by member. */
  predicate Before(a: Id, scoreA: real, b: Id, scoreB: real) {
    scoreA < scoreB || (scoreA == scoreB && a < b)
  }

  predicate IsLeast(z: ZSet, id: Id) {
    id in z && forall other | other in z :: other == id || Before(id, z[id], other, z[other])
  }

  /** ZREMRANGEBYSCORE key -inf upTo. */
  function Prune(z: ZSet, upTo: real): ZSet {
    map id | id in z && z[id] > upTo :: z[id]
  }

  /** ZADD key score id. */
  function Add(z: ZSet, id: Id, score: real): ZSet {
    z[id := score]
  }

  /** ZADD key XX: rescores a member that is there, and adds nothing. */
  function Rescore(z: ZSet, id: Id, score: real): ZSet {
    if id in z then Add(z, id, score) else z
  }

  /** The member ZPOPMIN takes. */
  function Least(z: ZSet): (id: Id)
    requires z != map[]
    ensures IsLeast(z, id)
  {
    LeastExists(z);
    var id :| IsLeast(z, id);
    id
  }

  lemma {:induction false} LeastExists(z: ZSet)
    requires z != map[]
    ensures exists id :: IsLeast(z, id)
    decreases |z|
  {
    var x :| x in z;
    var rest := z - {x};
    if rest == map[] {
      assert z.Keys == rest.Keys + {x};
      assert IsLeast(z, x);
    } else {
      LeastExists(rest);
      var m :| IsLeast(rest, m);
      if Before(x, z[x], m, z[m]) {
        assert forall other | other in z :: other == x || other in rest;
        assert IsLeast(z, x);
      } else {
        assert forall other | other in z :: other == x || other in rest;
        assert IsLeast(z, m);
      }
    }
  }

  /** A set inside another has no more elements. */
  lemma {:induction false} SubsetSize<T>(a: set<T>, b: set<T>)
    requires a <= b
    ensures |a| <= |b|
    decreases |a|
  {
    if a != {} {
      var x :| x in a;
      SubsetSize(a - {x}, b - {x});
    }
  }

  /** Pruning never makes a sorted set larger. */
  lemma PruneShrinks(z: ZSet, upTo: real)
    ensures |Prune(z, upTo)| <= |z|
  {
    SubsetSize(Prune(z, upTo).Keys, z.Keys);
  }

  /** Scheduling into a set below its limit leaves it within the limit. */
  lemma AddWithin(z: ZSet, id: Id, score: real, limit: int)
    requires |z| < limit
    ensures |Add(z, id, score)| <= limit
  {
    assert Add(z, id, score).Keys == z.Keys + {id};
  }
}
