/**
 * The Redis sorted-set commands the realtime backend uses, on values.
 * A sorted set maps each member to its score; every score here is a deadline.
 */
module SortedSets {
  import opened Basics

  type Zset<K> = map<K, Time>

  // What is left when every score up to now has been removed.
  function Live<K>(z: Zset<K>, now: Time): Zset<K> {
    map k | k in z && now < z[k] :: z[k]
  }

  // The members with a score up to now.
  function Expired<K>(z: Zset<K>, now: Time): set<K> {
    set k | k in z && z[k] <= now
  }

  // A legal answer to a limited query for the expired members: the lowest scores first, ties in any order.
  ghost predicate IsBatch<K>(z: Zset<K>, now: Time, limit: nat, batch: seq<K>) {
    && Distinct(batch)
    && (forall k :: k in batch ==> k in Expired(z, now))
    && |batch| == Min(limit, |Expired(z, now)|)
    && forall k, l :: k in batch && l in Expired(z, now) && l !in batch ==> z[k] <= z[l]
  }

  // If a due member is left out, the batch is full and all of it was due.
  lemma FullBatchIsDue<K>(z: Zset<K>, now: Time, limit: nat, batch: seq<K>, due: Time, k: K)
    requires IsBatch(z, now, limit, batch) && due <= now && k in Expired(z, due) && k !in batch
    ensures |batch| == limit && Elements(batch) <= Expired(z, due)
  {
    DistinctSize(batch);
    SubsetSize(Elements(batch), Expired(z, now));
    assert k in Expired(z, now) && k !in Elements(batch);
  }

  /** The lowest deadlines come first, so a batch takes as many due members as the limit allows, or all of them. */
  lemma {:induction false} BatchTakesDue<K>(z: Zset<K>, now: Time, limit: nat, batch: seq<K>, due: Time)
    requires IsBatch(z, now, limit, batch) && due <= now
    ensures |Expired(z, due) - Elements(batch)| <= Max(0, |Expired(z, due)| - limit)
  {
    var all := Expired(z, due);
    if k :| k in all - Elements(batch) {
      FullBatchIsDue(z, now, limit, batch, due, k);
      DistinctSize(batch);
      assert all == (all - Elements(batch)) + Elements(batch);
    } else {
      assert all - Elements(batch) == {};
    }
  }

  lemma {:induction false} TopExists<K>(z: Zset<K>)
    requires z != map[]
    ensures exists m :: m in z.Values && forall k :: k in z ==> z[k] <= m
    decreases |z|
  {
    var k :| k in z;
    var rest := z - {k};
    if rest == map[] {
      assert forall l :: l in z && l != k ==> l in rest;
      assert z[k] in z.Values && forall l :: l in z ==> z[l] <= z[k];
    } else {
      assert z.Keys == rest.Keys + {k};
      assert |rest.Keys| < |z.Keys|;
      TopExists(rest);
      var m :| m in rest.Values && forall l :: l in rest ==> rest[l] <= m;
      assert m in z.Values;
      assert forall l :: l in z ==> l == k || l in rest;
      if m <= z[k] {
        assert z[k] in z.Values;
      }
    }
  }

  // The greatest score of a set that is not empty.
  function Top<K>(z: Zset<K>): (m: Time)
    requires z != map[]
    ensures m in z.Values
    ensures forall k :: k in z ==> z[k] <= m
  {
    TopExists(z);
    var m :| m in z.Values && forall k :: k in z ==> z[k] <= m;
    m
  }

  // A member that holds the greatest score.
  lemma TopMember<K>(z: Zset<K>) returns (k: K)
    requires z != map[]
    ensures k in z && z[k] == Top(z)
  {
    k :| k in z && z[k] == Top(z);
  }

  // Halfway through listing the expired members in score order.
  ghost predicate Taking<K(!new)>(z: Zset<K>, now: Time, batch: seq<K>, rest: set<K>) {
    && Distinct(batch)
    && |batch| + |rest| == |Expired(z, now)|
    && (forall k :: k in Expired(z, now) <==> k in batch || k in rest)
    && (forall k :: k in batch ==> k !in rest)
    && forall k, l :: k in batch && l in rest ==> z[k] <= z[l]
  }

  lemma Take<K(!new)>(z: Zset<K>, now: Time, batch: seq<K>, rest: set<K>, least: K)
    requires Taking(z, now, batch, rest)
    requires least in rest && forall l :: l in rest ==> z[least] <= z[l]
    ensures Taking(z, now, batch + [least], rest - {least})
  {
    assert |rest - {least}| == |rest| - 1;
  }

  // A limited query for the expired members: repeatedly a least expired score not yet taken.
  method ListExpired<K(==, !new)>(z: Zset<K>, now: Time, limit: nat) returns (batch: seq<K>)
    ensures IsBatch(z, now, limit, batch)
  {
    batch := [];
    var rest := Expired(z, now);
    while |batch| < limit && rest != {}
      invariant |batch| <= limit && Taking(z, now, batch, rest)
      decreases |rest|
    {
      var least := LeastOf(z, rest);
      Take(z, now, batch, rest, least);
      batch := batch + [least];
      rest := rest - {least};
    }
  }

  method LeastOf<K(==)>(z: Zset<K>, candidates: set<K>) returns (least: K)
    requires candidates != {} && candidates <= z.Keys
    ensures least in candidates && forall l :: l in candidates ==> z[least] <= z[l]
  {
    least :| least in candidates;
    var rest := candidates - {least};
    while rest != {}
      invariant least in candidates && rest <= candidates
      invariant forall l :: l in candidates - rest ==> z[least] <= z[l]
      decreases |rest|
    {
      var next :| next in rest;
      if z[next] < z[least] {
        least := next;
      }
      rest := rest - {next};
    }
  }
}
