/** Redis sorted sets, as finite maps from members to scores. */
module ZSet {

  /** No key occurs twice in a list of (key, score) pairs. */
  ghost predicate DistinctKeys<K>(due: seq<(K, int)>) {
    forall i, j | 0 <= i < j < |due| :: due[i].0 != due[j].0
  }

  ghost predicate HasKey<K>(due: seq<(K, int)>, m: K) {
    exists i :: 0 <= i < |due| && due[i].0 == m
  }

  /**
   `due` is what ZRANGEBYSCORE z -inf now WITHSCORES LIMIT 0 limit may return:
   at most `limit` due members, in score order, the earliest ones first. Redis breaks
   ties by member; here any order of equal scores is allowed.
   */
  ghost predicate IsRange<K>(z: map<K, int>, now: int, limit: nat, due: seq<(K, int)>) {
    && |due| <= limit
    && DistinctKeys(due)
    && (forall i | 0 <= i < |due| :: due[i].0 in z && due[i].1 == z[due[i].0] && due[i].1 <= now)
    && (forall i, j | 0 <= i < j < |due| :: due[i].1 <= due[j].1)
    && (forall m | m in z && z[m] <= now && !HasKey(due, m)
          :: |due| == limit && forall i | 0 <= i < |due| :: due[i].1 <= z[m])
  }

  /** A key is at the head of a list or among the rest. */
  lemma HasKeySplit<K>(due: seq<(K, int)>, m: K)
    requires due != []
    ensures HasKey(due, m) <==> due[0].0 == m || HasKey(due[1..], m)
  {
    if HasKey(due, m) {
      var k :| 0 <= k < |due| && due[k].0 == m;
      if k > 0 { assert due[1..][k - 1].0 == m; }
    }
    if HasKey(due[1..], m) {
      var k :| 0 <= k < |due[1..]| && due[1..][k].0 == m;
      assert due[k + 1].0 == m;
    }
  }

  function KeySet<K(!new)>(due: seq<(K, int)>): (s: set<K>)
    ensures forall m :: m in s <==> HasKey(due, m)
  {
    set i | 0 <= i < |due| :: due[i].0
  }

  lemma HeadIsNew<K>(due: seq<(K, int)>)
    requires due != [] && DistinctKeys(due)
    ensures !HasKey(due[1..], due[0].0) && DistinctKeys(due[1..])
  {
    var rest := due[1..];
    assert forall k | 0 <= k < |rest| :: rest[k] == due[k + 1];
  }

  /** Distinct keys: the key set is as large as the list. */
  lemma {:induction false} KeySetSize<K(!new)>(due: seq<(K, int)>)
    requires DistinctKeys(due)
    ensures |KeySet(due)| == |due|
  {
    hide HasKey, DistinctKeys, KeySet;
    if due == [] {
      NoKeys<K>();
    } else {
      HeadIsNew(due);
      KeySetSize(due[1..]);
      forall m ensures m in KeySet(due) <==> m in KeySet(due[1..]) + {due[0].0} {
        HasKeySplit(due, m);
      }
      assert KeySet(due) == KeySet(due[1..]) + {due[0].0};
    }
  }

  lemma NoKeys<K(!new)>()
    ensures KeySet<K>([]) == {}
  {
  }

  /** A set with one due member. */
  lemma OnlyOneDue<K(!new)>(m: K, score: int, now: int)
    requires score <= now
    ensures IsRange(map[m := score], now, 1, [(m, score)])
  {
    assert [(m, score)][0].0 == m;
    assert HasKey([(m, score)], m);
  }

  /** Two disjoint parts of a set. */
  lemma PartSizes<T>(a: set<T>, b: set<T>, whole: set<T>)
    requires a <= whole && b <= whole && a !! b
    ensures |a| + |b| <= |whole|
  {
    assert |a + b| == |a| + |b|;
    assert whole == (a + b) + (whole - (a + b));
    assert |whole| == |a + b| + |whole - (a + b)|;
  }

  /** The member of a non-empty map with the least score, one such if there are several. */
  method Least<K(==)>(z: map<K, int>) returns (m: K)
    requires z != map[]
    ensures m in z && forall k | k in z :: z[m] <= z[k]
  {
    var rest := z.Keys;
    m :| m in rest;
    rest := rest - {m};
    while rest != {}
      invariant rest <= z.Keys && m in z && m !in rest
      invariant forall k | k in z && k !in rest :: z[m] <= z[k]
      decreases rest
    {
      var k :| k in rest;
      rest := rest - {k};
      if z[k] < z[m] { m := k; }
    }
  }

  /** `due` has the earliest due members of `z` so far and `rest` the others. */
  ghost predicate Extracted<K(!new)>(z: map<K, int>, now: int, due: seq<(K, int)>, rest: map<K, int>) {
    && DistinctKeys(due)
    && (forall i | 0 <= i < |due| :: due[i].0 in z && due[i].1 == z[due[i].0] && due[i].1 <= now)
    && (forall i, j | 0 <= i < j < |due| :: due[i].1 <= due[j].1)
    && (forall k :: k in rest <==> k in z && z[k] <= now && !HasKey(due, k))
    && (forall k | k in rest :: rest[k] == z[k])
    && (forall i, k | 0 <= i < |due| && k in rest :: due[i].1 <= z[k])
  }

  lemma HasKeyLast<K>(due: seq<(K, int)>, e: (K, int), m: K)
    ensures HasKey(due + [e], m) <==> HasKey(due, m) || m == e.0
  {
    var more := due + [e];
    if HasKey(due, m) {
      var i :| 0 <= i < |due| && due[i].0 == m;
      assert more[i].0 == m;
    }
    assert more[|due|].0 == e.0;
  }

  lemma ExtractedMore<K(!new)>(z: map<K, int>, now: int, due: seq<(K, int)>, rest: map<K, int>, m: K)
    requires Extracted(z, now, due, rest) && m in rest && forall k | k in rest :: rest[m] <= rest[k]
    ensures Extracted(z, now, due + [(m, z[m])], rest - {m})
  {
    var e := (m, z[m]);
    forall k ensures HasKey(due + [e], k) <==> HasKey(due, k) || k == m { HasKeyLast(due, e, k); }
    assert !HasKey(due, m);
    NewKey(due, e);
    hide HasKey, DistinctKeys;
  }

  lemma NewKey<K>(due: seq<(K, int)>, e: (K, int))
    requires DistinctKeys(due) && !HasKey(due, e.0)
    ensures DistinctKeys(due + [e])
  {
  }

  /** ZRANGEBYSCORE by repeated extraction of the least member. */
  method RangeByScore<K(==,!new)>(z: map<K, int>, now: int, limit: nat) returns (due: seq<(K, int)>)
    ensures IsRange(z, now, limit, due)
  {
    hide HasKey, DistinctKeys;
    due := [];
    var rest := map k | k in z && z[k] <= now :: z[k];
    NothingExtracted(z, now);
    while |due| < limit && rest != map[]
      invariant |due| <= limit && Extracted(z, now, due, rest)
      decreases limit - |due|
    {
      var m := Least(rest);
      ExtractedMore(z, now, due, rest, m);
      due := due + [(m, z[m])];
      rest := rest - {m};
    }
  }

  lemma NothingExtracted<K(!new)>(z: map<K, int>, now: int)
    ensures Extracted(z, now, [], map k | k in z && z[k] <= now :: z[k])
  {
  }
}
