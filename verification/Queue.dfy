/** Leased durable queues: what claiming guarantees about two workers, and how soon a job is claimed. */
module Queue {
  import ZSet

  /** The claim script: every member it returns is moved to the end of its lease. */
  function Lease<K(!new)>(z: map<K, int>, due: seq<(K, int)>, until: int): (r: map<K, int>)
    ensures r.Keys == z.Keys
    ensures forall m | m in z :: r[m] == if ZSet.HasKey(due, m) then until else z[m]
  {
    map m | m in z :: if m in ZSet.KeySet(due) then until else z[m]
  }

  /** What happens to a queue: claims by any worker, enqueues and reschedules, and acks. */
  datatype Op<K> =
    | Claim(now: int, lease: nat, limit: nat, due: seq<(K, int)>)
    | Put(more: map<K, int>)
    | Remove(m: K)

  ghost predicate OpEnabled<K>(z: map<K, int>, op: Op<K>) {
    op.Claim? ==> ZSet.IsRange(z, op.now, op.limit, op.due)
  }

  function OpNext<K(!new)>(z: map<K, int>, op: Op<K>): map<K, int> {
    match op
    case Claim(now, lease, _, due) => Lease(z, due, now + lease)
    case Put(more) => z + more
    case Remove(m) => z - {m}
  }

  ghost predicate OpsRun<K(!new)>(z: map<K, int>, ops: seq<Op<K>>)
    decreases |ops|
  {
    ops == [] || (OpEnabled(z, ops[0]) && OpsRun(OpNext(z, ops[0]), ops[1..]))
  }

  /** Claiming never adds or loses a member, and touches only what it returns. */
  lemma ClaimConserves<K(!new)>(z: map<K, int>, now: int, lease: nat, limit: nat, due: seq<(K, int)>)
    requires ZSet.IsRange(z, now, limit, due)
    ensures var z' := OpNext(z, Claim(now, lease, limit, due));
            && z'.Keys == z.Keys
            && forall m | m in z :: if ZSet.HasKey(due, m) then z[m] <= now && z'[m] == now + lease else z'[m] == z[m]
  {
    forall m | m in z && ZSet.HasKey(due, m) ensures z[m] <= now {
      var i :| 0 <= i < |due| && due[i].0 == m;
    }
  }

  /* ---- exclusion ---- */

  /** Every held member is out of reach of claims before `until`. */
  ghost predicate OutOfReach<K>(z: map<K, int>, held: set<K>, until: int) {
    forall m | m in held && m in z :: z[m] >= until
  }

  /** The operation comes before the lease ends and does not ack, move or re-queue a held member. */
  ghost predicate Respects<K>(op: Op<K>, held: set<K>, until: int) {
    match op
    case Claim(now, lease, _, _) => now < until
    case Put(more) => more.Keys !! held
    case Remove(m) => m !in held
  }

  ghost predicate NoneClaims<K>(ops: seq<Op<K>>, held: set<K>) {
    forall i | 0 <= i < |ops| && ops[i].Claim? :: forall m | ZSet.HasKey(ops[i].due, m) :: m !in held
  }

  lemma ClaimMisses<K(!new)>(z: map<K, int>, op: Op<K>, held: set<K>, until: int)
    requires op.Claim? && OpEnabled(z, op) && op.now < until && OutOfReach(z, held, until)
    ensures forall m | ZSet.HasKey(op.due, m) :: m !in held
    ensures OutOfReach(OpNext(z, op), held, until)
  {
    forall m | ZSet.HasKey(op.due, m) ensures m !in held {
      var i :| 0 <= i < |op.due| && op.due[i].0 == m;
    }
  }

  lemma {:induction false} HeldUntil<K(!new)>(z: map<K, int>, ops: seq<Op<K>>, held: set<K>, until: int)
    requires OpsRun(z, ops) && OutOfReach(z, held, until)
    requires forall i | 0 <= i < |ops| :: Respects(ops[i], held, until)
    ensures NoneClaims(ops, held)
    decreases |ops|
  {
    if ops != [] {
      assert Respects(ops[0], held, until);
      if ops[0].Claim? { ClaimMisses(z, ops[0], held, until); }
      HeldUntil(OpNext(z, ops[0]), ops[1..], held, until);
      forall i | 0 <= i < |ops| && ops[i].Claim? ensures forall m | ZSet.HasKey(ops[i].due, m) :: m !in held {
        if i > 0 { assert ops[1..][i - 1] == ops[i]; }
      }
    }
  }

  /**
   Lease safety: as long as nobody acks, moves or re-queues the members of a claim, no claim by any
   worker within one lease of it returns any of them.
   */
  lemma ClaimsAreDisjoint<K(!new)>(z: map<K, int>, first: Op<K>, ops: seq<Op<K>>)
    requires first.Claim? && OpEnabled(z, first) && OpsRun(OpNext(z, first), ops)
    requires forall i | 0 <= i < |ops| :: Respects(ops[i], ZSet.KeySet(first.due), first.now + first.lease)
    ensures NoneClaims(ops, ZSet.KeySet(first.due))
  {
    HeldUntil(OpNext(z, first), ops, ZSet.KeySet(first.due), first.now + first.lease);
  }

  /* ---- progress ---- */

  /** The members at or before a job's score. */
  function Ahead<K>(z: map<K, int>, m: K): set<K>
    requires m in z
  {
    set k | k in z && k != m && z[k] <= z[m]
  }

  /** An operation at a clock past `score` that leaves job `m` in the queue. */
  ghost predicate Past<K>(op: Op<K>, m: K, score: int) {
    match op
    case Claim(now, lease, _, _) => now >= score && lease > 0
    case Put(more) => m !in more && forall k | k in more :: more[k] > score
    case Remove(k) => k != m
  }

  ghost predicate AllPast<K>(ops: seq<Op<K>>, m: K, score: int) {
    forall i | 0 <= i < |ops| :: Past(ops[i], m, score)
  }

  ghost predicate ClaimedBy<K>(ops: seq<Op<K>>, m: K) {
    exists i :: 0 <= i < |ops| && ops[i].Claim? && ZSet.HasKey(ops[i].due, m)
  }

  /** How many jobs the claims of a run may take. */
  function Slots<K>(ops: seq<Op<K>>): nat {
    if ops == [] then 0 else (if ops[0].Claim? then ops[0].limit else 0) + Slots(ops[1..])
  }

  /** A claim that misses a due job is full of jobs that were ahead of it. */
  lemma MissedClaim<K(!new)>(z: map<K, int>, op: Op<K>, m: K)
    requires m in z && op.Claim? && OpEnabled(z, op) && Past(op, m, z[m]) && !ZSet.HasKey(op.due, m)
    ensures var z' := OpNext(z, op);
            m in z' && z'[m] == z[m] && |Ahead(z', m)| + op.limit <= |Ahead(z, m)|
  {
    var z' := OpNext(z, op);
    var taken := ZSet.KeySet(op.due);
    ZSet.KeySetSize(op.due);
    forall k | k in taken ensures k in Ahead(z, m) && k !in Ahead(z', m) {
      var i :| 0 <= i < |op.due| && op.due[i].0 == k;
      assert op.due[i].1 <= z[m];
    }
    assert Ahead(z', m) <= Ahead(z, m);
    ZSet.PartSizes(taken, Ahead(z', m), Ahead(z, m));
  }

  /** Nothing else puts a job ahead. */
  lemma OtherOps<K(!new)>(z: map<K, int>, op: Op<K>, m: K)
    requires m in z && !op.Claim? && Past(op, m, z[m])
    ensures var z' := OpNext(z, op);
            m in z' && z'[m] == z[m] && |Ahead(z', m)| <= |Ahead(z, m)|
  {
    var z' := OpNext(z, op);
    assert Ahead(z', m) <= Ahead(z, m);
    ZSet.PartSizes({}, Ahead(z', m), Ahead(z, m));
  }

  lemma {:induction false} UnclaimedMeansAhead<K(!new)>(z: map<K, int>, ops: seq<Op<K>>, m: K)
    requires m in z && OpsRun(z, ops) && AllPast(ops, m, z[m]) && !ClaimedBy(ops, m)
    ensures Slots(ops) <= |Ahead(z, m)|
    decreases |ops|
  {
    hide Ahead, ZSet.HasKey;
    if ops != [] {
      var z' := OpNext(z, ops[0]);
      assert Past(ops[0], m, z[m]);
      if ops[0].Claim? { MissedClaim(z, ops[0], m); } else { OtherOps(z, ops[0], m); }
      hide OpNext, OpEnabled, Past;
      var rest := ops[1..];
      assert forall i | 0 <= i < |rest| :: rest[i] == ops[i + 1];
      UnclaimedMeansAhead(z', rest, m);
    }
  }

  function Claims<K>(ops: seq<Op<K>>): nat {
    if ops == [] then 0 else (if ops[0].Claim? then 1 else 0) + Claims(ops[1..])
  }

  ghost predicate AllLimit<K>(ops: seq<Op<K>>, limit: nat) {
    forall i | 0 <= i < |ops| && ops[i].Claim? :: ops[i].limit == limit
  }

  lemma {:induction false} SlotsOfClaims<K>(ops: seq<Op<K>>, limit: nat)
    requires AllLimit(ops, limit)
    ensures Slots(ops) == limit * Claims(ops)
  {
    if ops != [] {
      var rest := ops[1..];
      assert forall i | 0 <= i < |rest| :: rest[i] == ops[i + 1];
      SlotsOfClaims(rest, limit);
      assert limit * (1 + Claims(rest)) == limit + limit * Claims(rest);
    }
  }

  /** Enough claims for a job with `ahead` members ahead of it: ahead / limit, rounded down, plus one. */
  function ClaimsNeeded(ahead: nat, limit: nat): nat
    requires limit > 0
  {
    ahead / limit + 1
  }

  lemma ClaimsSuffice(ahead: nat, limit: nat, claims: nat)
    requires limit > 0 && claims >= ClaimsNeeded(ahead, limit)
    ensures limit * claims > ahead
  {
    var q := ahead / limit;
    assert limit * q + ahead % limit == ahead;
    assert limit * claims == limit * (q + 1) + limit * (claims - q - 1);
    assert limit * (q + 1) == limit * q + limit;
  }

  /**
   Progress: once the clock is past a job's due time, and while nobody acks or moves it, a job with
   k members at or before its score is claimed within floor(k / batch) + 1 claims, however
   enqueues, acks and reschedules of other jobs interleave.
   */
  lemma ClaimedInTime<K(!new)>(z: map<K, int>, ops: seq<Op<K>>, m: K, limit: nat)
    requires m in z && OpsRun(z, ops) && AllPast(ops, m, z[m]) && AllLimit(ops, limit) && limit > 0
    requires Claims(ops) >= ClaimsNeeded(|Ahead(z, m)|, limit)
    ensures ClaimedBy(ops, m)
  {
    hide Ahead, ClaimsNeeded, Claims, Slots, OpsRun, AllPast, ClaimedBy;
    ClaimsSuffice(|Ahead(z, m)|, limit, Claims(ops));
    SlotsOfClaims(ops, limit);
    if !ClaimedBy(ops, m) {
      UnclaimedMeansAhead(z, ops, m);
    }
  }

  /* ---- backoff ---- */

  function Power(base: nat, n: nat): nat {
    if n == 0 then 1 else base * Power(base, n - 1)
  }

  function Min(a: nat, b: nat): (m: nat)
    ensures m <= a && m <= b && (m == a || m == b)
  {
    if a <= b then a else b
  }

  /** time.Duration(float64(d) * factor). */
  function Scaled(d: nat, factor: real): nat
    requires factor >= 0.0
  {
    (d as real * factor).Floor
  }

  /** base * factor, truncated to a whole duration, n times over. */
  function Grown(base: nat, factor: real, n: nat): nat
    requires factor >= 0.0
  {
    if n == 0 then base else Scaled(Grown(base, factor, n - 1), factor)
  }

  /** A whole factor is never truncated: the delay is base * factor^n. */
  lemma {:induction false} WholeFactor(base: nat, factor: nat, n: nat)
    ensures Grown(base, factor as real, n) == base * Power(factor, n)
  {
    if n > 0 {
      hide Power, Grown, Scaled;
      WholeFactor(base, factor, n - 1);
      GrownMore(base, factor as real, n);
      WholeProduct(base * Power(factor, n - 1), factor);
      PowerMore(factor, n);
      Regroup(base, Power(factor, n - 1), factor);
    } else {
      assert base * 1 == base;
    }
  }

  lemma PowerMore(base: nat, n: nat)
    requires n > 0
    ensures Power(base, n) == base * Power(base, n - 1)
  {
  }

  lemma Regroup(a: nat, b: nat, c: nat)
    ensures (a * b) * c == a * (c * b)
  {
  }

  lemma WholeProduct(a: nat, b: nat)
    ensures Scaled(a, b as real) == a * b
  {
    assert a as real * b as real == (a * b) as real;
  }

  lemma GrowsOnce(d: nat, factor: real)
    requires factor >= 0.0
    ensures factor >= 1.0 ==> Scaled(d, factor) >= d
    ensures factor <= 1.0 ==> Scaled(d, factor) <= d
  {
    if factor >= 1.0 { assert d as real * factor >= d as real * 1.0; }
    if factor <= 1.0 { assert d as real * factor <= d as real * 1.0; }
  }

  /** A factor of at least 1 never shrinks a duration, one of at most 1 never grows it. */
  lemma {:induction false} GrownMonotone(base: nat, factor: real, m: nat, n: nat)
    requires factor >= 0.0 && m <= n
    ensures factor >= 1.0 ==> Grown(base, factor, m) <= Grown(base, factor, n)
    ensures factor <= 1.0 ==> Grown(base, factor, m) >= Grown(base, factor, n)
    decreases n - m
  {
    hide Grown, Scaled;
    if m < n {
      GrownMonotone(base, factor, m, n - 1);
      GrownMore(base, factor, n);
      GrowsOnce(Grown(base, factor, n - 1), factor);
    }
  }

  predicate Whole(factor: real) {
    factor >= 1.0 && factor == factor.Floor as real
  }

  /** The delay after a number of failed attempts; a base at the cap or above it is never shrunk below the cap. */
  function Delay(base: nat, factor: real, cap: nat, attempts: int): nat
    requires factor >= 0.0
  {
    if base >= cap then cap else Min(Grown(base, factor, if attempts > 1 then attempts - 1 else 0), cap)
  }

  /** expBackoff's loop: the delay has grown attempts - 1 times and is capped, although the loop stops early. */
  method ExpBackoff(base: nat, factor: real, cap: nat, attempts: int) returns (d: nat)
    requires factor >= 0.0
    ensures d == Delay(base, factor, cap, attempts)
    ensures attempts <= 1 ==> d == Min(base, cap)
    ensures Whole(factor) && attempts >= 1 ==> d == Min(base * Power(factor.Floor, attempts - 1), cap)
  {
    DelayIsPower(base, factor, cap, attempts);
    hide Grown, Scaled;
    d := base;
    var i := 1;
    GrownNone(base, factor);
    while i < attempts && d < cap
      invariant 1 <= i && (attempts >= 1 ==> i <= attempts) && (attempts < 1 ==> i == 1)
      invariant d == Grown(base, factor, i - 1) && (base >= cap ==> i == 1)
    {
      GrownMore(base, factor, i);
      assert base < cap;
      d := Scaled(d, factor);
      i := i + 1;
    }
    if i < attempts { GrownMonotone(base, factor, i - 1, attempts - 1); }
    GrownMonotone(base, factor, 0, i - 1);
    if d > cap {
      d := cap;
    }
  }

  lemma {:induction false} PowerPositive(base: nat, n: nat)
    requires base > 0
    ensures Power(base, n) > 0
  {
    if n > 0 {
      PowerPositive(base, n - 1);
      assert base * Power(base, n - 1) > 0;
    }
  }

  lemma Product(a: nat, b: nat)
    requires b > 0
    ensures a * b >= a
  {
  }

  /** The delays in the terms of the program's comment: base * factor^(attempts - 1), capped. */
  lemma DelayIsPower(base: nat, factor: real, cap: nat, attempts: int)
    requires factor >= 0.0
    ensures attempts <= 1 ==> Delay(base, factor, cap, attempts) == Min(base, cap)
    ensures Whole(factor) && attempts >= 1 ==>
              Delay(base, factor, cap, attempts) == Min(base * Power(factor.Floor, attempts - 1), cap)
  {
    GrownNone(base, factor);
    hide Grown, Power;
    if Whole(factor) && attempts >= 1 {
      WholeFactor(base, factor.Floor, attempts - 1);
      PowerPositive(factor.Floor, attempts - 1);
      Product(base, Power(factor.Floor, attempts - 1));
    }
  }

  lemma GrownNone(base: nat, factor: real)
    requires factor >= 0.0
    ensures Grown(base, factor, 0) == base
  {
  }

  lemma GrownMore(base: nat, factor: real, i: nat)
    requires factor >= 0.0 && i > 0
    ensures Grown(base, factor, i) == Scaled(Grown(base, factor, i - 1), factor)
  {
  }
}
