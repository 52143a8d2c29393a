/**
 The job machine of a queue on a clock: when is an owner the only one, and when does a finished and
 acknowledged job come back? The clock decides which commands are late: a ZREM or ZADD that a job sends
 at or after the end of its own lease.
 */
module Leases {
  import Q = Queue
  import ZSet
  import W = Worker

  /** What happens to a queue at some time: a step of one of its jobs, enqueues by the script, or nothing. */
  datatype Act<K, D> = Job(step: W.Step<K, D>) | Enqueue(more: map<K, int>) | Elsewhere

  datatype Timed<K, D> = Timed(at: int, act: Act<K, D>)

  /** The queue, the end of every job's lease, and the members that were ever removed. */
  datatype State<K, D> = State(z: map<K, int>, x: W.Side<K, D>, ends: seq<int>, removed: set<K>)

  /** The script queues each member at most one time. */
  ghost predicate Enabled<K, D>(q: State<K, D>, t: Timed<K, D>) {
    match t.act
    case Job(step) => W.Enabled(q.z, q.x, step) && (step.Claim? ==> step.now == t.at)
    case Enqueue(more) => more.Keys !! q.x.enqueued
    case Elsewhere => true
  }

  function Next<K(!new), D>(q: State<K, D>, t: Timed<K, D>, max: nat): State<K, D>
    requires Enabled(q, t)
  {
    match t.act
    case Job(step) =>
      State(W.NextZ(q.z, q.x, step), W.NextSide(q.z, q.x, step, max),
            if step.Claim? then q.ends + seq(|step.due|, _ => step.now + step.lease) else q.ends,
            if step.Zrem? then q.removed + {q.x.jobs[step.k].m} else q.removed)
    case Enqueue(more) => q.(z := q.z + more, x := q.x.(enqueued := q.x.enqueued + more.Keys))
    case Elsewhere => q
  }

  /** A run on a clock that never goes back. */
  ghost predicate Run<K(!new), D>(q: State<K, D>, clock: int, ts: seq<Timed<K, D>>, max: nat)
    decreases |ts|
  {
    ts == [] || (clock <= ts[0].at && Enabled(q, ts[0]) && Run(Next(q, ts[0], max), ts[0].at, ts[1..], max))
  }

  function After<K(!new), D>(q: State<K, D>, clock: int, ts: seq<Timed<K, D>>, max: nat): State<K, D>
    requires Run(q, clock, ts, max)
    decreases |ts|
  {
    if ts == [] then q else After(Next(q, ts[0], max), ts[0].at, ts[1..], max)
  }

  function Clock<K, D>(clock: int, ts: seq<Timed<K, D>>): int {
    if ts == [] then clock else ts[|ts| - 1].at
  }

  function Fresh<K, D>(): State<K, D> {
    State(map[], W.Fresh(), [], {})
  }

  /* ---- owners ---- */

  /** A job that still may touch the queue on behalf of its member. */
  predicate Owns<K(==), D>(job: W.Job<K, D>, m: K) {
    !job.Ended? && !job.Removed? && job.m == m
  }

  /** Job `k` owns `m` and its lease is not over. */
  predicate Holds<K(==), D>(q: State<K, D>, clock: int, m: K, k: nat) {
    k < |q.x.jobs| && k < |q.ends| && Owns(q.x.jobs[k], m) && clock < q.ends[k]
  }

  /** The step is a ZREM or a ZADD of `m`. */
  predicate Touches<K(==), D(==)>(q: State<K, D>, t: Timed<K, D>, m: K) {
    && t.act.Job? && (t.act.step.Zrem? || t.act.step.Reschedule?)
    && t.act.step.k < |q.x.jobs| && !q.x.jobs[t.act.step.k].Ended? && q.x.jobs[t.act.step.k].m == m
  }

  /** It comes at or after the end of the job's own lease. */
  predicate Late<K(==), D(==)>(q: State<K, D>, t: Timed<K, D>, m: K) {
    Touches(q, t, m) && t.act.step.k < |q.ends| && q.ends[t.act.step.k] <= t.at
  }

  /** No command on `m` in the run is late. */
  ghost predicate NoneLate<K(!new), D>(q: State<K, D>, clock: int, ts: seq<Timed<K, D>>, max: nat, m: K)
    requires Run(q, clock, ts, max)
    decreases |ts|
  {
    ts == [] || (!Late(q, ts[0], m) && NoneLate(Next(q, ts[0], max), ts[0].at, ts[1..], max, m))
  }

  /* ---- the invariants ---- */

  /** Of every run, late or not. */
  ghost predicate WellFormed<K(!new), D>(q: State<K, D>) {
    && |q.ends| == |q.x.jobs| && W.JobsOk(q.x)
    && q.z.Keys <= q.x.enqueued && q.removed <= q.x.enqueued
  }

  /**
   Of a member that no late command has touched: an owner within its lease is the only one, the member is
   leased to it until exactly the end of its lease, and a removed member is out of the queue.
   */
  ghost predicate Exclusive<K(!new), D>(q: State<K, D>, clock: int, m: K) {
    && (forall j: nat, k: nat | Holds(q, clock, m, j) && Holds(q, clock, m, k) :: j == k)
    && (forall k: nat | Holds(q, clock, m, k) :: m in q.z && q.z[m] == q.ends[k])
    && (m in q.removed ==> m !in q.z)
  }

  lemma StepWellFormed<K(!new), D>(q: State<K, D>, t: Timed<K, D>, max: nat)
    requires WellFormed(q) && Enabled(q, t)
    ensures WellFormed(Next(q, t, max))
  {
    match t.act
    case Job(step) =>
      W.JobsKept(q.z, q.x, step, max);
      JobKeepsSets(q, t, max);
    case Enqueue(more) =>
      var q' := Next(q, t, max);
      forall k | 0 <= k < |q'.x.jobs| ensures W.JobOk(q'.x, q'.x.jobs[k]) {
        assert W.JobOk(q.x, q.x.jobs[k]);
      }
    case Elsewhere =>
  }

  lemma JobKeepsSets<K(!new), D>(q: State<K, D>, t: Timed<K, D>, max: nat)
    requires WellFormed(q) && Enabled(q, t) && t.act.Job?
    ensures var q' := Next(q, t, max);
            && |q'.ends| == |q'.x.jobs| && q'.x.enqueued == q.x.enqueued
            && q'.z.Keys <= q.x.enqueued && q'.removed <= q.x.enqueued
  {
    hide ZSet.IsRange, Q.Lease;
    var step := t.act.step;
    if !step.Claim? { assert W.JobOk(q.x, q.x.jobs[step.k]); }
  }

  /** What a job step does to one member. */
  lemma StepOwners<K(!new), D>(q: State<K, D>, t: Timed<K, D>, max: nat, m: K, k: nat)
    requires WellFormed(q) && Enabled(q, t) && Holds(Next(q, t, max), t.at, m, k)
    ensures k < |q.x.jobs| ==> Holds(q, t.at, m, k) && Next(q, t, max).ends[k] == q.ends[k]
    ensures k >= |q.x.jobs| ==>
              t.act.Job? && t.act.step.Claim? && k - |q.x.jobs| < |t.act.step.due|
              && t.act.step.due[k - |q.x.jobs|].0 == m && Next(q, t, max).ends[k] == t.at + t.act.step.lease
  {
    hide ZSet.IsRange, Q.Lease, W.JobsOk;
  }

  /** A claim that returns `m` finds nobody within a lease on it. */
  lemma ClaimFree<K(!new), D>(q: State<K, D>, t: Timed<K, D>, max: nat, m: K)
    requires WellFormed(q) && Enabled(q, t) && Exclusive(q, t.at, m)
    requires t.act.Job? && t.act.step.Claim? && ZSet.HasKey(t.act.step.due, m)
    ensures m in q.z && forall k: nat :: !Holds(q, t.at, m, k)
    ensures forall i, j | 0 <= i < |t.act.step.due| && 0 <= j < |t.act.step.due|
              && t.act.step.due[i].0 == m && t.act.step.due[j].0 == m :: i == j
  {
    var due := t.act.step.due;
    var i :| 0 <= i < |due| && due[i].0 == m;
  }

  /** What a job step does to the queue, for one member. */
  lemma StepMember<K(!new), D>(q: State<K, D>, t: Timed<K, D>, max: nat, m: K)
    requires WellFormed(q) && Enabled(q, t)
    ensures var q' := Next(q, t, max);
            if t.act.Job? && t.act.step.Claim? && ZSet.HasKey(t.act.step.due, m) then
              m in q.z && m in q'.z && q'.z[m] == t.at + t.act.step.lease
            else if Touches(q, t, m) then
              Owns(q.x.jobs[t.act.step.k], m)
              && q'.x.jobs[t.act.step.k] == (if t.act.step.Zrem? then W.Removed(m) else W.Ended)
              && (m in q'.z <==> t.act.step.Reschedule?)
            else if m in q.x.enqueued then (m in q'.z <==> m in q.z) && (m in q.z ==> q'.z[m] == q.z[m])
            else m !in q.z
    ensures var q' := Next(q, t, max);
            m in q'.removed <==> m in q.removed || (Touches(q, t, m) && t.act.step.Zrem?)
  {
    hide W.JobsOk, ZSet.DistinctKeys;
    if t.act.Job? && t.act.step.Claim? {
      var due := t.act.step.due;
      if ZSet.HasKey(due, m) { var i :| 0 <= i < |due| && due[i].0 == m; }
      hide ZSet.HasKey, ZSet.IsRange;
    }
  }

  /** Any step that is not a late command on `m` keeps `m` exclusive. */
  lemma StepExclusive<K(!new), D>(q: State<K, D>, t: Timed<K, D>, max: nat, m: K)
    requires WellFormed(q) && Enabled(q, t) && Exclusive(q, t.at, m) && !Late(q, t, m)
    ensures Exclusive(Next(q, t, max), t.at, m)
  {
    var q' := Next(q, t, max);
    StepMember(q, t, max, m);
    hide Next, Enabled, WellFormed, Holds, Owns;
    forall k: nat | Holds(q', t.at, m, k) ensures HeldBefore(q, t, max, m, k) {
      StepOwners(q, t, max, m, k);
    }
    if t.act.Job? && t.act.step.Claim? && ZSet.HasKey(t.act.step.due, m) {
      ClaimFree(q, t, max, m);
    } else if Touches(q, t, m) {
      TouchFrees(q, t, max, m);
    }
  }

  /** Who holds `m` after a step held it before, or has just claimed it. */
  ghost predicate HeldBefore<K(!new), D>(q: State<K, D>, t: Timed<K, D>, max: nat, m: K, k: nat)
    requires Enabled(q, t)
  {
    k < |Next(q, t, max).ends|
    && if k < |q.x.jobs| then Holds(q, t.at, m, k) && Next(q, t, max).ends[k] == q.ends[k]
       else t.act.Job? && t.act.step.Claim? && k - |q.x.jobs| < |t.act.step.due|
            && t.act.step.due[k - |q.x.jobs|].0 == m && Next(q, t, max).ends[k] == t.at + t.act.step.lease
  }

  /** The owner that removes or moves `m` in time was the only one, and is none any more. */
  lemma TouchFrees<K(!new), D>(q: State<K, D>, t: Timed<K, D>, max: nat, m: K)
    requires WellFormed(q) && Enabled(q, t) && Exclusive(q, t.at, m) && Touches(q, t, m) && !Late(q, t, m)
    ensures m !in q.removed && forall k: nat :: !Holds(Next(q, t, max), t.at, m, k)
  {
    hide ZSet.IsRange, Q.Lease, W.JobsOk;
    var k := t.act.step.k;
    assert Holds(q, t.at, m, k);
    var q' := Next(q, t, max);
    forall j: nat ensures Holds(q', t.at, m, j) ==> j != k && Holds(q, t.at, m, j) {
    }
  }

  lemma LaterClock<K(!new), D>(q: State<K, D>, clock: int, clock': int, m: K)
    requires Exclusive(q, clock, m) && clock <= clock'
    ensures Exclusive(q, clock', m)
  {
    assert forall k: nat | Holds(q, clock', m, k) :: Holds(q, clock, m, k);
  }

  /**
   Lease safety over every run in which no command on `m` is late: an owner within its lease is the only one,
   `m` is leased to it until exactly the end of its lease, and once removed `m` never enters the queue again.
   */
  lemma {:induction false} LeaseSafety<K(!new), D>(q: State<K, D>, clock: int, ts: seq<Timed<K, D>>, max: nat, m: K)
    requires WellFormed(q) && Exclusive(q, clock, m) && Run(q, clock, ts, max) && NoneLate(q, clock, ts, max, m)
    ensures WellFormed(After(q, clock, ts, max)) && Exclusive(After(q, clock, ts, max), Clock(clock, ts), m)
    decreases |ts|
  {
    hide WellFormed, Exclusive, Next, Enabled, Late;
    if ts != [] {
      LaterClock(q, clock, ts[0].at, m);
      StepWellFormed(q, ts[0], max);
      StepExclusive(q, ts[0], max, m);
      LeaseSafety(Next(q, ts[0], max), ts[0].at, ts[1..], max, m);
    }
  }

  lemma FreshExclusive<K(!new), D>(clock: int, m: K)
    ensures WellFormed(Fresh<K, D>()) && Exclusive(Fresh<K, D>(), clock, m)
  {
  }

  lemma {:induction false} RunWellFormed<K(!new), D>(q: State<K, D>, clock: int, ts: seq<Timed<K, D>>, max: nat)
    requires WellFormed(q) && Run(q, clock, ts, max)
    ensures WellFormed(After(q, clock, ts, max))
    decreases |ts|
  {
    hide WellFormed, Next, Enabled;
    if ts != [] {
      StepWellFormed(q, ts[0], max);
      RunWellFormed(Next(q, ts[0], max), ts[0].at, ts[1..], max);
    }
  }

  /* ---- when a removed member comes back ---- */

  predicate PutsBack<K(==), D(==)>(q: State<K, D>, t: Timed<K, D>, m: K) {
    Touches(q, t, m) && t.act.step.Reschedule?
  }

  predicate Removes<K(==), D(==)>(q: State<K, D>, t: Timed<K, D>, m: K) {
    Touches(q, t, m) && t.act.step.Zrem?
  }

  ghost predicate NeverRemoved<K(!new), D>(q: State<K, D>, clock: int, ts: seq<Timed<K, D>>, max: nat, m: K)
    requires Run(q, clock, ts, max)
    decreases |ts|
  {
    ts == [] || (!Removes(q, ts[0], m) && NeverRemoved(Next(q, ts[0], max), ts[0].at, ts[1..], max, m))
  }

  /** Some owner reschedules `m`; with `late`, at or after the end of its own lease. */
  ghost predicate PutBack<K(!new), D>(q: State<K, D>, clock: int, ts: seq<Timed<K, D>>, max: nat, m: K, late: bool)
    requires Run(q, clock, ts, max)
    decreases |ts|
  {
    && ts != []
    && (|| (PutsBack(q, ts[0], m) && (late ==> Late(q, ts[0], m)))
        || PutBack(Next(q, ts[0], max), ts[0].at, ts[1..], max, m, late))
  }

  /** A removed member is queued again exactly by a reschedule that no removal follows. */
  lemma {:induction false} BackIffPutBack<K(!new), D>(q: State<K, D>, clock: int, ts: seq<Timed<K, D>>, max: nat, m: K)
    requires WellFormed(q) && m in q.x.enqueued && Run(q, clock, ts, max) && NeverRemoved(q, clock, ts, max, m)
    ensures m in After(q, clock, ts, max).z <==> m in q.z || PutBack(q, clock, ts, max, m, false)
    decreases |ts|
  {
    hide WellFormed, Next, Enabled, Touches;
    if ts != [] {
      StepWellFormed(q, ts[0], max);
      StepPresence(q, ts[0], max, m);
      BackIffPutBack(Next(q, ts[0], max), ts[0].at, ts[1..], max, m);
    }
  }

  lemma StepPresence<K(!new), D>(q: State<K, D>, t: Timed<K, D>, max: nat, m: K)
    requires WellFormed(q) && Enabled(q, t) && m in q.x.enqueued && !Removes(q, t, m)
    ensures m in Next(q, t, max).x.enqueued
    ensures m in Next(q, t, max).z <==> m in q.z || PutsBack(q, t, m)
  {
    StepMember(q, t, max, m);
    StepEnqueued(q, t, max);
    hide Next, Enabled, WellFormed;
  }

  lemma StepEnqueued<K(!new), D>(q: State<K, D>, t: Timed<K, D>, max: nat)
    requires Enabled(q, t)
    ensures q.x.enqueued <= Next(q, t, max).x.enqueued
  {
    hide ZSet.IsRange, Q.Lease;
  }

  ghost predicate NobodyHolds<K(!new), D>(q: State<K, D>, clock: int, m: K) {
    forall k: nat :: !Holds(q, clock, m, k)
  }

  lemma HolderBefore<K(!new), D>(q: State<K, D>, t: Timed<K, D>, max: nat, m: K, k: nat)
    requires WellFormed(q) && Enabled(q, t) && m !in q.z && Holds(Next(q, t, max), t.at, m, k)
    ensures Holds(q, t.at, m, k)
  {
    StepOwners(q, t, max, m, k);
    hide Next, Holds, WellFormed;
  }

  lemma PutterIsLate<K(!new), D>(q: State<K, D>, t: Timed<K, D>, m: K)
    requires WellFormed(q) && Enabled(q, t) && PutsBack(q, t, m) && NobodyHolds(q, t.at, m)
    ensures Late(q, t, m)
  {
    hide W.JobsOk;
    assert !Holds(q, t.at, m, t.act.step.k);
  }

  /** While `m` is out of the queue nobody new gets to own it. */
  lemma StepNobody<K(!new), D>(q: State<K, D>, t: Timed<K, D>, max: nat, m: K)
    requires WellFormed(q) && Enabled(q, t) && m !in q.z && NobodyHolds(q, t.at, m)
    ensures NobodyHolds(Next(q, t, max), t.at, m)
  {
    hide Next, Enabled, WellFormed, Holds;
    forall k: nat ensures Holds(Next(q, t, max), t.at, m, k) ==> Holds(q, t.at, m, k) {
      if Holds(Next(q, t, max), t.at, m, k) { HolderBefore(q, t, max, m, k); }
    }
  }

  lemma NobodyLater<K(!new), D>(q: State<K, D>, clock: int, clock': int, m: K)
    requires NobodyHolds(q, clock, m) && clock <= clock'
    ensures NobodyHolds(q, clock', m)
  {
    assert forall k: nat | Holds(q, clock', m, k) :: Holds(q, clock, m, k);
  }

  /** If nobody is within a lease on `m` when it is out of the queue, whoever puts it back first is late. */
  lemma {:induction false} FirstPutBackIsLate<K(!new), D>(q: State<K, D>, clock: int, ts: seq<Timed<K, D>>,
                                                   max: nat, m: K)
    requires WellFormed(q) && m in q.x.enqueued && m !in q.z && NobodyHolds(q, clock, m) && Run(q, clock, ts, max)
    ensures PutBack(q, clock, ts, max, m, false) <==> PutBack(q, clock, ts, max, m, true)
    decreases |ts|
  {
    hide WellFormed, Next, Enabled, Touches, NobodyHolds, Late;
    if ts != [] {
      NobodyLater(q, clock, ts[0].at, m);
      if PutsBack(q, ts[0], m) {
        PutterIsLate(q, ts[0], m);
      } else {
        StepWellFormed(q, ts[0], max);
        StepNobody(q, ts[0], max, m);
        StillOut(q, ts[0], max, m);
        FirstPutBackIsLate(Next(q, ts[0], max), ts[0].at, ts[1..], max, m);
      }
    }
  }

  lemma StillOut<K(!new), D>(q: State<K, D>, t: Timed<K, D>, max: nat, m: K)
    requires WellFormed(q) && Enabled(q, t) && m in q.x.enqueued && m !in q.z && !PutsBack(q, t, m)
    ensures m in Next(q, t, max).x.enqueued && m !in Next(q, t, max).z
  {
    StepMember(q, t, max, m);
    StepEnqueued(q, t, max);
    hide Next, Enabled, WellFormed;
  }

  /** Nobody but job `k` is within its lease on `m`. */
  ghost predicate NobodyElse<K(!new), D>(q: State<K, D>, clock: int, m: K, k: nat) {
    forall j: nat | Holds(q, clock, m, j) :: j == k
  }

  lemma RemovalLeaves<K(!new), D>(q: State<K, D>, t: Timed<K, D>, max: nat, m: K)
    requires WellFormed(q) && Enabled(q, t) && Removes(q, t, m)
    ensures var q' := Next(q, t, max);
            && WellFormed(q') && m in q'.x.enqueued && m in q'.removed && m !in q'.z
            && (NobodyElse(q, t.at, m, t.act.step.k) ==> NobodyHolds(q', t.at, m))
  {
    StepWellFormed(q, t, max);
    hide ZSet.IsRange, Q.Lease;
    var k := t.act.step.k;
    assert W.JobOk(q.x, q.x.jobs[k]);
    var q' := Next(q, t, max);
    forall j: nat ensures Holds(q', t.at, m, j) ==> j != k && Holds(q, t.at, m, j) {
    }
  }

  /**
   When a finished and acknowledged job comes back. After the last removal of `m`, `m` is queued again if
   and only if some owner has rescheduled it since. If at that removal no other owner was within its
   lease, then if and only if some owner has rescheduled it at or after the end of its own lease.
   */
  lemma RequeuedIff<K(!new), D>(q: State<K, D>, t: Timed<K, D>, ts: seq<Timed<K, D>>, max: nat, m: K)
    requires WellFormed(q) && Enabled(q, t) && Removes(q, t, m)
    requires Run(Next(q, t, max), t.at, ts, max) && NeverRemoved(Next(q, t, max), t.at, ts, max, m)
    ensures var q' := Next(q, t, max);
            var back := m in After(q', t.at, ts, max).z;
            && (back <==> PutBack(q', t.at, ts, max, m, false))
            && (NobodyElse(q, t.at, m, t.act.step.k) ==> (back <==> PutBack(q', t.at, ts, max, m, true)))
  {
    RemovalLeaves(q, t, max, m);
    hide WellFormed, Next, Enabled, Touches, NobodyElse, NobodyHolds, PutBack;
    var q' := Next(q, t, max);
    BackIffPutBack(q', t.at, ts, max, m);
    if NobodyElse(q, t.at, m, t.act.step.k) { FirstPutBackIsLate(q', t.at, ts, max, m); }
  }

  /* ---- a whole run ---- */

  lemma {:induction false} RunSplit<K(!new), D>(q: State<K, D>, clock: int, ts: seq<Timed<K, D>>, max: nat, n: nat)
    requires Run(q, clock, ts, max) && n <= |ts|
    ensures Run(q, clock, ts[..n], max)
    ensures Run(After(q, clock, ts[..n], max), Clock(clock, ts[..n]), ts[n..], max)
    ensures After(q, clock, ts, max) == After(After(q, clock, ts[..n], max), Clock(clock, ts[..n]), ts[n..], max)
    decreases |ts|
  {
    hide Next, Enabled;
    if n == 0 {
      assert ts[..0] == [] && ts[0..] == ts;
    } else {
      RunSplit(Next(q, ts[0], max), ts[0].at, ts[1..], max, n - 1);
      assert ts[..n][0] == ts[0] && ts[..n][1..] == ts[1..][..n - 1] && ts[n..] == ts[1..][n - 1..];
      assert Clock(clock, ts[..n]) == Clock(ts[0].at, ts[1..][..n - 1]);
    }
  }

  /** The state of a queue, empty at first, before step `n` of a run. */
  function Before<K(!new), D>(clock: int, ts: seq<Timed<K, D>>, max: nat, n: nat): State<K, D>
    requires Run(Fresh<K, D>(), clock, ts, max) && n <= |ts|
  {
    RunSplit(Fresh<K, D>(), clock, ts, max, n);
    After(Fresh(), clock, ts[..n], max)
  }

  /** What every run of a queue guarantees, whatever its jobs do. */
  ghost predicate Guaranteed<K(!new), D>(clock: int, ts: seq<Timed<K, D>>, max: nat)
    requires Run(Fresh<K, D>(), clock, ts, max)
  {
    && (forall m | NoneLate(Fresh<K, D>(), clock, ts, max, m) ::
          Exclusive(After(Fresh(), clock, ts, max), Clock(clock, ts), m))
    && forall n, m | 0 <= n < |ts| && LastRemoval(clock, ts, max, n, m) ::
         BackIff(clock, ts, max, n, m)
  }

  /** Step `n` removes `m`, and no later step does. */
  ghost predicate LastRemoval<K(!new), D>(clock: int, ts: seq<Timed<K, D>>, max: nat, n: nat, m: K)
    requires Run(Fresh<K, D>(), clock, ts, max) && n < |ts|
  {
    RunAt(clock, ts, max, n);
    var q := Before(clock, ts, max, n);
    Removes(q, ts[n], m) && NeverRemoved(Next(q, ts[n], max), ts[n].at, ts[n + 1..], max, m)
  }

  /** `m`, last removed by step `n`, is queued at the end exactly as RequeuedIff says. */
  ghost predicate BackIff<K(!new), D>(clock: int, ts: seq<Timed<K, D>>, max: nat, n: nat, m: K)
    requires Run(Fresh<K, D>(), clock, ts, max) && n < |ts| && ts[n].act.Job? && !ts[n].act.step.Claim?
  {
    RunAt(clock, ts, max, n);
    var q := Before(clock, ts, max, n);
    var q' := Next(q, ts[n], max);
    var back := m in After(Fresh(), clock, ts, max).z;
    && (back <==> PutBack(q', ts[n].at, ts[n + 1..], max, m, false))
    && (NobodyElse(q, ts[n].at, m, ts[n].act.step.k) ==> (back <==> PutBack(q', ts[n].at, ts[n + 1..], max, m, true)))
    && (NoneLate(Fresh<K, D>(), clock, ts[..n + 1], max, m) ==> NobodyElse(q, ts[n].at, m, ts[n].act.step.k))
  }

  lemma RunAt<K(!new), D>(clock: int, ts: seq<Timed<K, D>>, max: nat, n: nat)
    requires Run(Fresh<K, D>(), clock, ts, max) && n < |ts|
    ensures Run(Fresh<K, D>(), clock, ts[..n + 1], max)
    ensures var q := Before(clock, ts, max, n);
            && Enabled(q, ts[n]) && Clock(clock, ts[..n]) <= ts[n].at
            && Run(Next(q, ts[n], max), ts[n].at, ts[n + 1..], max)
            && After(Fresh(), clock, ts, max) == After(Next(q, ts[n], max), ts[n].at, ts[n + 1..], max)
  {
    hide Next, Enabled;
    RunSplit(Fresh<K, D>(), clock, ts, max, n);
    RunSplit(Fresh<K, D>(), clock, ts, max, n + 1);
    assert ts[n..][0] == ts[n] && ts[n..][1..] == ts[n + 1..];
  }

  lemma {:induction false} NoneLateSplit<K(!new), D>(q: State<K, D>, clock: int, ts: seq<Timed<K, D>>,
                                               max: nat, n: nat, m: K)
    requires n < |ts| && Run(q, clock, ts[..n + 1], max) && NoneLate(q, clock, ts[..n + 1], max, m)
    ensures Run(q, clock, ts[..n], max) && NoneLate(q, clock, ts[..n], max, m)
    ensures !Late(After(q, clock, ts[..n], max), ts[n], m)
    decreases n
  {
    hide Next, Enabled, Late;
    assert ts[..n + 1][0] == ts[0];
    if n == 0 {
      assert ts[..0] == [];
    } else {
      assert ts[..n + 1][1..] == ts[1..][..n] && ts[..n][0] == ts[0] && ts[..n][1..] == ts[1..][..n - 1];
      NoneLateSplit(Next(q, ts[0], max), ts[0].at, ts[1..], max, n - 1, m);
    }
  }

  lemma InTimeHolds<K(!new), D>(q: State<K, D>, t: Timed<K, D>, m: K)
    requires WellFormed(q) && Enabled(q, t) && Exclusive(q, t.at, m) && Removes(q, t, m) && !Late(q, t, m)
    ensures NobodyElse(q, t.at, m, t.act.step.k)
  {
    hide W.JobsOk;
    assert Holds(q, t.at, m, t.act.step.k);
  }

  lemma RemovedAlone<K(!new), D>(clock: int, ts: seq<Timed<K, D>>, max: nat, n: nat, m: K)
    requires Run(Fresh<K, D>(), clock, ts, max) && n < |ts|
    requires Run(Fresh<K, D>(), clock, ts[..n + 1], max) && NoneLate(Fresh<K, D>(), clock, ts[..n + 1], max, m)
    requires Removes(Before(clock, ts, max, n), ts[n], m)
    ensures NobodyElse(Before(clock, ts, max, n), ts[n].at, m, ts[n].act.step.k)
  {
    hide Run, After, NoneLate, WellFormed, Exclusive, Enabled, Late, Removes, NobodyElse, Touches;
    RunAt(clock, ts, max, n);
    NoneLateSplit(Fresh<K, D>(), clock, ts, max, n, m);
    FreshExclusive<K, D>(clock, m);
    LeaseSafety(Fresh<K, D>(), clock, ts[..n], max, m);
    var q := Before(clock, ts, max, n);
    LaterClock(q, Clock(clock, ts[..n]), ts[n].at, m);
    InTimeHolds(q, ts[n], m);
  }

  lemma RemovalGuaranteed<K(!new), D>(clock: int, ts: seq<Timed<K, D>>, max: nat, n: nat, m: K)
    requires Run(Fresh<K, D>(), clock, ts, max) && n < |ts| && LastRemoval(clock, ts, max, n, m)
    ensures BackIff(clock, ts, max, n, m)
  {
    hide Run, After, NoneLate, WellFormed, Next, Enabled, Removes, NobodyElse, Touches, PutBack, NeverRemoved;
    RunAt(clock, ts, max, n);
    RunSplit(Fresh<K, D>(), clock, ts, max, n);
    FreshWellFormed<K, D>();
    RunWellFormed(Fresh<K, D>(), clock, ts[..n], max);
    RequeuedIff(Before(clock, ts, max, n), ts[n], ts[n + 1..], max, m);
    if NoneLate(Fresh<K, D>(), clock, ts[..n + 1], max, m) { RemovedAlone(clock, ts, max, n, m); }
  }

  lemma FreshWellFormed<K(!new), D>()
    ensures WellFormed(Fresh<K, D>())
  {
  }

  /** Every run of a queue from empty, with any schedule of its jobs, has the guarantees. */
  lemma AllGuaranteed<K(!new), D>(clock: int, ts: seq<Timed<K, D>>, max: nat)
    requires Run(Fresh<K, D>(), clock, ts, max)
    ensures Guaranteed(clock, ts, max)
  {
    hide Run, After, NoneLate, WellFormed, Exclusive, BackIff, Next, Enabled, NeverRemoved;
    forall m | NoneLate(Fresh<K, D>(), clock, ts, max, m)
      ensures Exclusive(After(Fresh<K, D>(), clock, ts, max), Clock(clock, ts), m)
    {
      FreshExclusive<K, D>(clock, m);
      LeaseSafety(Fresh<K, D>(), clock, ts, max, m);
    }
    forall n, m | 0 <= n < |ts| && LastRemoval(clock, ts, max, n, m) ensures BackIff(clock, ts, max, n, m) {
      RemovalGuaranteed(clock, ts, max, n, m);
    }
  }

  /* ---- two schedules in which a finished job comes back ---- */

  /** The step is enabled in the first state and leads to the second. */
  ghost predicate Moves<K(!new), D>(a: State<K, D>, t: Timed<K, D>, b: State<K, D>, max: nat) {
    Enabled(a, t) && Next(a, t, max) == b
  }

  ghost predicate Path<K(!new), D>(states: seq<State<K, D>>, ts: seq<Timed<K, D>>, max: nat) {
    && |states| == |ts| + 1
    && forall i | 0 <= i < |ts| :: Moves(states[i], ts[i], states[i + 1], max)
  }

  ghost predicate Ordered<K, D>(clock: int, ts: seq<Timed<K, D>>) {
    && (ts != [] ==> clock <= ts[0].at)
    && forall i, j | 0 <= i < j < |ts| :: ts[i].at <= ts[j].at
  }

  lemma {:induction false} PathRuns<K(!new), D>(states: seq<State<K, D>>, clock: int, ts: seq<Timed<K, D>>, max: nat)
    requires Path(states, ts, max) && Ordered(clock, ts)
    ensures Run(states[0], clock, ts, max) && After(states[0], clock, ts, max) == states[|ts|]
    decreases |ts|
  {
    hide Next, Enabled;
    if ts != [] {
      assert forall i | 0 <= i < |ts| - 1 :: states[1..][i] == states[i + 1] && ts[1..][i] == ts[i + 1];
      PathRuns(states[1..], ts[0].at, ts[1..], max);
    }
  }

  /** Along a path, somebody puts `m` back exactly at one of the steps. */
  lemma {:induction false} PathPutBack<K(!new), D>(states: seq<State<K, D>>, clock: int, ts: seq<Timed<K, D>>, max: nat,
                                                   m: K, late: bool)
    requires Path(states, ts, max) && Ordered(clock, ts) && Run(states[0], clock, ts, max)
    ensures PutBack(states[0], clock, ts, max, m, late)
            <==> exists i :: 0 <= i < |ts| && PutsBack(states[i], ts[i], m) && (late ==> Late(states[i], ts[i], m))
    decreases |ts|
  {
    hide Next, Enabled, PutsBack, Late;
    if ts != [] {
      var rest, states' := ts[1..], states[1..];
      assert forall i | 0 <= i < |rest| :: states'[i] == states[i + 1] && rest[i] == ts[i + 1];
      PathPutBack(states', ts[0].at, rest, max, m, late);
      if i :| 0 <= i < |ts| && PutsBack(states[i], ts[i], m) && (late ==> Late(states[i], ts[i], m)) {
        if i > 0 { assert PutsBack(states'[i - 1], rest[i - 1], m); }
      }
      if i :| 0 <= i < |rest| && PutsBack(states'[i], rest[i], m) && (late ==> Late(states'[i], rest[i], m)) {
        assert PutsBack(states[i + 1], ts[i + 1], m);
      }
    }
  }

  /** A job is enqueued and claimed, its lease ends, and another owner claims it. */
  function Shared<K(!new), D>(m: K, lease: nat): seq<Timed<K, D>> {
    [Timed(0, Enqueue(map[m := 0])),
     Timed(0, Job(W.Claim(0, lease, 1, [(m, 0)]))),
     Timed(lease, Job(W.Claim(lease, lease, 1, [(m, lease)])))]
  }

  /** The queue after that, `a` and `b` being where the two jobs are. */
  function TwoOwners<K(!new), D>(z: map<K, int>, m: K, lease: nat, a: W.Job<K, D>, b: W.Job<K, D>,
                                 attempts: map<K, nat>,
                                 done: set<K>, failures: map<K, nat>, removed: set<K>): State<K, D>
  {
    State(z, W.Side(attempts, [a, b], {m}, done, {}, {}, failures), [lease, 2 * lease], removed)
  }

  lemma ClaimMoves<K(!new), D>(q: State<K, D>, m: K, score: int, lease: nat, max: nat)
    requires q.z == map[m := score]
    ensures var t: Timed<K, D> := Timed(score, Job(W.Claim(score, lease, 1, [(m, score)])));
            && Enabled(q, t)
            && Next(q, t, max) == State(map[m := score + lease], q.x.(jobs := q.x.jobs + [W.Claimed(m)]),
                                        q.ends + [score + lease], q.removed)
  {
    ZSet.OnlyOneDue(m, score, score);
    hide ZSet.IsRange;
    assert [(m, score)][0].0 == m;
    assert W.NewJobs<K, D>([(m, score)]) == [W.Claimed(m)];
    var due := [(m, score)];
    assert seq(|due|, _ => score + lease) == [score + lease];
  }

  function OneOwner<K(!new), D>(z: map<K, int>, m: K, jobs: seq<W.Job<K, D>>, ends: seq<int>): State<K, D> {
    State(z, W.Side(map[], jobs, {m}, {}, {}, {}, map[]), ends, {})
  }

  lemma EnqueueMoves<K(!new), D>(m: K, max: nat)
    ensures Moves(Fresh<K, D>(), Timed(0, Enqueue(map[m := 0])), OneOwner(map[m := 0], m, [], []), max)
  {
    assert Fresh<K, D>().z + map[m := 0] == map[m := 0];
  }

  lemma FirstClaimMoves<K(!new), D>(m: K, lease: nat, max: nat)
    ensures Moves(OneOwner<K, D>(map[m := 0], m, [], []), Shared(m, lease)[1],
                  OneOwner(map[m := lease], m, [W.Claimed(m)], [lease]), max)
  {
    var q := OneOwner<K, D>(map[m := 0], m, [], []);
    ClaimMoves(q, m, 0, lease, max);
    hide Next, Enabled;
    assert q.x.jobs + [W.Claimed(m)] == [W.Claimed(m)] && q.ends + [0 + lease] == [lease];
  }

  lemma SecondClaimMoves<K(!new), D>(m: K, lease: nat, max: nat)
    ensures Moves(OneOwner<K, D>(map[m := lease], m, [W.Claimed(m)], [lease]), Shared(m, lease)[2],
                  TwoOwners(map[m := 2 * lease], m, lease, W.Claimed(m), W.Claimed(m), map[], {}, map[], {}), max)
  {
    var q := OneOwner<K, D>(map[m := lease], m, [W.Claimed(m)], [lease]);
    ClaimMoves(q, m, lease, lease, max);
    hide Next, Enabled;
    assert q.x.jobs + [W.Claimed(m)] == [W.Claimed(m), W.Claimed(m)] && q.ends + [lease + lease] == [lease, 2 * lease];
  }

  lemma SharedRuns<K(!new), D>(m: K, lease: nat, max: nat)
    ensures var ts := Shared<K, D>(m, lease);
            && Run(Fresh<K, D>(), 0, ts, max)
            && After(Fresh<K, D>(), 0, ts, max)
               == TwoOwners(map[m := 2 * lease], m, lease, W.Claimed(m), W.Claimed(m), map[], {}, map[], {})
  {
    hide Moves, Next, Enabled, OneOwner;
    EnqueueMoves<K, D>(m, max);
    FirstClaimMoves<K, D>(m, lease, max);
    SecondClaimMoves<K, D>(m, lease, max);
    var ts := Shared<K, D>(m, lease);
    var states := [Fresh<K, D>(), OneOwner(map[m := 0], m, [], []),
                   OneOwner(map[m := lease], m, [W.Claimed(m)], [lease]),
                   TwoOwners(map[m := 2 * lease], m, lease, W.Claimed(m), W.Claimed(m), map[], {}, map[], {})];
    assert forall i | 0 <= i < |ts| :: Moves(states[i], ts[i], states[i + 1], max);
    PathRuns(states, 0, ts, max);
  }

  /** The first owner fails, late; the second finishes and acknowledges in time; the first puts the job back. */
  function LateOwner<K(!new), D>(m: K, lease: nat, when: int): seq<Timed<K, D>> {
    [Timed(lease, Job(W.Finish(0, W.Error))), Timed(lease, Job(W.Bump(0))), Timed(lease, Job(W.Finish(1, W.Success))),
     Timed(lease, Job(W.Zrem(1))), Timed(lease, Job(W.Reschedule(0, when)))]
  }

  function LateOwnerStates<K(!new), D>(m: K, lease: nat, when: int): seq<State<K, D>> {
    var z, one := map[m := 2 * lease], map[m := 1];
    [TwoOwners(z, m, lease, W.Claimed(m), W.Claimed(m), map[], {}, map[], {}),
     TwoOwners(z, m, lease, W.Failing(m), W.Claimed(m), map[], {}, one, {}),
     TwoOwners(z, m, lease, W.Counted(m, 1), W.Claimed(m), one, {}, one, {}),
     TwoOwners(z, m, lease, W.Counted(m, 1), W.Settled(m), one, {m}, one, {}),
     TwoOwners(map[], m, lease, W.Counted(m, 1), W.Removed(m), one, {m}, one, {m}),
     TwoOwners(map[m := when], m, lease, W.Ended, W.Removed(m), one, {m}, one, {m})]
  }

  /** The first owner finishes and acknowledges, late; the second, within its lease, fails and puts the job back. */
  function LateAck<K(!new), D>(m: K, lease: nat, when: int): seq<Timed<K, D>> {
    [Timed(lease, Job(W.Finish(0, W.Success))), Timed(lease, Job(W.Finish(1, W.Error))), Timed(lease, Job(W.Bump(1))),
     Timed(lease, Job(W.Zrem(0))), Timed(lease, Job(W.Reschedule(1, when)))]
  }

  function LateAckStates<K(!new), D>(m: K, lease: nat, when: int): seq<State<K, D>> {
    var z, one := map[m := 2 * lease], map[m := 1];
    [TwoOwners(z, m, lease, W.Claimed(m), W.Claimed(m), map[], {}, map[], {}),
     TwoOwners(z, m, lease, W.Settled(m), W.Claimed(m), map[], {m}, map[], {}),
     TwoOwners(z, m, lease, W.Settled(m), W.Failing(m), map[], {m}, one, {}),
     TwoOwners(z, m, lease, W.Settled(m), W.Counted(m, 1), one, {m}, one, {}),
     TwoOwners(map[], m, lease, W.Removed(m), W.Counted(m, 1), one, {m}, one, {m}),
     TwoOwners(map[m := when], m, lease, W.Removed(m), W.Ended, one, {m}, one, {m})]
  }

  lemma LateOwnerMoves<K(!new), D>(m: K, lease: nat, when: int, max: nat, i: nat)
    requires max != 1 && i < 5
    ensures Moves(LateOwnerStates<K, D>(m, lease, when)[i], LateOwner(m, lease, when)[i],
                  LateOwnerStates(m, lease, when)[i + 1], max)
  {
    hide ZSet.IsRange;
    assert map[m := 2 * lease] - {m} == map[];
  }

  lemma LateAckMoves<K(!new), D>(m: K, lease: nat, when: int, max: nat, i: nat)
    requires max != 1 && i < 5
    ensures Moves(LateAckStates<K, D>(m, lease, when)[i], LateAck(m, lease, when)[i],
                  LateAckStates(m, lease, when)[i + 1], max)
  {
    hide ZSet.IsRange;
    assert map[m := 2 * lease] - {m} == map[];
  }

  lemma {:induction false} RunAppend<K(!new), D>(q: State<K, D>, clock: int, a: seq<Timed<K, D>>, b: seq<Timed<K, D>>,
                                                 max: nat)
    requires Run(q, clock, a, max) && Run(After(q, clock, a, max), Clock(clock, a), b, max)
    ensures Run(q, clock, a + b, max)
    ensures After(q, clock, a + b, max) == After(After(q, clock, a, max), Clock(clock, a), b, max)
    decreases |a|
  {
    hide Next, Enabled;
    if a == [] {
      assert a + b == b;
    } else {
      assert Clock(clock, a) == Clock(a[0].at, a[1..]);
      RunAppend(Next(q, a[0], max), a[0].at, a[1..], b, max);
      assert (a + b)[1..] == a[1..] + b;
    }
  }

  /**
   At least once and no more: an owner whose lease ran out puts a job back that another owner, within its
   lease, has finished and acknowledged.
   */
  lemma LateOwnerReAdds<K(!new), D>(m: K, lease: nat, when: int, max: nat)
    requires max != 1 && lease > 0
    ensures var ts := Shared<K, D>(m, lease) + LateOwner(m, lease, when);
            && Run(Fresh<K, D>(), 0, ts, max)
            && var q := After(Fresh<K, D>(), 0, ts, max); m in q.z && m in q.removed && m in q.x.done
  {
    var states, ts := LateOwnerStates<K, D>(m, lease, when), LateOwner<K, D>(m, lease, when);
    hide Moves, Next, Enabled;
    forall i | 0 <= i < 5 ensures Moves(states[i], ts[i], states[i + 1], max) {
      LateOwnerMoves<K, D>(m, lease, when, max, i);
    }
    SharedRuns<K, D>(m, lease, max);
    PathRuns(states, lease, ts, max);
    RunAppend(Fresh<K, D>(), 0, Shared<K, D>(m, lease), ts, max);
  }

  /**
   Why the removal must find no other owner within its lease: an owner that acknowledges late takes the job
   away from one that holds it, and that one puts it back within its own lease.
   */
  lemma LateAckReAdds<K(!new), D>(m: K, lease: nat, when: int, max: nat)
    requires max != 1 && lease > 0
    ensures var ts := Shared<K, D>(m, lease) + LateAck(m, lease, when);
            && Run(Fresh<K, D>(), 0, ts, max)
            && var q := After(Fresh<K, D>(), 0, ts, max); m in q.z && m in q.removed && m in q.x.done
    ensures Run(Fresh<K, D>(), 0, Shared<K, D>(m, lease), max)
    ensures var q := After(Fresh<K, D>(), 0, Shared<K, D>(m, lease), max);
            Run(q, lease, LateAck<K, D>(m, lease, when), max)
            && !PutBack(q, lease, LateAck(m, lease, when), max, m, true)
  {
    var states, ts := LateAckStates<K, D>(m, lease, when), LateAck<K, D>(m, lease, when);
    hide Moves, Next, Enabled, PutBack;
    forall i | 0 <= i < 5 ensures Moves(states[i], ts[i], states[i + 1], max) {
      LateAckMoves<K, D>(m, lease, when, max, i);
    }
    SharedRuns<K, D>(m, lease, max);
    PathRuns(states, lease, ts, max);
    RunAppend(Fresh<K, D>(), 0, Shared<K, D>(m, lease), ts, max);
    PathPutBack(states, lease, ts, max, m, true);
    forall i | 0 <= i < 5 ensures !(PutsBack(states[i], ts[i], m) && Late(states[i], ts[i], m)) {
    }
  }

  /* ---- the queue as a list of operations ---- */

  /** What a step does to the sorted set, in the terms of module Queue. */
  function OpsOf<K, D>(q: State<K, D>, t: Timed<K, D>): seq<Q.Op<K>>
    requires Enabled(q, t)
  {
    match t.act
    case Job(Claim(now, lease, limit, due)) => [Q.Claim(now, lease, limit, due)]
    case Job(Reschedule(k, when)) => [Q.Put(map[q.x.jobs[k].m := when])]
    case Job(Zrem(k)) => [Q.Remove(q.x.jobs[k].m)]
    case Enqueue(more) => [Q.Put(more)]
    case _ => []
  }

  function Ops<K(!new), D>(q: State<K, D>, clock: int, ts: seq<Timed<K, D>>, max: nat): seq<Q.Op<K>>
    requires Run(q, clock, ts, max)
    decreases |ts|
  {
    if ts == [] then [] else OpsOf(q, ts[0]) + Ops(Next(q, ts[0], max), ts[0].at, ts[1..], max)
  }

  function OpsAfter<K(!new)>(z: map<K, int>, ops: seq<Q.Op<K>>): map<K, int>
    decreases |ops|
  {
    if ops == [] then z else OpsAfter(Q.OpNext(z, ops[0]), ops[1..])
  }

  lemma StepIsOps<K(!new), D>(q: State<K, D>, t: Timed<K, D>, max: nat, rest: seq<Q.Op<K>>)
    requires Enabled(q, t) && Q.OpsRun(Next(q, t, max).z, rest)
    ensures Q.OpsRun(q.z, OpsOf(q, t) + rest)
    ensures OpsAfter(q.z, OpsOf(q, t) + rest) == OpsAfter(Next(q, t, max).z, rest)
  {
    hide ZSet.IsRange, Q.Lease;
    var ops := OpsOf(q, t);
    if ops == [] {
      assert ops + rest == rest;
      assert Next(q, t, max).z == q.z;
    } else {
      assert (ops + rest)[0] == ops[0] && (ops + rest)[1..] == rest;
      assert Q.OpEnabled(q.z, ops[0]) && Q.OpNext(q.z, ops[0]) == Next(q, t, max).z;
    }
  }

  /** The job machine changes the sorted set as a list of operations of module Queue, whose theorems apply to it. */
  lemma {:induction false} RunIsOps<K(!new), D>(q: State<K, D>, clock: int, ts: seq<Timed<K, D>>, max: nat)
    requires Run(q, clock, ts, max)
    ensures Q.OpsRun(q.z, Ops(q, clock, ts, max)) && OpsAfter(q.z, Ops(q, clock, ts, max)) == After(q, clock, ts, max).z
    decreases |ts|
  {
    hide Next, Enabled, OpsOf;
    if ts != [] {
      var q' := Next(q, ts[0], max);
      RunIsOps(q', ts[0].at, ts[1..], max);
      StepIsOps(q, ts[0], max, Ops(q', ts[0].at, ts[1..], max));
    }
  }
}
