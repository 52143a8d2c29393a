/**
 The worker loop of a durable queue, as atomic steps of concurrent jobs. A job may crash
 between any two steps and may outlive its lease; several jobs may hold the same member.
 */
module Worker {
  import opened Queue
  import ZSet

  /** Where one job is. `data` is what it read for its work. */
  datatype Job<K, D> =
    | Claimed(m: K)
    | Fetched(m: K, data: D)
    | Failing(m: K)
    | Counted(m: K, attempts: nat)
    | Settled(m: K)
    | Removed(m: K)
    | Ended

  /** How a Work function returns: nil, errDropJob, or another error. */
  datatype WorkResult = Success | Dropped | Error

  /**
   Everything about a queue besides its sorted set: the attempts hash, all jobs ever claimed, and,
   for the proofs, what was ever enqueued and how each member's work came out.
   */
  datatype Side<K, D> = Side(
    attempts: map<K, nat>,
    jobs: seq<Job<K, D>>,
    enqueued: set<K>,
    done: set<K>,
    dropped: set<K>,
    gaveUp: set<K>,
    failures: map<K, nat>)

  function Fresh<K, D>(): Side<K, D> {
    Side(map[], [], {}, {}, {}, {}, map[])
  }

  function Count<K>(m: map<K, nat>, k: K): nat {
    if k in m then m[k] else 0
  }

  datatype Step<K, D> =
    | Claim(now: int, lease: nat, limit: nat, due: seq<(K, int)>)
    | Fetch(k: nat, data: D)
    | Finish(k: nat, result: WorkResult)
    | Bump(k: nat)
    | Reschedule(k: nat, when: int)
    | Zrem(k: nat)
    | ZremFails(k: nat)
    | Hdel(k: nat)
    | Crash(k: nat)

  ghost predicate Enabled<K, D>(z: map<K, int>, x: Side<K, D>, step: Step<K, D>) {
    match step
    case Claim(now, _, limit, due) => ZSet.IsRange(z, now, limit, due)
    case Fetch(k, _) => k < |x.jobs| && x.jobs[k].Claimed?
    case Finish(k, _) => k < |x.jobs| && (x.jobs[k].Claimed? || x.jobs[k].Fetched?)
    case Bump(k) => k < |x.jobs| && x.jobs[k].Failing?
    case Reschedule(k, _) => k < |x.jobs| && x.jobs[k].Counted?
    case Zrem(k) => k < |x.jobs| && x.jobs[k].Settled?
    case ZremFails(k) => k < |x.jobs| && x.jobs[k].Settled?
    case Hdel(k) => k < |x.jobs| && x.jobs[k].Removed?
    case Crash(k) => k < |x.jobs|
  }

  function NewJobs<K, D>(due: seq<(K, int)>): (jobs: seq<Job<K, D>>)
    ensures |jobs| == |due| && forall i | 0 <= i < |due| :: jobs[i] == Claimed(due[i].0)
  {
    seq(|due|, i requires 0 <= i < |due| => Claimed(due[i].0))
  }

  /** The sorted set after a step. */
  function NextZ<K(!new), D>(z: map<K, int>, x: Side<K, D>, step: Step<K, D>): map<K, int>
    requires Enabled(z, x, step)
  {
    match step
    case Claim(now, lease, _, due) => Lease(z, due, now + lease)
    case Reschedule(k, when) => z[x.jobs[k].m := when]
    case Zrem(k) => z - {x.jobs[k].m}
    case _ => z
  }

  /** The rest after a step; `max` is MaxAttempts, 0 for never giving up. */
  function NextSide<K, D>(z: map<K, int>, x: Side<K, D>, step: Step<K, D>, max: nat): Side<K, D>
    requires Enabled(z, x, step)
  {
    match step
    case Claim(_, _, _, due) => x.(jobs := x.jobs + NewJobs(due))
    case Fetch(k, data) => x.(jobs := x.jobs[k := Fetched(x.jobs[k].m, data)])
    case Finish(k, result) =>
      var m := x.jobs[k].m;
      (match result
       case Success => x.(jobs := x.jobs[k := Settled(m)], done := x.done + {m})
       case Dropped => x.(jobs := x.jobs[k := Settled(m)], dropped := x.dropped + {m})
       case Error => x.(jobs := x.jobs[k := Failing(m)], failures := x.failures[m := Count(x.failures, m) + 1]))
    case Bump(k) =>
      var m := x.jobs[k].m;
      var n := Count(x.attempts, m) + 1;
      var y := x.(attempts := x.attempts[m := n]);
      if max > 0 && n >= max then y.(jobs := x.jobs[k := Settled(m)], gaveUp := x.gaveUp + {m})
      else y.(jobs := x.jobs[k := Counted(m, n)])
    case Reschedule(k, _) => x.(jobs := x.jobs[k := Ended])
    case Zrem(k) => x.(jobs := x.jobs[k := Removed(x.jobs[k].m)])
    case ZremFails(k) => x.(jobs := x.jobs[k := Removed(x.jobs[k].m)])
    case Hdel(k) => x.(jobs := x.jobs[k := Ended], attempts := x.attempts - {x.jobs[k].m})
    case Crash(k) => x.(jobs := x.jobs[k := Ended])
  }

  /** The member's work came out: done, dropped as unresolvable, or given up. */
  predicate Over<K, D>(x: Side<K, D>, m: K) {
    m in x.done || m in x.dropped || m in x.gaveUp
  }

  ghost predicate JobOk<K, D>(x: Side<K, D>, job: Job<K, D>) {
    !job.Ended? ==> job.m in x.enqueued && (job.Settled? ==> Over(x, job.m))
  }

  ghost predicate JobsOk<K, D>(x: Side<K, D>) {
    forall k | 0 <= k < |x.jobs| :: JobOk(x, x.jobs[k])
  }

  /** No job is lost: what was enqueued is still queued, or its work came out. */
  ghost predicate Conserved<K, D>(z: map<K, int>, x: Side<K, D>) {
    && (forall m | m in x.enqueued :: m in z || Over(x, m))
    && z.Keys <= x.enqueued
  }

  /** Jobs of a member that failed and have not been counted yet. */
  function Uncounted<K(==), D(==)>(jobs: seq<Job<K, D>>, m: K): nat {
    if jobs == [] then 0
    else
      var last := |jobs| - 1;
      Uncounted(jobs[..last], m) + if jobs[last] == Failing(m) then 1 else 0
  }

  function One(b: bool): nat { if b then 1 else 0 }

  lemma {:induction false} UncountedUpdate<K, D>(jobs: seq<Job<K, D>>, k: nat, job: Job<K, D>, m: K)
    requires k < |jobs|
    ensures Uncounted(jobs[k := job], m) + One(jobs[k] == Failing(m)) == Uncounted(jobs, m) + One(job == Failing(m))
  {
    var last := |jobs| - 1;
    if k < last {
      UncountedUpdate(jobs[..last], k, job, m);
      assert jobs[k := job][..last] == jobs[..last][k := job];
    } else {
      assert jobs[k := job][..last] == jobs[..last];
    }
  }

  lemma {:induction false} UncountedAppend<K, D>(jobs: seq<Job<K, D>>, more: seq<Job<K, D>>, m: K)
    requires forall i | 0 <= i < |more| :: !more[i].Failing?
    ensures Uncounted(jobs + more, m) == Uncounted(jobs, m)
  {
    if more == [] {
      assert jobs + more == jobs;
    } else {
      var last := |more| - 1;
      UncountedAppend(jobs, more[..last], m);
      assert (jobs + more)[..|jobs + more| - 1] == jobs + more[..last];
    }
  }

  /** The attempts hash counts only attempts that failed, each once, and giving up takes `max` of them. */
  ghost predicate AttemptsOk<K(!new), D>(x: Side<K, D>, max: nat) {
    && (forall m :: Count(x.attempts, m) + Uncounted(x.jobs, m) <= Count(x.failures, m))
    && (forall m | m in x.gaveUp :: max > 0 && Count(x.failures, m) >= max)
  }

  ghost predicate Inv<K(!new), D>(z: map<K, int>, x: Side<K, D>, max: nat) {
    JobsOk(x) && Conserved(z, x) && AttemptsOk(x, max)
  }

  /** One step and one member. */
  lemma CountsKept<K(!new), D>(z: map<K, int>, x: Side<K, D>, step: Step<K, D>, max: nat, m: K)
    requires Enabled(z, x, step) && Count(x.attempts, m) + Uncounted(x.jobs, m) <= Count(x.failures, m)
    ensures var y := NextSide(z, x, step, max);
            Count(y.attempts, m) + Uncounted(y.jobs, m) <= Count(y.failures, m)
  {
    hide Uncounted, Lease, ZSet.IsRange;
    if step.Claim? {
      UncountedAppend(x.jobs, NewJobs(step.due), m);
    } else {
      var y := NextSide(z, x, step, max);
      UncountedUpdate(x.jobs, step.k, y.jobs[step.k], m);
      assert y.jobs == x.jobs[step.k := y.jobs[step.k]];
    }
  }

  lemma AttemptsKept<K(!new), D>(z: map<K, int>, x: Side<K, D>, step: Step<K, D>, max: nat)
    requires Enabled(z, x, step) && AttemptsOk(x, max)
    ensures AttemptsOk(NextSide(z, x, step, max), max)
  {
    hide Uncounted, Lease, ZSet.IsRange;
    var y := NextSide(z, x, step, max);
    forall m ensures Count(y.attempts, m) + Uncounted(y.jobs, m) <= Count(y.failures, m) {
      CountsKept(z, x, step, max, m);
    }
    if step.Bump? {
      var m := x.jobs[step.k].m;
      assert Count(y.attempts, m) + Uncounted(y.jobs, m) <= Count(y.failures, m);
    }
  }

  lemma JobsKept<K(!new), D>(z: map<K, int>, x: Side<K, D>, step: Step<K, D>, max: nat)
    requires Enabled(z, x, step) && JobsOk(x) && z.Keys <= x.enqueued
    ensures JobsOk(NextSide(z, x, step, max))
  {
    var y := NextSide(z, x, step, max);
    forall k | 0 <= k < |y.jobs| ensures JobOk(y, y.jobs[k]) {
      if k < |x.jobs| { assert JobOk(x, x.jobs[k]); }
    }
  }

  /** One step of any job keeps the invariant. */
  lemma StepKeeps<K(!new), D>(z: map<K, int>, x: Side<K, D>, step: Step<K, D>, max: nat)
    requires Enabled(z, x, step) && Inv(z, x, max)
    ensures Inv(NextZ(z, x, step), NextSide(z, x, step, max), max)
    ensures NextSide(z, x, step, max).enqueued == x.enqueued
  {
    JobsKept(z, x, step, max);
    AttemptsKept(z, x, step, max);
    hide AttemptsOk;
    if !step.Claim? { assert JobOk(x, x.jobs[step.k]); }
  }

  /** What a step can do to the outcomes and to what jobs have read. */
  lemma StepEffects<K, D>(z: map<K, int>, x: Side<K, D>, step: Step<K, D>, max: nat)
    requires Enabled(z, x, step)
    ensures var y := NextSide(z, x, step, max);
            && y.enqueued == x.enqueued
            && y.dropped == (if step.Finish? && step.result.Dropped? then x.dropped + {x.jobs[step.k].m} else x.dropped)
            && y.done == (if step.Finish? && step.result.Success? then x.done + {x.jobs[step.k].m} else x.done)
            && y.failures == (if step.Finish? && step.result.Error? then
                                x.failures[x.jobs[step.k].m := Count(x.failures, x.jobs[step.k].m) + 1]
                              else x.failures)
            && forall k | 0 <= k < |y.jobs| && y.jobs[k].Fetched? ::
                 || (k < |x.jobs| && y.jobs[k] == x.jobs[k])
                 || (step.Fetch? && k == step.k && y.jobs[k] == Fetched(x.jobs[k].m, step.data))
  {
    hide ZSet.IsRange, Lease;
  }

  /** The script enqueues: new members enter, none leaves. */
  lemma EnqueueKeeps<K(!new), D>(z: map<K, int>, z': map<K, int>, x: Side<K, D>, max: nat)
    requires Inv(z, x, max) && z.Keys <= z'.Keys
    ensures Inv(z', x.(enqueued := x.enqueued + z'.Keys), max)
  {
    var y := x.(enqueued := x.enqueued + z'.Keys);
    forall k | 0 <= k < |y.jobs| ensures JobOk(y, y.jobs[k]) {
      assert JobOk(x, x.jobs[k]);
    }
  }
}
