/** The durable queues in place: claim, done, bump, reschedule, and what a worker does with a job. */
module Queues {
  import Q = Queue
  import ZSet
  import W = Worker

  lemma LeaseStep<K(!new)>(z: map<K, int>, due: seq<(K, int)>, until: int, n: nat)
    requires n < |due| && due[n].0 in z
    ensures Q.Lease(z, due[..n + 1], until) == Q.Lease(z, due[..n], until)[due[n].0 := until]
  {
    hide Q.Lease;
    var before, after := due[..n], due[..n + 1];
    forall m ensures ZSet.HasKey(after, m) <==> ZSet.HasKey(before, m) || m == due[n].0 {
      if ZSet.HasKey(before, m) {
        var i :| 0 <= i < |before| && before[i].0 == m;
        assert after[i].0 == m;
      }
      if ZSet.HasKey(after, m) {
        var i :| 0 <= i < |after| && after[i].0 == m;
        if i < n { assert before[i].0 == m; }
      }
      assert after[n].0 == due[n].0;
    }
  }

  lemma RangeMembers<K(!new)>(z: map<K, int>, now: int, n: nat, due: seq<(K, int)>)
    requires ZSet.IsRange(z, now, n, due)
    ensures forall i | 0 <= i < |due| :: due[i].0 in z
  {
  }

  lemma LeaseNone<K(!new)>(z: map<K, int>, until: int)
    ensures Q.Lease(z, [], until) == z
  {
    hide Q.Lease;
  }

  /** Which of the commands that follow a job's work fail. */
  datatype Faults = Faults(bump: bool, reschedule: bool, zrem: bool, hdel: bool)

  class ZQueue<K(==,!new), D> {
    var pending: map<K, int>
    var attempts: map<K, nat>
    const maxAttempts: nat
    /** All jobs ever claimed and how they came out, as the job machine of module Worker sees them. */
    ghost var side: W.Side<K, D>

    ghost predicate Valid()
      reads this
    {
      side.attempts == attempts && W.Inv(pending, side, maxAttempts)
    }

    constructor (max: nat)
      ensures Valid() && pending == map[] && attempts == map[] && maxAttempts == max && side == W.Fresh()
    {
      pending, attempts, maxAttempts, side := map[], map[], max, W.Fresh();
    }

    /** The script queues a job. */
    method Enqueue(m: K, now: int)
      requires Valid()
      modifies this
      ensures Valid() && attempts == old(attempts) && pending == old(pending)[m := now]
      ensures side.jobs == old(side.jobs) && m in side.enqueued
    {
      W.EnqueueKeeps(pending, pending[m := now], side, maxAttempts);
      hide W.Inv;
      pending := pending[m := now];
      side := side.(enqueued := side.enqueued + pending.Keys);
    }

    /** claimScript: every due member it returns is leased; nothing is added or lost. */
    method Claim(now: int, lease: nat, n: nat) returns (due: seq<(K, int)>)
      requires Valid()
      modifies this
      ensures Valid() && ZSet.IsRange(old(pending), now, n, due)
      ensures pending == Q.Lease(old(pending), due, now + lease) && attempts == old(attempts)
      ensures side == W.NextSide(old(pending), old(side), W.Claim(now, lease, n, due), maxAttempts)
    {
      hide W.Inv, Q.Lease, ZSet.IsRange;
      due := ZSet.RangeByScore(pending, now, n);
      ghost var z := pending;
      RangeMembers(z, now, n, due);
      LeaseAll(due, now + lease);
      Follow(W.Claim(now, lease, n, due), z);
    }

    /** claimScript's loop of ZADDs. */
    method LeaseAll(due: seq<(K, int)>, until: int)
      requires forall i | 0 <= i < |due| :: due[i].0 in pending
      modifies this`pending
      ensures pending == Q.Lease(old(pending), due, until)
    {
      hide Q.Lease;
      LeaseNone(pending, until);
      for i := 0 to |due|
        invariant pending == Q.Lease(old(pending), due[..i], until)
      {
        LeaseStep(old(pending), due, until, i);
        pending := pending[due[i].0 := until];
      }
      assert due[..|due|] == due;
    }

    /** One step of the job machine; the fields follow it. */
    ghost method Follow(step: W.Step<K, D>, z: map<K, int>)
      requires W.Inv(z, side, maxAttempts) && W.Enabled(z, side, step)
      requires pending == W.NextZ(z, side, step)
      modifies this`side
      ensures W.Inv(pending, side, maxAttempts)
      ensures side == W.NextSide(z, old(side), step, maxAttempts)
    {
      W.StepKeeps(z, side, step, maxAttempts);
      side := W.NextSide(z, side, step, maxAttempts);
    }

    /** done: two separate commands, ZREM and then HDEL, either of which may fail. */
    method Done(member: K, faults: Faults, ghost k: nat)
      requires Valid() && k < |side.jobs| && side.jobs[k] == W.Settled(member)
      modifies this
      ensures Valid() && side.jobs == old(side.jobs)[k := W.Ended]
      ensures pending == if faults.zrem then old(pending) else old(pending) - {member}
      ensures attempts == if faults.hdel then old(attempts) else old(attempts) - {member}
    {
      hide W.Inv;
      ghost var z := pending;
      if faults.zrem {
        Follow(W.ZremFails(k), z);
      } else {
        pending := pending - {member};
        Follow(W.Zrem(k), z);
      }
      if faults.hdel {
        Follow(W.Crash(k), pending);
      } else {
        attempts := attempts - {member};
        Follow(W.Hdel(k), pending);
      }
    }

    /** bump: count one more failed attempt. */
    method Bump(member: K, ghost k: nat) returns (n: nat)
      requires Valid() && k < |side.jobs| && side.jobs[k] == W.Failing(member)
      modifies this
      ensures Valid() && pending == old(pending) && attempts == old(attempts)[member := n]
      ensures n == W.Count(old(attempts), member) + 1
      ensures side.jobs == old(side.jobs)[k := if maxAttempts > 0 && n >= maxAttempts then W.Settled(member)
                                          else W.Counted(member, n)]
    {
      hide W.Inv;
      n := (if member in attempts then attempts[member] else 0) + 1;
      attempts := attempts[member := n];
      Follow(W.Bump(k), pending);
    }

    /** reschedule: a plain ZADD. */
    method Reschedule(member: K, when: int, ghost k: nat)
      requires Valid() && k < |side.jobs| && side.jobs[k].Counted? && side.jobs[k].m == member
      modifies this
      ensures Valid() && pending == old(pending)[member := when] && attempts == old(attempts)
      ensures side.jobs == old(side.jobs)[k := W.Ended]
    {
      hide W.Inv;
      ghost var z := pending;
      pending := pending[member := when];
      Follow(W.Reschedule(k, when), z);
    }

    /**
     Worker.run after Work returned, undisturbed by other jobs: a nil result or errDropJob ends the
     job; any other error counts an attempt, and either gives up or puts the job back after the backoff. A
     command that fails changes nothing, and the job then waits for its lease to end.
     */
    method RunJob(member: K, result: W.WorkResult, faults: Faults, now: int, base: nat, factor: real, cap: nat,
                  ghost k: nat)
      requires Valid() && factor >= 0.0
      requires k < |side.jobs| && (side.jobs[k].Claimed? || side.jobs[k].Fetched?) && side.jobs[k].m == member
      modifies this
      ensures Valid() && side.jobs == old(side.jobs)[k := W.Ended]
      ensures var n := W.Count(old(attempts), member) + 1;
              var counted := old(attempts)[member := n];
              if !result.Error? then Acked(old(pending), pending, old(attempts), attempts, member, faults)
              else if faults.bump then pending == old(pending) && attempts == old(attempts)
              else if maxAttempts > 0 && n >= maxAttempts then
                Acked(old(pending), pending, counted, attempts, member, faults)
              else
                && attempts == counted
                && pending == if faults.reschedule then old(pending)
                              else old(pending)[member := now + Q.Delay(base, factor, cap, n)]
    {
      hide W.Inv, Q.Grown, Q.Delay;
      Follow(W.Finish(k, result), pending);
      if result.Error? {
        if faults.bump {
          Follow(W.Crash(k), pending);
          return;
        }
        var n := Bump(member, k);
        if maxAttempts > 0 && n >= maxAttempts {
          Done(member, faults, k);
          return;
        }
        var delay := Q.ExpBackoff(base, factor, cap, n);
        if faults.reschedule {
          Follow(W.Crash(k), pending);
        } else {
          Reschedule(member, now + delay, k);
        }
        return;
      }
      Done(member, faults, k);
    }

    /** A job of the archive worker: retried after 1 s, doubling, at most 30 s, for ever. */
    method RunArchiveJob(member: K, result: W.WorkResult, faults: Faults, now: int, ghost k: nat)
      requires Valid() && maxAttempts == 0
      requires k < |side.jobs| && (side.jobs[k].Claimed? || side.jobs[k].Fetched?) && side.jobs[k].m == member
      modifies this
      ensures Valid() && side.jobs == old(side.jobs)[k := W.Ended]
      ensures !result.Error? ==> Acked(old(pending), pending, old(attempts), attempts, member, faults)
      ensures result.Error? && !faults.bump && !faults.reschedule ==>
                var n := W.Count(old(attempts), member) + 1;
                && attempts == old(attempts)[member := n]
                && pending == old(pending)[member := now + Q.Min(1000 * Q.Power(2, n - 1), 30000)]
    {
      RunJob(member, result, faults, now, 1000, 2.0, 30000, k);
      Q.DelayIsPower(1000, 2.0, 30000, W.Count(old(attempts), member) + 1);
    }

    /** A job of the webhook worker: retried after 2 s, tripling, at most 5 min; the 8th failed attempt is the last. */
    method RunWebhookJob(member: K, result: W.WorkResult, faults: Faults, now: int, ghost k: nat)
      requires Valid() && maxAttempts == 8
      requires k < |side.jobs| && (side.jobs[k].Claimed? || side.jobs[k].Fetched?) && side.jobs[k].m == member
      modifies this
      ensures Valid() && side.jobs == old(side.jobs)[k := W.Ended]
      ensures !result.Error? ==> Acked(old(pending), pending, old(attempts), attempts, member, faults)
      ensures result.Error? && !faults.bump ==>
                var n := W.Count(old(attempts), member) + 1;
                var counted := old(attempts)[member := n];
                if n >= 8 then Acked(old(pending), pending, counted, attempts, member, faults)
                else
                  && attempts == counted
                  && (!faults.reschedule ==>
                        pending == old(pending)[member := now + Q.Min(2000 * Q.Power(3, n - 1), 300000)])
    {
      RunJob(member, result, faults, now, 2000, 3.0, 300000, k);
      Q.DelayIsPower(2000, 3.0, 300000, W.Count(old(attempts), member) + 1);
    }
  }

  /** The ack removes what the commands that did not fail remove. */
  predicate Acked<K>(z: map<K, int>, z': map<K, int>, attempts: map<K, nat>, attempts': map<K, nat>,
                     m: K, faults: Faults) {
    && z' == (if faults.zrem then z else z - {m})
    && attempts' == (if faults.hdel then attempts else attempts - {m})
  }
}
