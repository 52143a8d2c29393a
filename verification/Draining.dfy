/** Overdue deadlines drain: at least a batch per tick, and nothing is added behind the clock. */
module Draining {
  import opened Types
  import opened Script
  import opened Lifecycle
  import opened Engine
  import opened Reaper
  import ZSet

  /** The deadlines at or before T. */
  function Overdue(z: map<Member, int>, T: int): set<Member> {
    set m | m in z && z[m] <= T
  }

  /** Subtraction that stops at 0. */
  function Less(n: nat, k: nat): nat {
    if n <= k then 0 else n - k
  }

  /** The step runs the script, if at all, at clock T or later. */
  predicate NotBefore(step: Step, T: int) {
    match step
    case Transition(_, at) => at >= T
    case Tick(at, _, _) => at >= T
    case _ => true
  }

  /** From `z` to `z'` the deadlines at or before T only went away, at least `n` of them or all. */
  ghost predicate Drained(z: map<Member, int>, z': map<Member, int>, T: int, n: nat) {
    Overdue(z', T) <= Overdue(z, T) && |Overdue(z', T)| <= Less(|Overdue(z, T)|, n)
  }

  lemma DrainedTwice(z: map<Member, int>, z1: map<Member, int>, z2: map<Member, int>, T: int, n: nat, k: nat)
    requires Drained(z, z1, T, n) && Drained(z1, z2, T, k)
    ensures Drained(z, z2, T, n + k)
  {
    hide Overdue;
  }

  lemma DrainedNone(z: map<Member, int>, z': map<Member, int>, T: int)
    requires Overdue(z', T) <= Overdue(z, T)
    ensures Drained(z, z', T, 0)
  {
    hide Overdue;
    Smaller(Overdue(z', T), Overdue(z, T));
  }

  /** A tick at or after T removes at least min(limit, remaining) of the deadlines at or before T. */
  lemma TickDrains(s: Sys, now: int, limit: nat, due: seq<(Member, int)>, T: int)
    requires Inv(s) && ZSet.IsRange(s.db.deadlines, now, limit, due) && T <= now
    ensures Drained(s.db.deadlines, Batch(s, now, due).db.deadlines, T, limit)
  {
    DueExamined(s, now, limit, due);
    BatchAgrees(s, now, due);
    hide Inv, Batch, Loop, AllExamined, Drained;
    RangeDrains(s.db.deadlines, Batch(s, now, due).db.deadlines, now, limit, due, T);
  }

  /** Removing what a range query returned drains the earliest members first. */
  lemma RangeDrains(z: map<Member, int>, z': map<Member, int>, now: int, limit: nat, due: seq<(Member, int)>, T: int)
    requires ZSet.IsRange(z, now, limit, due) && T <= now
    requires forall x | x in z' :: x in z && z'[x] == z[x] && !ZSet.HasKey(due, x)
    ensures Drained(z, z', T, limit)
  {
    var left, before := Overdue(z', T), Overdue(z, T);
    assert left <= before;
    if m :| m in left {
      assert !ZSet.HasKey(due, m);
      assert |due| == limit;
      var taken := ZSet.KeySet(due);
      ZSet.KeySetSize(due);
      forall x | x in taken ensures x in before && x !in left {
        var k :| 0 <= k < |due| && due[k].0 == x;
        assert due[k].1 <= z[m];
      }
      ZSet.PartSizes(taken, left, before);
    } else {
      assert left == {};
    }
  }

  /** A report at or after T sets no deadline at or before T. */
  lemma ReportAddsNoneBehind(s: Sys, id: Id, c: Call, T: int)
    requires Inv(s) && id in s.db.docs && WellTargeted(s.db.docs[id], c) && c.now >= T
    ensures Overdue(Fire(s, id, c).db.deadlines, T) <= Overdue(s.db.deadlines, T)
  {
    var d := s.db.docs[id];
    var o := Eval(d, c);
    var s' := Fire(s, id, c);
    EvalGood(id, d, c);
    FireKeeps(s, id, c);
    assert DocInv(d);
    hide Eval, DocsInv, PendingInv, LogInv;
    forall m | m in Overdue(s'.db.deadlines, T) ensures m in Overdue(s.db.deadlines, T) {
      assert Armed(s'.db.docs, m);
      if m.id == id && m.index in o.armed {
        assert |Specs(o.doc.tasks)| == |Specs(d.tasks)|;
        assert Specs(d.tasks)[m.index].timeout > 0;
        assert o.armed[m.index] > T;
      }
    }
  }

  lemma TransitionAddsNoneBehind(s: Sys, ticket: nat, now: int, T: int)
    requires Inv(s) && ticket in s.pending && now >= T
    ensures Overdue(Next(s, Transition(ticket, now)).db.deadlines, T) <= Overdue(s.db.deadlines, T)
  {
    var p := s.pending[ticket];
    ForgetKeeps(s, ticket);
    PendingTargeted(s, ticket, now);
    ScriptSteps(s, Transition(ticket, now));
    hide Inv, Overdue, Fire, Next, WellTargeted;
    ReportAddsNoneBehind(s.(pending := s.pending - {ticket}), p.req.id, CallOf(p.req, p.idxs, now), T);
  }

  function Ticks(steps: seq<Step>): nat {
    if steps == [] then 0 else Ticks(steps[1..]) + if steps[0].Tick? then 1 else 0
  }

  /** What a step may examine. */
  function Examines(step: Step, limit: nat): nat {
    if step.Tick? then limit else 0
  }

  lemma StepDrains(s: Sys, step: Step, T: int, limit: nat)
    requires Inv(s) && Enabled(s, step) && NotBefore(step, T) && (step.Tick? ==> step.limit == limit)
    ensures Drained(s.db.deadlines, Next(s, step).db.deadlines, T, Examines(step, limit))
  {
    ScriptSteps(s, step);
    hide Inv, Overdue, Batch, Next, Drained;
    match step {
      case Tick(now, l, due) => TickDrains(s, now, l, due, T);
      case Transition(k, now) =>
        TransitionAddsNoneBehind(s, k, now, T);
        DrainedNone(s.db.deadlines, Next(s, step).db.deadlines, T);
      case _ => DrainedNone(s.db.deadlines, Next(s, step).db.deadlines, T);
    }
  }

  lemma Smaller<T>(a: set<T>, b: set<T>)
    requires a <= b
    ensures |a| <= |b|
  {
    assert b == a + (b - a);
  }

  /** The steps of a drain: none behind T, and every tick with the same limit. */
  predicate Admissible(more: seq<Step>, T: int, limit: nat) {
    more == [] || (NotBefore(more[0], T) && (more[0].Tick? ==> more[0].limit == limit)
                   && Admissible(more[1..], T, limit))
  }

  /** What the ticks of a run may examine in total. */
  function Capacity(more: seq<Step>, limit: nat): nat {
    if more == [] then 0 else Examines(more[0], limit) + Capacity(more[1..], limit)
  }

  lemma {:induction false} CapacityOfTicks(more: seq<Step>, limit: nat)
    ensures Capacity(more, limit) == limit * Ticks(more)
  {
    if more != [] {
      CapacityOfTicks(more[1..], limit);
      assert limit * (Ticks(more[1..]) + 1) == limit * Ticks(more[1..]) + limit;
    }
  }

  lemma {:induction false} RunDrains(s: Sys, more: seq<Step>, T: int, limit: nat)
    requires Inv(s) && IsRun(s, more) && Admissible(more, T, limit)
    ensures Drained(s.db.deadlines, After(s, more).db.deadlines, T, Capacity(more, limit))
    decreases |more|
  {
    hide Inv, Drained, Overdue, Next, Enabled, NotBefore, Examines, DocsLater;
    if more == [] {
      DrainedNone(s.db.deadlines, s.db.deadlines, T);
    } else {
      var rest := more[1..];
      var s1 := Next(s, more[0]);
      StepKeeps(s, more[0]);
      StepDrains(s, more[0], T, limit);
      RunDrains(s1, rest, T, limit);
      DrainedTwice(s.db.deadlines, s1.db.deadlines, After(s1, rest).db.deadlines, T,
                   Examines(more[0], limit), Capacity(rest, limit));
    }
  }

  /** n / limit, rounded up. */
  function Ceiling(n: nat, limit: nat): nat
    requires limit > 0
  {
    (n + limit - 1) / limit
  }

  lemma CeilingCovers(n: nat, limit: nat, ticks: nat)
    requires limit > 0 && ticks >= Ceiling(n, limit)
    ensures limit * ticks >= n
  {
    var q := Ceiling(n, limit);
    assert limit * q + (n + limit - 1) % limit == n + limit - 1;
    assert limit * ticks == limit * q + limit * (ticks - q);
  }

  lemma EnoughCapacity(more: seq<Step>, n: nat, limit: nat)
    requires limit > 0
    ensures Ticks(more) >= Ceiling(n, limit) ==> Capacity(more, limit) >= n
  {
    CapacityOfTicks(more, limit);
    hide Ceiling, Capacity, Ticks;
    if Ticks(more) >= Ceiling(n, limit) { CeilingCovers(n, limit, Ticks(more)); }
  }

  lemma DrainedAll(z: map<Member, int>, z': map<Member, int>, T: int, n: nat)
    requires Drained(z, z', T, n) && n >= |Overdue(z, T)|
    ensures Overdue(z', T) == {}
  {
  }

  /**
   Draining: from any reachable state, under any interleaving of steps at clock T or later, the
   deadlines at or before T never grow in number, and the ticks remove as many of them as
   they may examine, or all; so N of them are gone after ceil(N / limit) ticks.
   */
  lemma OverdueDrains(steps: seq<Step>, more: seq<Step>, T: int, limit: nat)
    requires IsRun(INIT, steps) && IsRun(After(INIT, steps), more) && limit > 0 && Admissible(more, T, limit)
    ensures var z := After(INIT, steps).db.deadlines;
            var z' := After(After(INIT, steps), more).db.deadlines;
            && Drained(z, z', T, Capacity(more, limit))
            && (Ticks(more) >= Ceiling(|Overdue(z, T)|, limit) ==> Overdue(z', T) == {})
  {
    ReachableInv(steps);
    hide After, IsRun, Inv, Overdue, Ticks, Admissible, Capacity, Drained, Ceiling;
    var s := After(INIT, steps);
    RunDrains(s, more, T, limit);
    EnoughCapacity(more, |Overdue(s.db.deadlines, T)|, limit);
    if Capacity(more, limit) >= |Overdue(s.db.deadlines, T)| {
      DrainedAll(s.db.deadlines, After(s, more).db.deadlines, T, Capacity(more, limit));
    }
  }
}
