/**
 The two queues of the whole engine on a clock: every schedule of reports, ticks and jobs is, for each
 queue, a run of module Leases, so that its guarantees and those of module Queue hold there.
 */
module Schedules {
  import opened Types
  import opened Engine
  import opened Enqueues
  import opened Workers
  import Codec
  import L = Leases
  import Q = Queue
  import ZSet
  import W = Worker

  /** A step of the engine and its workers at some time. */
  datatype TimedStep = At(at: int, step: Workers.Step)

  /** A claim leases from its own clock. */
  predicate OnTime(t: TimedStep) {
    && (t.step.ArchQueue? && t.step.aq.Claim? ==> t.step.aq.now == t.at)
    && (t.step.HookQueue? && t.step.hq.Claim? ==> t.step.hq.now == t.at)
  }

  ghost predicate TRun(w: World, clock: int, ts: seq<TimedStep>)
    decreases |ts|
  {
    ts == []
    || (clock <= ts[0].at && OnTime(ts[0]) && WEnabled(w, ts[0].step) && TRun(WNext(w, ts[0].step), ts[0].at, ts[1..]))
  }

  function TAfter(w: World, clock: int, ts: seq<TimedStep>): World
    requires TRun(w, clock, ts)
    decreases |ts|
  {
    if ts == [] then w else TAfter(WNext(w, ts[0].step), ts[0].at, ts[1..])
  }

  /** A timed run is a run. */
  lemma {:induction false} TimedRunKeeps(w: World, clock: int, ts: seq<TimedStep>)
    requires WInv(w) && TRun(w, clock, ts)
    ensures WInv(TAfter(w, clock, ts))
    decreases |ts|
  {
    hide WInv, WNext, WEnabled, OnTime;
    if ts != [] {
      WStepKeeps(w, ts[0].step);
      TimedRunKeeps(WNext(w, ts[0].step), ts[0].at, ts[1..]);
    }
  }

  /* ---- what a step is for one queue ---- */

  /** The jobs that a change of a queue adds. */
  function Added<K(!new)>(known: set<K>, z: map<K, int>): map<K, int> {
    map m | m in z && m !in known :: z[m]
  }

  function ArchAct(w: World, step: Workers.Step): L.Act<Id, Doc>
    requires WEnabled(w, step)
  {
    match step
    case Core(s) => L.Enqueue(Added(w.arch.enqueued, Next(w.sys, s).db.archive))
    case ArchQueue(s) => L.Job(s)
    case ArchRead(k, readable) => L.Job(ArchReadStep(w.sys.db.docs, k, w.arch.jobs[k].m, readable))
    case ArchInsert(k, _, acked) => L.Job(ArchInsertStep(k, w.arch.jobs[k].data, acked))
    case _ => L.Elsewhere
  }

  function HookAct(w: World, step: Workers.Step): L.Act<Member, Note>
    requires WEnabled(w, step)
  {
    match step
    case Core(s) => L.Enqueue(Added(w.hook.enqueued, Next(w.sys, s).db.webhooks))
    case HookQueue(s) => L.Job(s)
    case HookRead(k, readable) => L.Job(HookReadStep(w.sys.db.docs, k, w.hook.jobs[k].m, readable))
    case HookPost(k, answer) => L.Job(HookPostStep(w.registry, k, w.hook.jobs[k].data, answer))
    case _ => L.Elsewhere
  }

  function ArchActs(w: World, clock: int, ts: seq<TimedStep>): seq<L.Timed<Id, Doc>>
    requires TRun(w, clock, ts)
    decreases |ts|
  {
    if ts == [] then []
    else [L.Timed(ts[0].at, ArchAct(w, ts[0].step))] + ArchActs(WNext(w, ts[0].step), ts[0].at, ts[1..])
  }

  function HookActs(w: World, clock: int, ts: seq<TimedStep>): seq<L.Timed<Member, Note>>
    requires TRun(w, clock, ts)
    decreases |ts|
  {
    if ts == [] then []
    else [L.Timed(ts[0].at, HookAct(w, ts[0].step))] + HookActs(WNext(w, ts[0].step), ts[0].at, ts[1..])
  }

  /** The script adds only members that were never queued and leaves the others alone. */
  lemma AddedIsAll<K(!new)>(known: set<K>, z: map<K, int>, z': map<K, int>)
    requires z.Keys <= known && z.Keys <= z'.Keys && forall m | m in z :: z'[m] == z[m]
    requires forall m | m in z' && m in known :: m in z
    ensures z + Added(known, z') == z' && known + Added(known, z').Keys == known + z'.Keys
    ensures Added(known, z').Keys !! known
  {
  }

  lemma ArchCoreAdds(w: World, s: Engine.Step)
    requires WInv(w) && WEnabled(w, Core(s))
    ensures var known, z, z' := w.arch.enqueued, w.sys.db.archive, Next(w.sys, s).db.archive;
            && z + Added(known, z') == z' && known + Added(known, z').Keys == known + z'.Keys
            && Added(known, z').Keys !! known
  {
    hide Engine.Inv, Next, Enabled, HookInv, AllFit, W.AttemptsOk, W.JobsOk, Added, RowsOk, ArchJobOk;
    StepQueued(w.sys, s);
    StepUnmoved(w.sys, s);
    AddedIsAll(w.arch.enqueued, w.sys.db.archive, Next(w.sys, s).db.archive);
  }

  lemma HookCoreAdds(w: World, s: Engine.Step)
    requires WInv(w) && WEnabled(w, Core(s))
    ensures var known, z, z' := w.hook.enqueued, w.sys.db.webhooks, Next(w.sys, s).db.webhooks;
            && z + Added(known, z') == z' && known + Added(known, z').Keys == known + z'.Keys
            && Added(known, z').Keys !! known
  {
    hide Engine.Inv, Next, Enabled, ArchInv, AllFit, W.AttemptsOk, W.JobsOk, Added,
         DeliveryOk, HookJobOk, NoReceiver, FailedIn;
    StepQueued(w.sys, s);
    StepUnmoved(w.sys, s);
    AddedIsAll(w.hook.enqueued, w.sys.db.webhooks, Next(w.sys, s).db.webhooks);
  }

  /** The queue of the lease machine is the world's archive queue. */
  ghost predicate ArchIs(q: L.State<Id, Doc>, w: World) {
    q.z == w.sys.db.archive && q.x == w.arch
  }

  ghost predicate HookIs(q: L.State<Member, Note>, w: World) {
    q.z == w.sys.db.webhooks && q.x == w.hook
  }

  lemma ArchNextIs(q: L.State<Id, Doc>, w: World, at: int, s: W.Step<Id, Doc>)
    requires ArchIs(q, w) && W.Enabled(w.sys.db.archive, w.arch, s) && (s.Claim? ==> s.now == at)
    ensures L.Enabled(q, L.Timed(at, L.Job(s))) && ArchIs(L.Next(q, L.Timed(at, L.Job(s)), 0), ArchNext(w, s))
  {
    hide W.NextZ, W.NextSide, W.Enabled, Batch, Fire, Resolve;
  }

  lemma HookNextIs(q: L.State<Member, Note>, w: World, at: int, s: W.Step<Member, Note>)
    requires HookIs(q, w) && W.Enabled(w.sys.db.webhooks, w.hook, s) && (s.Claim? ==> s.now == at)
    ensures L.Enabled(q, L.Timed(at, L.Job(s)))
    ensures HookIs(L.Next(q, L.Timed(at, L.Job(s)), WEBHOOK_MAX_ATTEMPTS), HookNext(w, s))
  {
    hide W.NextZ, W.NextSide, W.Enabled, Batch, Fire, Resolve;
  }

  lemma ArchNextLeaves(w: World, s: W.Step<Id, Doc>)
    requires W.Enabled(w.sys.db.archive, w.arch, s)
    ensures ArchNext(w, s).sys.db.webhooks == w.sys.db.webhooks && ArchNext(w, s).hook == w.hook
  {
    hide W.NextZ, W.NextSide, W.Enabled, Batch, Fire, Resolve;
  }

  lemma HookNextLeaves(w: World, s: W.Step<Member, Note>)
    requires W.Enabled(w.sys.db.webhooks, w.hook, s)
    ensures HookNext(w, s).sys.db.archive == w.sys.db.archive && HookNext(w, s).arch == w.arch
  {
    hide W.NextZ, W.NextSide, W.Enabled, Batch, Fire, Resolve;
  }

  /** A step of one worker leaves the other's queue alone. */
  lemma ArchLeavesHook(w: World, step: Workers.Step)
    requires WEnabled(w, step) && (step.ArchQueue? || step.ArchRead? || step.ArchInsert?)
    ensures WNext(w, step).sys.db.webhooks == w.sys.db.webhooks && WNext(w, step).hook == w.hook
  {
    hide ArchNext, InsertRow;
    match step
    case ArchQueue(s) => ArchNextLeaves(w, s);
    case ArchRead(k, readable) => ArchNextLeaves(w, ArchReadStep(w.sys.db.docs, k, w.arch.jobs[k].m, readable));
    case ArchInsert(k, _, acked) => ArchNextLeaves(w, ArchInsertStep(k, w.arch.jobs[k].data, acked));
    case _ =>
  }

  lemma HookLeavesArch(w: World, step: Workers.Step)
    requires WEnabled(w, step) && (step.HookQueue? || step.HookRead? || step.HookPost?)
    ensures WNext(w, step).sys.db.archive == w.sys.db.archive && WNext(w, step).arch == w.arch
  {
    hide HookNext, UrlOf, Delivered, Codec.GoSplit, Codec.Print;
    match step
    case HookQueue(s) => HookNextLeaves(w, s);
    case HookRead(k, readable) => HookNextLeaves(w, HookReadStep(w.sys.db.docs, k, w.hook.jobs[k].m, readable));
    case HookPost(k, answer) => HookNextLeaves(w, HookPostStep(w.registry, k, w.hook.jobs[k].data, answer));
    case _ =>
  }

  lemma ArchStepIs(q: L.State<Id, Doc>, w: World, t: TimedStep)
    requires WInv(w) && WEnabled(w, t.step) && OnTime(t) && ArchIs(q, w)
    ensures var a := L.Timed(t.at, ArchAct(w, t.step));
            L.Enabled(q, a) && ArchIs(L.Next(q, a, 0), WNext(w, t.step))
  {
    hide WInv, ArchNext, HookNext, Next, InsertRow, Added, ArchReadStep, ArchInsertStep;
    match t.step
    case Core(s) => ArchCoreAdds(w, s);
    case ArchQueue(s) => ArchNextIs(q, w, t.at, s);
    case ArchRead(k, readable) => ArchReadIs(q, w, t, k, readable);
    case ArchInsert(k, committed, acked) => ArchInsertIs(q, w, t, k, committed, acked);
    case _ => HookLeavesArch(w, t.step);
  }

  lemma ArchReadIs(q: L.State<Id, Doc>, w: World, t: TimedStep, k: nat, readable: bool)
    requires WEnabled(w, t.step) && ArchIs(q, w) && t.step == ArchRead(k, readable)
    ensures var a := L.Timed(t.at, ArchAct(w, t.step));
            L.Enabled(q, a) && ArchIs(L.Next(q, a, 0), WNext(w, t.step))
  {
    hide ArchNext;
    ArchNextIs(q, w, t.at, ArchReadStep(w.sys.db.docs, k, w.arch.jobs[k].m, readable));
  }

  lemma ArchInsertIs(q: L.State<Id, Doc>, w: World, t: TimedStep, k: nat, committed: bool, acked: bool)
    requires WEnabled(w, t.step) && ArchIs(q, w) && t.step == ArchInsert(k, committed, acked)
    ensures var a := L.Timed(t.at, ArchAct(w, t.step));
            L.Enabled(q, a) && ArchIs(L.Next(q, a, 0), WNext(w, t.step))
  {
    hide ArchNext, InsertRow;
    ArchNextIs(q, w, t.at, ArchInsertStep(k, w.arch.jobs[k].data, acked));
  }

  lemma HookStepIs(q: L.State<Member, Note>, w: World, t: TimedStep)
    requires WInv(w) && WEnabled(w, t.step) && OnTime(t) && HookIs(q, w)
    ensures var a := L.Timed(t.at, HookAct(w, t.step));
            L.Enabled(q, a) && HookIs(L.Next(q, a, WEBHOOK_MAX_ATTEMPTS), WNext(w, t.step))
  {
    hide WInv, ArchNext, HookNext, Next, InsertRow, Added, HookReadStep, HookPostStep;
    match t.step
    case Core(s) => HookCoreAdds(w, s);
    case HookQueue(s) => HookNextIs(q, w, t.at, s);
    case HookRead(k, readable) => HookReadIs(q, w, t, k, readable);
    case HookPost(k, answer) => HookPostIs(q, w, t, k, answer);
    case _ => ArchLeavesHook(w, t.step);
  }

  lemma HookReadIs(q: L.State<Member, Note>, w: World, t: TimedStep, k: nat, readable: bool)
    requires WEnabled(w, t.step) && HookIs(q, w) && t.step == HookRead(k, readable)
    ensures var a := L.Timed(t.at, HookAct(w, t.step));
            L.Enabled(q, a) && HookIs(L.Next(q, a, WEBHOOK_MAX_ATTEMPTS), WNext(w, t.step))
  {
    hide HookNext;
    HookNextIs(q, w, t.at, HookReadStep(w.sys.db.docs, k, w.hook.jobs[k].m, readable));
  }

  lemma HookPostIs(q: L.State<Member, Note>, w: World, t: TimedStep, k: nat, answer: Answer)
    requires WEnabled(w, t.step) && HookIs(q, w) && t.step == HookPost(k, answer)
    ensures var a := L.Timed(t.at, HookAct(w, t.step));
            L.Enabled(q, a) && HookIs(L.Next(q, a, WEBHOOK_MAX_ATTEMPTS), WNext(w, t.step))
  {
    hide HookNext, UrlOf, Delivered;
    HookNextIs(q, w, t.at, HookPostStep(w.registry, k, w.hook.jobs[k].data, answer));
  }

  lemma {:induction false} ArchRun(q: L.State<Id, Doc>, w: World, clock: int, ts: seq<TimedStep>)
    requires WInv(w) && TRun(w, clock, ts) && ArchIs(q, w)
    ensures L.Run(q, clock, ArchActs(w, clock, ts), 0)
    ensures ArchIs(L.After(q, clock, ArchActs(w, clock, ts), 0), TAfter(w, clock, ts))
    decreases |ts|
  {
    hide WInv, WNext, WEnabled, OnTime, ArchIs, ArchAct, L.Next, L.Enabled;
    if ts != [] {
      var w1, a := WNext(w, ts[0].step), L.Timed(ts[0].at, ArchAct(w, ts[0].step));
      WStepKeeps(w, ts[0].step);
      ArchStepIs(q, w, ts[0]);
      ArchRun(L.Next(q, a, 0), w1, ts[0].at, ts[1..]);
      assert ArchActs(w, clock, ts)[1..] == ArchActs(w1, ts[0].at, ts[1..]);
    }
  }

  lemma {:induction false} HookRun(q: L.State<Member, Note>, w: World, clock: int, ts: seq<TimedStep>)
    requires WInv(w) && TRun(w, clock, ts) && HookIs(q, w)
    ensures L.Run(q, clock, HookActs(w, clock, ts), WEBHOOK_MAX_ATTEMPTS)
    ensures HookIs(L.After(q, clock, HookActs(w, clock, ts), WEBHOOK_MAX_ATTEMPTS), TAfter(w, clock, ts))
    decreases |ts|
  {
    hide WInv, WNext, WEnabled, OnTime, HookIs, HookAct, L.Next, L.Enabled;
    if ts != [] {
      var w1, a := WNext(w, ts[0].step), L.Timed(ts[0].at, HookAct(w, ts[0].step));
      WStepKeeps(w, ts[0].step);
      HookStepIs(q, w, ts[0]);
      HookRun(L.Next(q, a, WEBHOOK_MAX_ATTEMPTS), w1, ts[0].at, ts[1..]);
      assert HookActs(w, clock, ts)[1..] == HookActs(w1, ts[0].at, ts[1..]);
    }
  }

  /**
   Every schedule of the whole engine is a run of archive_pending in the lease machine, with its guarantees:
   an instance that no late command touches has one owner at a time and, once acknowledged, stays out of the
   queue; and an acknowledged instance comes back exactly as Leases.RequeuedIff says.
   */
  lemma ArchiveIsLeased(registry: map<string, string>, clock: int, ts: seq<TimedStep>)
    requires TRun(WorldInit(registry), clock, ts)
    ensures var acts := ArchActs(WorldInit(registry), clock, ts);
            && L.Run(L.Fresh(), clock, acts, 0)
            && ArchIs(L.After(L.Fresh(), clock, acts, 0), TAfter(WorldInit(registry), clock, ts))
            && L.Guaranteed(clock, acts, 0)
  {
    InitInv(registry);
    assert ArchIs(L.Fresh(), WorldInit(registry));
    hide TRun, TAfter, WInv, L.Guaranteed, L.Run, L.After, ArchIs;
    ArchRun(L.Fresh(), WorldInit(registry), clock, ts);
    L.AllGuaranteed(clock, ArchActs(WorldInit(registry), clock, ts), 0);
  }

  /** The same for webhook_pending. */
  lemma WebhooksAreLeased(registry: map<string, string>, clock: int, ts: seq<TimedStep>)
    requires TRun(WorldInit(registry), clock, ts)
    ensures var acts := HookActs(WorldInit(registry), clock, ts);
            && L.Run(L.Fresh(), clock, acts, WEBHOOK_MAX_ATTEMPTS)
            && HookIs(L.After(L.Fresh(), clock, acts, WEBHOOK_MAX_ATTEMPTS), TAfter(WorldInit(registry), clock, ts))
            && L.Guaranteed(clock, acts, WEBHOOK_MAX_ATTEMPTS)
  {
    InitInv(registry);
    assert HookIs(L.Fresh(), WorldInit(registry));
    hide TRun, TAfter, WInv, L.Guaranteed, L.Run, L.After, HookIs;
    HookRun(L.Fresh(), WorldInit(registry), clock, ts);
    L.AllGuaranteed(clock, HookActs(WorldInit(registry), clock, ts), WEBHOOK_MAX_ATTEMPTS);
  }

  /* ---- the queues as lists of operations ---- */

  /** A queue of the world as a state of the lease machine; lease ends play no part here. */
  function ArchState(w: World): L.State<Id, Doc> {
    L.State(w.sys.db.archive, w.arch, [], {})
  }

  function HookState(w: World): L.State<Member, Note> {
    L.State(w.sys.db.webhooks, w.hook, [], {})
  }

  ghost function ArchOps(w: World, clock: int, ts: seq<TimedStep>): seq<Q.Op<Id>>
    requires WInv(w) && TRun(w, clock, ts)
  {
    ArchRun(ArchState(w), w, clock, ts);
    L.Ops(ArchState(w), clock, ArchActs(w, clock, ts), 0)
  }

  ghost function HookOps(w: World, clock: int, ts: seq<TimedStep>): seq<Q.Op<Member>>
    requires WInv(w) && TRun(w, clock, ts)
  {
    HookRun(HookState(w), w, clock, ts);
    L.Ops(HookState(w), clock, HookActs(w, clock, ts), WEBHOOK_MAX_ATTEMPTS)
  }

  /** Every run changes each queue as a list of claims, puts and removals. */
  lemma QueuesAreOps(w: World, clock: int, ts: seq<TimedStep>)
    requires WInv(w) && TRun(w, clock, ts)
    ensures var ops := ArchOps(w, clock, ts);
            Q.OpsRun(w.sys.db.archive, ops) && L.OpsAfter(w.sys.db.archive, ops) == TAfter(w, clock, ts).sys.db.archive
    ensures var ops := HookOps(w, clock, ts);
            Q.OpsRun(w.sys.db.webhooks, ops)
            && L.OpsAfter(w.sys.db.webhooks, ops) == TAfter(w, clock, ts).sys.db.webhooks
  {
    hide WInv, TRun, TAfter, ArchActs, HookActs, L.Run, L.After;
    ArchRun(ArchState(w), w, clock, ts);
    HookRun(HookState(w), w, clock, ts);
    L.RunIsOps(ArchState(w), clock, ArchActs(w, clock, ts), 0);
    L.RunIsOps(HookState(w), clock, HookActs(w, clock, ts), WEBHOOK_MAX_ATTEMPTS);
  }

  /** Once the clock is past its time, a job of k members at or before it is claimed within k/limit + 1 claims. */
  ghost predicate ClaimedInTime<K(!new)>(z: map<K, int>, ops: seq<Q.Op<K>>, m: K, limit: nat) {
    m in z && limit > 0 && Q.AllPast(ops, m, z[m]) && Q.AllLimit(ops, limit)
    && Q.Claims(ops) >= Q.ClaimsNeeded(|Q.Ahead(z, m)|, limit)
    ==> Q.ClaimedBy(ops, m)
  }

  /** The progress guarantee of module Queue, for both queues, from every reachable state and in every schedule. */
  lemma JobsAreClaimedInTime(registry: map<string, string>, clock: int, before: seq<TimedStep>, now: int,
                             ts: seq<TimedStep>, id: Id, m: Member, limit: nat)
    requires TRun(WorldInit(registry), clock, before)
    requires TRun(TAfter(WorldInit(registry), clock, before), now, ts)
    ensures var w := TAfter(WorldInit(registry), clock, before);
            && WInv(w) && ClaimedInTime(w.sys.db.archive, ArchOps(w, now, ts), id, limit)
            && ClaimedInTime(w.sys.db.webhooks, HookOps(w, now, ts), m, limit)
  {
    hide WInv, TRun, TAfter, ArchOps, HookOps, Q.OpsRun, Q.AllPast, Q.AllLimit,
         Q.Claims, Q.ClaimsNeeded, Q.Ahead, Q.ClaimedBy;
    InitInv(registry);
    TimedRunKeeps(WorldInit(registry), clock, before);
    var w := TAfter(WorldInit(registry), clock, before);
    QueuesAreOps(w, now, ts);
    ClaimsSoon(w.sys.db.archive, ArchOps(w, now, ts), id, limit);
    ClaimsSoon(w.sys.db.webhooks, HookOps(w, now, ts), m, limit);
  }

  lemma ClaimsSoon<K(!new)>(z: map<K, int>, ops: seq<Q.Op<K>>, m: K, limit: nat)
    requires Q.OpsRun(z, ops)
    ensures ClaimedInTime(z, ops, m, limit)
  {
    hide Q.OpsRun, Q.AllPast, Q.AllLimit, Q.Claims, Q.ClaimsNeeded, Q.Ahead, Q.ClaimedBy;
    if m in z && limit > 0 && Q.AllPast(ops, m, z[m]) && Q.AllLimit(ops, limit)
       && Q.Claims(ops) >= Q.ClaimsNeeded(|Q.Ahead(z, m)|, limit) {
      Q.ClaimedInTime(z, ops, m, limit);
    }
  }

  /** Until its lease ends, what the first claim returned is not claimed again, unless acked, moved or re-queued. */
  ghost predicate ClaimsDisjoint<K(!new)>(ops: seq<Q.Op<K>>) {
    ops != [] && ops[0].Claim? ==>
      var held := ZSet.KeySet(ops[0].due);
      (forall i | 0 <= i < |ops| - 1 :: Q.Respects(ops[1..][i], held, ops[0].now + ops[0].lease)) ==>
        Q.NoneClaims(ops[1..], held)
  }

  /** The exclusion guarantee of module Queue, for both queues, from every reachable state and in every schedule. */
  lemma ClaimsExclude(registry: map<string, string>, clock: int, before: seq<TimedStep>, now: int, ts: seq<TimedStep>)
    requires TRun(WorldInit(registry), clock, before)
    requires TRun(TAfter(WorldInit(registry), clock, before), now, ts)
    ensures var w := TAfter(WorldInit(registry), clock, before);
            WInv(w) && ClaimsDisjoint(ArchOps(w, now, ts)) && ClaimsDisjoint(HookOps(w, now, ts))
  {
    hide WInv, TRun, TAfter, ArchOps, HookOps, Q.OpsRun, ClaimsDisjoint;
    InitInv(registry);
    TimedRunKeeps(WorldInit(registry), clock, before);
    var w := TAfter(WorldInit(registry), clock, before);
    QueuesAreOps(w, now, ts);
    RunExcludes(w.sys.db.archive, ArchOps(w, now, ts));
    RunExcludes(w.sys.db.webhooks, HookOps(w, now, ts));
  }

  lemma RunExcludes<K(!new)>(z: map<K, int>, ops: seq<Q.Op<K>>)
    requires Q.OpsRun(z, ops)
    ensures ClaimsDisjoint(ops)
  {
    hide Q.OpNext, Q.OpEnabled, Q.NoneClaims, Q.Respects, ZSet.KeySet;
    if ops != [] && ops[0].Claim? {
      var held := ZSet.KeySet(ops[0].due);
      if forall i | 0 <= i < |ops| - 1 :: Q.Respects(ops[1..][i], held, ops[0].now + ops[0].lease) {
        Q.ClaimsAreDisjoint(z, ops[0], ops[1..]);
      }
    }
  }
}
