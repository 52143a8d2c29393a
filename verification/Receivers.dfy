/**
 Which workflows' webhooks can be dropped. Start-up asks for a failure URL of every publisher of the
 workflows it loads; a template that an earlier start-up stored may not have them all.
 */
module Receivers {
  import opened Types
  import opened Lifecycle
  import opened Engine
  import opened Enqueues
  import opened Workers
  import opened Conservation
  import Script
  import ZSet
  import S = Scenarios
  import W = Worker

  lemma {:induction false} WRunAppend(w: World, a: seq<Workers.Step>, b: seq<Workers.Step>)
    requires WIsRun(w, a) && WIsRun(WAfter(w, a), b)
    ensures WIsRun(w, a + b) && WAfter(w, a + b) == WAfter(WAfter(w, a), b)
    decreases |a|
  {
    hide WNext, WEnabled;
    if a == [] {
      assert a + b == b;
    } else {
      WRunAppend(WNext(w, a[0]), a[1..], b);
      assert (a + b)[1..] == a[1..] + b;
    }
  }

  lemma WOneStep(w: World, step: Workers.Step)
    requires WEnabled(w, step)
    ensures WIsRun(w, [step]) && WAfter(w, [step]) == WNext(w, step)
  {
    hide WNext, WEnabled;
    assert [step][1..] == [];
    assert WIsRun(WNext(w, step), []);
  }

  /* ---- a run in which the workers stand still ---- */

  function Cores(steps: seq<Engine.Step>): seq<Workers.Step> {
    if steps == [] then [] else [Core(steps[0])] + Cores(steps[1..])
  }

  predicate NoDrains(steps: seq<Engine.Step>) {
    steps == [] || (!steps[0].Drain? && NoDrains(steps[1..]))
  }

  /** The workers did nothing, whatever was queued for them. */
  ghost predicate Idle<K, D>(x: W.Side<K, D>, y: W.Side<K, D>) {
    y == x.(enqueued := y.enqueued)
  }

  ghost predicate CoreOnly(w: World, w': World, sys': Sys) {
    && w'.sys == sys' && Idle(w.arch, w'.arch) && Idle(w.hook, w'.hook)
    && w'.rows == w.rows && w'.deliveries == w.deliveries && w'.registry == w.registry
  }

  lemma CoreStep(w: World, step: Engine.Step)
    requires Enabled(w.sys, step) && !step.Drain?
    ensures WEnabled(w, Core(step)) && CoreOnly(w, WNext(w, Core(step)), Next(w.sys, step))
  {
    hide Next, Enabled;
  }

  lemma {:induction false} CoreRun(w: World, steps: seq<Engine.Step>)
    requires IsRun(w.sys, steps) && NoDrains(steps)
    ensures WIsRun(w, Cores(steps)) && CoreOnly(w, WAfter(w, Cores(steps)), After(w.sys, steps))
    decreases |steps|
  {
    hide Next, Enabled, WNext, WEnabled;
    if steps != [] {
      CoreStep(w, steps[0]);
      var cores := Cores(steps);
      assert cores[0] == Core(steps[0]) && cores[1..] == Cores(steps[1..]);
      CoreRun(WNext(w, Core(steps[0])), steps[1..]);
    }
  }

  lemma FailOneHasNoDrains(id: Id, wf: Workflow, i: nat, now: int)
    requires i < |wf.tasks|
    ensures NoDrains(S.FailOne(id, wf, i, now))
  {
    hide S.ReportOf, S.PublishOf, NoDrains;
    var start := [Start(id, wf, now)];
    var publish, fail := S.PublishOf(id, wf.tasks[i]), S.ReportOf(Script.Fail, false, id, wf.tasks[i]);
    ReportHasNoDrains(publish, now);
    ReportHasNoDrains(fail, now);
    StartHasNoDrains(id, wf, now);
    NoDrainsAppend(start, S.Report(publish, now));
    NoDrainsAppend(start + S.Report(publish, now), S.Report(fail, now));
  }

  lemma StartHasNoDrains(id: Id, wf: Workflow, now: int)
    ensures NoDrains([Start(id, wf, now)])
  {
    assert [Start(id, wf, now)][1..] == [];
  }

  lemma ReportHasNoDrains(req: Request, now: int)
    ensures NoDrains(S.Report(req, now))
  {
    assert S.Report(req, now)[1..] == [Transition(0, now)] && [Transition(0, now)][1..] == [];
  }

  lemma {:induction false} NoDrainsAppend(a: seq<Engine.Step>, b: seq<Engine.Step>)
    requires NoDrains(a) && NoDrains(b)
    ensures NoDrains(a + b)
  {
    if a == [] {
      assert a + b == b;
    } else {
      NoDrainsAppend(a[1..], b);
      assert (a + b)[1..] == a[1..] + b;
    }
  }

  /* ---- a run that drops a webhook ---- */

  /** One FAILED task exists, its webhook is queued, and no worker has looked. */
  ghost predicate Waiting(w: World, m: Member) {
    && WInv(w) && (forall x :: FailedIn(w.sys.db.docs, x) <==> x == m)
    && Idle(W.Fresh(), w.hook) && w.deliveries == []
  }

  lemma FailOneWaits(registry: map<string, string>, id: Id, wf: Workflow, i: nat, now: int)
    requires S.Valid(wf) && i < |wf.tasks|
    ensures var steps := Cores(S.FailOne(id, wf, i, now));
            WIsRun(WorldInit(registry), steps)
            && var w := WAfter(WorldInit(registry), steps);
               && Waiting(w, TaskMember(id, i)) && w.registry == registry
               && id in w.sys.db.docs && Specs(w.sys.db.docs[id].tasks) == wf.tasks
  {
    hide IsRun, After, WIsRun, WAfter, WInv, Inv, Cores, NoDrains, S.Valid;
    S.FailOneRuns(id, wf, i, now);
    FailOneHasNoDrains(id, wf, i, now);
    CoreRun(WorldInit(registry), S.FailOne(id, wf, i, now));
    ReachableWInv(registry, Cores(S.FailOne(id, wf, i, now)));
  }

  /** The only queued webhook is the FAILED task's. */
  lemma WaitingQueued(w: World, m: Member)
    requires Waiting(w, m)
    ensures m in w.sys.db.webhooks && w.sys.db.webhooks == map[m := w.sys.db.webhooks[m]]
  {
    hide Inv, ArchInv, AllFit, W.AttemptsOk, FailedIn;
    var z := w.sys.db.webhooks;
    assert m in w.hook.enqueued && forall x | x in z :: x in w.hook.enqueued;
  }

  /** The four steps of the webhook worker that end in a drop. */
  function DropSteps(score: int, lease: nat, m: Member): seq<Workers.Step> {
    [HookQueue(W.Claim(score, lease, 1, [(m, score)])), HookRead(0, true), HookPost(0, NoAnswer), HookQueue(W.Zrem(0))]
  }

  /** The webhook of the task is gone: dropped, and neither queued, delivered nor given up. */
  ghost predicate Lost(w: World, m: Member) {
    && FailedIn(w.sys.db.docs, m) && m in w.hook.dropped
    && m !in w.sys.db.webhooks && !DeliveredIn(w, m) && m !in w.hook.gaveUp
  }

  /** What a step of the webhook worker leaves in place. */
  ghost predicate HookMoved(w: World, w': World, s: W.Step<Member, Note>) {
    && W.Enabled(w.sys.db.webhooks, w.hook, s)
    && w'.sys.db.docs == w.sys.db.docs && w'.registry == w.registry && w'.deliveries == w.deliveries
    && w'.sys.db.webhooks == W.NextZ(w.sys.db.webhooks, w.hook, s)
    && w'.hook == W.NextSide(w.sys.db.webhooks, w.hook, s, WEBHOOK_MAX_ATTEMPTS)
  }

  lemma HookMoves(w: World, s: W.Step<Member, Note>)
    requires W.Enabled(w.sys.db.webhooks, w.hook, s)
    ensures HookMoved(w, HookNext(w, s), s)
  {
    hide W.NextZ, W.NextSide, W.Enabled, Batch, Fire, Resolve;
  }

  /** What the steps of the webhook worker change, and what they leave. */
  ghost predicate At(w: World, docs: map<Id, Doc>, registry: map<string, string>, x: W.Side<Member, Note>) {
    w.sys.db.docs == docs && w.registry == registry && w.deliveries == [] && w.hook == x
  }

  lemma OnlyDue(w: World, m: Member)
    requires Waiting(w, m)
    ensures m in w.sys.db.webhooks
    ensures ZSet.IsRange(w.sys.db.webhooks, w.sys.db.webhooks[m], 1, [(m, w.sys.db.webhooks[m])])
  {
    hide Waiting, ZSet.IsRange;
    WaitingQueued(w, m);
    ZSet.OnlyOneDue(m, w.sys.db.webhooks[m], w.sys.db.webhooks[m]);
  }

  lemma ClaimStep(w: World, m: Member, score: int, lease: nat)
    requires ZSet.IsRange(w.sys.db.webhooks, score, 1, [(m, score)]) && w.hook.jobs == [] && w.deliveries == []
    ensures var step := HookQueue(W.Claim(score, lease, 1, [(m, score)]));
            WEnabled(w, step)
            && At(WNext(w, step), w.sys.db.docs, w.registry, w.hook.(jobs := [W.Claimed(m)]))
  {
    var s: W.Step<Member, Note> := W.Claim(score, lease, 1, [(m, score)]);
    hide HookNext, ZSet.IsRange, W.NextZ;
    HookMoves(w, s);
    assert [(m, score)][0].0 == m;
    assert w.hook.jobs + W.NewJobs([(m, score)]) == [W.Claimed(m)];
  }

  lemma ReadStep(w: World, docs: map<Id, Doc>, registry: map<string, string>, x: W.Side<Member, Note>, m: Member)
    requires At(w, docs, registry, x) && x.jobs == [W.Claimed(m)]
    requires DocsInv(docs) && AllFit(docs) && FailedIn(docs, m)
    ensures WEnabled(w, HookRead(0, true))
    ensures At(WNext(w, HookRead(0, true)), docs, registry,
               x.(jobs := [W.Fetched(m, NoteOf(docs[m.id].tasks[m.index]))]))
  {
    hide HookNext, HookReadStep, DocsInv, AllFit, FailedIn;
    NoteResolves(docs, registry, m, 0, true, NoAnswer);
    HookMoves(w, HookReadStep(docs, 0, m, true));
  }

  lemma DropStep(w: World, docs: map<Id, Doc>, registry: map<string, string>, x: W.Side<Member, Note>, m: Member)
    requires DocsInv(docs) && AllFit(docs) && NoReceiver(docs, registry, m)
    requires At(w, docs, registry, x) && x.jobs == [W.Fetched(m, NoteOf(docs[m.id].tasks[m.index]))]
    ensures WEnabled(w, HookPost(0, NoAnswer))
    ensures At(WNext(w, HookPost(0, NoAnswer)), docs, registry, x.(jobs := [W.Settled(m)], dropped := x.dropped + {m}))
  {
    hide HookNext, HookPostStep, HookReadStep, DocsInv, AllFit;
    NoteResolves(docs, registry, m, 0, true, NoAnswer);
    HookMoves(w, HookPostStep(registry, 0, x.jobs[0].data, NoAnswer));
  }

  lemma ZremStep(w: World, docs: map<Id, Doc>, registry: map<string, string>, x: W.Side<Member, Note>, m: Member)
    requires At(w, docs, registry, x) && x.jobs == [W.Settled(m)]
    ensures var step := HookQueue(W.Zrem(0));
            WEnabled(w, step)
            && At(WNext(w, step), docs, registry, x.(jobs := [W.Removed(m)])) && m !in WNext(w, step).sys.db.webhooks
  {
    hide HookNext;
    HookMoves(w, W.Zrem(0));
  }

  /**
   For every valid workflow with a publisher that has no failure URL there is a run from the empty store,
   of nothing but a start, a publish, a fail report and one webhook job, after which the task is FAILED and
   its webhook is lost.
   */
  lemma UncoveredIsLost(registry: map<string, string>, id: Id, wf: Workflow, i: nat, lease: nat, now: int)
    returns (steps: seq<Workers.Step>)
    requires S.Valid(wf) && i < |wf.tasks| && UrlOf(registry, wf.tasks[i].publisher) == ""
    ensures WIsRun(WorldInit(registry), steps)
    ensures var w := WAfter(WorldInit(registry), steps);
            && Lost(w, TaskMember(id, i))
            && id in w.sys.db.docs && Specs(w.sys.db.docs[id].tasks) == wf.tasks
  {
    var m, before := TaskMember(id, i), Cores(S.FailOne(id, wf, i, now));
    FailOneWaits(registry, id, wf, i, now);
    var w := WAfter(WorldInit(registry), before);
    WaitingQueued(w, m);
    var score := w.sys.db.webhooks[m];
    hide WIsRun, WAfter, Cores, S.Valid, WNext;
    DropRuns(w, m, lease);
    WRunAppend(WorldInit(registry), before, DropSteps(score, lease, m));
    steps := before + DropSteps(score, lease, m);
  }

  lemma WaitingFacts(w: World, m: Member)
    requires Waiting(w, m)
    requires FailedIn(w.sys.db.docs, m) ==> UrlOf(w.registry, Specs(w.sys.db.docs[m.id].tasks)[m.index].publisher) == ""
    ensures DocsInv(w.sys.db.docs) && AllFit(w.sys.db.docs)
    ensures m.TaskMember? && m.id in w.sys.db.docs && m.index < |w.sys.db.docs[m.id].tasks|
    ensures FailedIn(w.sys.db.docs, m) && NoReceiver(w.sys.db.docs, w.registry, m)
    ensures w.hook.jobs == [] && w.hook.gaveUp == {} && w.deliveries == []
  {
    hide ArchInv, HookInv, DocsInv, AllFit, UrlOf;
    assert FailedIn(w.sys.db.docs, m);
    assert Specs(w.sys.db.docs[m.id].tasks)[m.index] == w.sys.db.docs[m.id].tasks[m.index].spec;
  }

  lemma DropRuns(w: World, m: Member, lease: nat)
    requires Waiting(w, m) && m in w.sys.db.webhooks
    requires FailedIn(w.sys.db.docs, m) ==> UrlOf(w.registry, Specs(w.sys.db.docs[m.id].tasks)[m.index].publisher) == ""
    ensures var steps := DropSteps(w.sys.db.webhooks[m], lease, m);
            WIsRun(w, steps) && Lost(WAfter(w, steps), m) && WAfter(w, steps).sys.db.docs == w.sys.db.docs
  {
    hide WInv, WNext, WEnabled, DocsInv, AllFit, NoReceiver, FailedIn, UrlOf, At, Waiting, ZSet.IsRange, Lost;
    var docs, registry, x, score := w.sys.db.docs, w.registry, w.hook, w.sys.db.webhooks[m];
    WaitingFacts(w, m);
    OnlyDue(w, m);
    var steps := DropSteps(score, lease, m);
    var note := NoteOf(docs[m.id].tasks[m.index]);
    ClaimStep(w, m, score, lease);
    var w1 := WNext(w, steps[0]);
    ReadStep(w1, docs, registry, x.(jobs := [W.Claimed(m)]), m);
    var w2 := WNext(w1, steps[1]);
    DropStep(w2, docs, registry, x.(jobs := [W.Fetched(m, note)]), m);
    var w3 := WNext(w2, steps[2]);
    ZremStep(w3, docs, registry, x.(jobs := [W.Settled(m)], dropped := x.dropped + {m}), m);
    FourSteps(w, steps, w1, w2, w3);
    AtIsLost(WNext(w3, steps[3]), docs, registry, x.(jobs := [W.Removed(m)], dropped := x.dropped + {m}), m);
  }

  lemma AtIsLost(w: World, docs: map<Id, Doc>, registry: map<string, string>, x: W.Side<Member, Note>, m: Member)
    requires At(w, docs, registry, x) && FailedIn(docs, m) && m in x.dropped && m !in x.gaveUp
             && m !in w.sys.db.webhooks
    ensures Lost(w, m) && w.sys.db.docs == docs
  {
    hide FailedIn;
  }

  lemma FourSteps(w: World, steps: seq<Workers.Step>, w1: World, w2: World, w3: World)
    requires |steps| == 4 && WEnabled(w, steps[0]) && w1 == WNext(w, steps[0])
    requires WEnabled(w1, steps[1]) && w2 == WNext(w1, steps[1])
    requires WEnabled(w2, steps[2]) && w3 == WNext(w2, steps[2]) && WEnabled(w3, steps[3])
    ensures WIsRun(w, steps) && WAfter(w, steps) == WNext(w3, steps[3])
  {
    hide WNext, WEnabled;
    WOneStep(w3, steps[3]);
    WOneStep(w2, steps[2]);
    WOneStep(w1, steps[1]);
    WOneStep(w, steps[0]);
    WRunAppend(w2, [steps[2]], [steps[3]]);
    WRunAppend(w1, [steps[1]], [steps[2]] + [steps[3]]);
    WRunAppend(w, [steps[0]], [steps[1]] + ([steps[2]] + [steps[3]]));
    assert steps == [steps[0]] + ([steps[1]] + ([steps[2]] + [steps[3]]));
  }

  /* ---- exactly when ---- */

  /** The member belongs to an instance of the workflow. */
  ghost predicate InstanceOf(w: World, m: Member, wf: Workflow) {
    m.TaskMember? && m.id in w.sys.db.docs && Specs(w.sys.db.docs[m.id].tasks) == wf.tasks
  }

  /** In no run is a webhook of an instance of the workflow dropped. */
  ghost predicate NeverDropped(registry: map<string, string>, wf: Workflow) {
    forall steps, m | WIsRun(WorldInit(registry), steps) && InstanceOf(WAfter(WorldInit(registry), steps), m, wf) ::
      m !in WAfter(WorldInit(registry), steps).hook.dropped
  }

  /**
   The webhooks of a workflow are never dropped, in any run, if and only if every publisher of it has a
   failure URL.
   */
  lemma NeverDroppedIffRegistered(registry: map<string, string>, wf: Workflow)
    requires S.Valid(wf)
    ensures NeverDropped(registry, wf) <==> Registered(registry, wf.tasks)
  {
    hide WIsRun, WAfter, S.Valid, UrlOf;
    if Registered(registry, wf.tasks) {
      forall steps, m | WIsRun(WorldInit(registry), steps) && InstanceOf(WAfter(WorldInit(registry), steps), m, wf)
        ensures m !in WAfter(WorldInit(registry), steps).hook.dropped
      {
        WebhookConservation(registry, steps, m);
      }
    } else {
      var i :| 0 <= i < |wf.tasks| && UrlOf(registry, wf.tasks[i].publisher) == "";
      var steps := UncoveredIsLost(registry, "", wf, i, 0, 0);
      assert InstanceOf(WAfter(WorldInit(registry), steps), TaskMember("", i), wf);
    }
  }
}
