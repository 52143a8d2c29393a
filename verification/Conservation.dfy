/** What the durable queues guarantee, with any number of concurrent, crashing and late jobs. */
module Conservation {
  import opened Types
  import opened Lifecycle
  import opened Engine
  import opened Enqueues
  import opened Workers
  import W = Worker

  lemma ReachableWInv(registry: map<string, string>, steps: seq<Workers.Step>)
    requires WIsRun(WorldInit(registry), steps)
    ensures WInv(WAfter(WorldInit(registry), steps))
  {
    hide WInv;
    InitInv(registry);
    WRunKeeps(WorldInit(registry), steps);
  }

  /**
   Archive conservation. Every terminal instance is in archive_pending or has a row; no id has two
   rows; every row holds the instance's current, terminal document; and archive_pending names
   terminal instances only.
   */
  lemma ArchiveConservation(registry: map<string, string>, steps: seq<Workers.Step>)
    requires WIsRun(WorldInit(registry), steps)
    ensures var w := WAfter(WorldInit(registry), steps);
            var docs := w.sys.db.docs;
            && (forall id | id in docs && docs[id].state != InstPending :: id in w.sys.db.archive || HasRow(w.rows, id))
            && (forall i, j | 0 <= i < |w.rows| && 0 <= j < |w.rows| && w.rows[i].id == w.rows[j].id :: i == j)
            && (forall i | 0 <= i < |w.rows| ::
                  w.rows[i].id in docs && w.rows[i].doc == docs[w.rows[i].id] && w.rows[i].doc.state != InstPending)
            && (forall id | id in w.sys.db.archive :: id in docs && docs[id].state != InstPending)
  {
    ReachableWInv(registry, steps);
    hide WAfter, WIsRun;
    ArchivesConserved(WAfter(WorldInit(registry), steps));
  }

  lemma ArchivesConserved(w: World)
    requires WInv(w)
    ensures var docs := w.sys.db.docs;
            && (forall id | id in docs && docs[id].state != InstPending :: id in w.sys.db.archive || HasRow(w.rows, id))
            && (forall i, j | 0 <= i < |w.rows| && 0 <= j < |w.rows| && w.rows[i].id == w.rows[j].id :: i == j)
            && (forall i | 0 <= i < |w.rows| ::
                  w.rows[i].id in docs && w.rows[i].doc == docs[w.rows[i].id] && w.rows[i].doc.state != InstPending)
            && (forall id | id in w.sys.db.archive :: id in docs && docs[id].state != InstPending)
  {
    hide HookInv, AllFit, Engine.Inv, W.JobsOk, W.Uncounted, ArchJobOk, HasRow;
    assert RowsOk(w.sys.db.docs, w.rows);
    forall id | id in w.sys.db.docs && w.sys.db.docs[id].state != InstPending
      ensures id in w.sys.db.archive || HasRow(w.rows, id)
    {
      assert id in w.arch.enqueued;
    }
  }

  /** The task's receiver answered a delivery of it with 2xx. */
  predicate DeliveredIn(w: World, m: Member) {
    HasDelivery(w.deliveries, m)
  }

  /** The worker gave up on the task, after at least MaxAttempts attempts that failed. */
  predicate GivenUpIn(w: World, m: Member) {
    m in w.hook.gaveUp && W.Count(w.hook.failures, m) >= WEBHOOK_MAX_ATTEMPTS
  }

  /** The job ended as undeliverable: the publisher has no failure URL. */
  ghost predicate UndeliverableIn(w: World, m: Member) {
    m in w.hook.dropped && NoReceiver(w.sys.db.docs, w.registry, m)
  }

  /**
   Webhook conservation, with a fixed registry. Every FAILED task is pending, delivered, given up after
   at least 8 failed attempts, or undeliverable; webhook_pending names FAILED tasks only. A job is
   dropped only when its publisher has no failure URL, and delivered only when it has one: so for an
   instance whose workflow is registered nothing is ever dropped.
   */
  lemma WebhookConservation(registry: map<string, string>, steps: seq<Workers.Step>, m: Member)
    requires WIsRun(WorldInit(registry), steps)
    ensures var w := WAfter(WorldInit(registry), steps);
            var docs := w.sys.db.docs;
            && w.registry == registry
            && (FailedIn(docs, m) ==>
                  m in w.sys.db.webhooks || DeliveredIn(w, m) || GivenUpIn(w, m) || UndeliverableIn(w, m))
            && (m in w.sys.db.webhooks ==> FailedIn(docs, m))
            && (m in w.hook.dropped ==> NoReceiver(docs, registry, m))
            && (DeliveredIn(w, m) ==> FailedIn(docs, m) && !NoReceiver(docs, registry, m))
            && (FailedIn(docs, m) && Registered(registry, Specs(docs[m.id].tasks)) ==> m !in w.hook.dropped)
  {
    ReachableWInv(registry, steps);
    RegistryFixed(WorldInit(registry), steps);
    hide WAfter, WIsRun;
    WebhooksConserved(WAfter(WorldInit(registry), steps), m);
  }

  lemma WebhooksConserved(w: World, m: Member)
    requires WInv(w)
    ensures var docs := w.sys.db.docs;
            && (FailedIn(docs, m) ==>
                  m in w.sys.db.webhooks || DeliveredIn(w, m) || GivenUpIn(w, m) || UndeliverableIn(w, m))
            && (m in w.sys.db.webhooks ==> FailedIn(docs, m))
            && (m in w.hook.dropped ==> NoReceiver(docs, w.registry, m))
            && (DeliveredIn(w, m) ==> FailedIn(docs, m) && !NoReceiver(docs, w.registry, m))
            && (FailedIn(docs, m) && Registered(w.registry, Specs(docs[m.id].tasks)) ==> m !in w.hook.dropped)
  {
    hide ArchInv, AllFit, Engine.Inv, W.JobsOk, W.Uncounted, HookJobOk, UrlOf, DocsInv;
    assert m in w.hook.enqueued <==> FailedIn(w.sys.db.docs, m);
    if HasDelivery(w.deliveries, m) {
      var i :| 0 <= i < |w.deliveries| && w.deliveries[i].m == m;
      assert DeliveryOk(w.sys.db.docs, w.registry, w.deliveries[i]);
    }
    if FailedIn(w.sys.db.docs, m) && Registered(w.registry, Specs(w.sys.db.docs[m.id].tasks)) {
      assert Specs(w.sys.db.docs[m.id].tasks)[m.index] == w.sys.db.docs[m.id].tasks[m.index].spec;
    }
  }

  /**
   Every delivery reports a FAILED task to its publisher's registered URL, names the task's consumer,
   and carries the body of the task's latest effective publish.
   */
  lemma DeliveriesCarryLatestPayload(registry: map<string, string>, steps: seq<Workers.Step>, i: nat)
    requires WIsRun(WorldInit(registry), steps)
    requires i < |WAfter(WorldInit(registry), steps).deliveries|
    ensures var w := WAfter(WorldInit(registry), steps);
            var d := w.deliveries[i];
            && FailedIn(w.sys.db.docs, d.m)
            && var t := w.sys.db.docs[d.m.id].tasks[d.m.index];
               var p := LastPublish(w.sys.log, d.m.id, d.m.index);
               && w.registry == registry
               && t.spec.publisher in registry && d.url == registry[t.spec.publisher] && d.url != ""
               && d.note.consumer == t.spec.consumer
               && p.Some? && d.note.payload == p.value.payload
  {
    ReachableWInv(registry, steps);
    RegistryFixed(WorldInit(registry), steps);
    hide WAfter, WIsRun, ArchInv, AllFit, W.Inv, HookJobOk, HasDelivery,
         LastPublish, DocsInv, DeadlinesAgree, PendingInv, ScoresMatch, TalliesMatch;
    var w := WAfter(WorldInit(registry), steps);
    var d := w.deliveries[i];
    assert DeliveryOk(w.sys.db.docs, w.registry, d);
    assert DocMatchesLog(w.sys.db.docs[d.m.id], d.m.id, w.sys.log);
    assert PublishedBy(w.sys.db.docs[d.m.id].tasks[d.m.index], LastPublish(w.sys.log, d.m.id, d.m.index));
  }

  lemma StepRegistry(w: World, step: Workers.Step)
    requires WEnabled(w, step)
    ensures WNext(w, step).registry == w.registry
  {
    if step.Core? {
      hide Next, Enabled;
    } else {
      hide WNext, WEnabled;
      WorkersTouchNothing(w, step);
    }
  }

  lemma {:induction false} RegistryFixed(w: World, steps: seq<Workers.Step>)
    requires WIsRun(w, steps)
    ensures WAfter(w, steps).registry == w.registry
    decreases |steps|
  {
    hide WNext, WEnabled;
    if steps != [] {
      StepRegistry(w, steps[0]);
      RegistryFixed(WNext(w, steps[0]), steps[1..]);
    }
  }

  /* ---- the workers refine the protocol ---- */

  /** What a step of the whole engine is for the protocol alone. */
  function Projected(w: World, step: Workers.Step): Engine.Step
    requires WEnabled(w, step)
  {
    if step.Core? then step.step
    else var db := WNext(w, step).sys.db; Drain(db.archive, db.webhooks)
  }

  function ProjectedRun(w: World, steps: seq<Workers.Step>): seq<Engine.Step>
    requires WIsRun(w, steps)
    decreases |steps|
  {
    if steps == [] then [] else [Projected(w, steps[0])] + ProjectedRun(WNext(w, steps[0]), steps[1..])
  }

  lemma StepRefines(w: World, step: Workers.Step)
    requires WEnabled(w, step)
    ensures Enabled(w.sys, Projected(w, step)) && Next(w.sys, Projected(w, step)) == WNext(w, step).sys
    ensures !step.Core? ==> WNext(w, step).sys.db.docs == w.sys.db.docs
  {
    if step.Core? {
      hide Next, Enabled;
    } else {
      WorkersTouchNothing(w, step);
      hide WNext, WEnabled, Next;
    }
  }

  /**
   Every run of the whole engine is a run of the protocol in which the workers' steps only drain the
   two queues: what is proved of the protocol's reachable states holds with workers too, and no worker
   step changes a document.
   */
  lemma {:induction false} WorkersRefineEngine(w: World, steps: seq<Workers.Step>)
    requires WIsRun(w, steps)
    ensures IsRun(w.sys, ProjectedRun(w, steps))
    ensures After(w.sys, ProjectedRun(w, steps)) == WAfter(w, steps).sys
    ensures (forall k | 0 <= k < |steps| :: !steps[k].Core?) ==> WAfter(w, steps).sys.db.docs == w.sys.db.docs
    decreases |steps|
  {
    hide WNext, WEnabled, Next, Enabled, Projected;
    if steps != [] {
      var rest := steps[1..];
      var w1 := WNext(w, steps[0]);
      StepRefines(w, steps[0]);
      WorkersRefineEngine(w1, rest);
      var p := ProjectedRun(w, steps);
      assert p[0] == Projected(w, steps[0]) && p[1..] == ProjectedRun(w1, rest);
      assert forall k | 0 <= k < |rest| :: rest[k] == steps[k + 1];
    }
  }
}
