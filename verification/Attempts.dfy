/**
 The outcomes of the two workers against the answers they got: a webhook counts as delivered exactly when
 its receiver answered 200 to 299, an archive job as done exactly when its insert was acknowledged.
 */
module Attempts {
  import opened Types
  import opened Engine
  import opened Enqueues
  import opened Workers
  import opened Conservation
  import Codec
  import Json
  import ZSet
  import S = Schedules
  import W = Worker

  /* ---- what a step is for one webhook ---- */

  /** The service has a failure URL. */
  predicate HasUrl(registry: map<string, string>, service: string) {
    service in registry && registry[service] != ""
  }

  /** A status from 200 to 299. */
  predicate Is2xx(answer: Answer) {
    answer.Status? && 200 <= answer.code <= 299
  }

  predicate PostFor(w: World, step: Workers.Step, m: Member) {
    step.HookPost? && step.k < |w.hook.jobs| && w.hook.jobs[step.k].Fetched? && w.hook.jobs[step.k].m == m
  }

  /** The receiver of `m` answered a post with 2xx. */
  predicate Succeeds(w: World, step: Workers.Step, m: Member) {
    PostFor(w, step, m) && Is2xx(step.answer) && HasUrl(w.registry, w.hook.jobs[step.k].data.publisher)
  }

  /** An attempt on `m` failed: its task not read, its URL not looked up, or its receiver did not answer 2xx. */
  predicate FailsOn(w: World, step: Workers.Step, m: Member) {
    || (step.HookRead? && !step.readable && step.k < |w.hook.jobs| && w.hook.jobs[step.k].Claimed?
        && w.hook.jobs[step.k].m == m)
    || (PostFor(w, step, m)
        && (|| step.answer == LookupFailed
            || (HasUrl(w.registry, w.hook.jobs[step.k].data.publisher) && !Is2xx(step.answer))))
  }

  /** What one step of the engine and its workers adds to the outcomes of one webhook. */
  ghost predicate HookOutcome(w: World, w': World, m: Member, succeeds: bool, fails: bool) {
    && (m in w'.hook.done <==> m in w.hook.done || succeeds)
    && (HasDelivery(w'.deliveries, m) <==> HasDelivery(w.deliveries, m) || succeeds)
    && W.Count(w'.hook.failures, m) == W.Count(w.hook.failures, m) + if fails then 1 else 0
  }

  lemma DeliveryLogged(deliveries: seq<Delivery>, d: Delivery, m: Member)
    ensures HasDelivery(deliveries + [d], m) <==> HasDelivery(deliveries, m) || d.m == m
  {
    var more := deliveries + [d];
    if HasDelivery(deliveries, m) {
      var i :| 0 <= i < |deliveries| && deliveries[i].m == m;
      assert more[i].m == m;
    }
    assert more[|deliveries|].m == d.m;
  }

  /** The queue part of a step of the webhook worker. */
  lemma HookNextOutcome(w: World, s: W.Step<Member, Note>)
    requires W.Enabled(w.sys.db.webhooks, w.hook, s)
    ensures var w' := HookNext(w, s);
            && w'.deliveries == w.deliveries
            && w'.hook.done == (if s.Finish? && s.result.Success? then w.hook.done + {w.hook.jobs[s.k].m}
                                else w.hook.done)
            && w'.hook.failures
               == if s.Finish? && s.result.Error? then
                    w.hook.failures[w.hook.jobs[s.k].m := W.Count(w.hook.failures, w.hook.jobs[s.k].m) + 1]
                  else w.hook.failures
  {
    W.StepEffects(w.sys.db.webhooks, w.hook, s, WEBHOOK_MAX_ATTEMPTS);
    hide W.NextZ, W.NextSide, W.Enabled, Batch, Fire, Resolve;
  }

  lemma PostOutcome(w: World, k: nat, answer: Answer, m: Member)
    requires WEnabled(w, HookPost(k, answer))
    ensures var step := HookPost(k, answer);
            HookOutcome(w, WNext(w, step), m, Succeeds(w, step, m), FailsOn(w, step, m))
  {
    hide HookNext, HasDelivery;
    var note := w.hook.jobs[k].data;
    HookNextOutcome(w, HookPostStep(w.registry, k, note, answer));
    DeliveryLogged(w.deliveries, Delivery(w.hook.jobs[k].m, UrlOf(w.registry, note.publisher), note), m);
  }

  /** The read of a queued webhook finds its task; only an unreadable store fails it. */
  lemma ReadKind(w: World, k: nat, readable: bool)
    requires WInv(w) && WEnabled(w, HookRead(k, readable))
    ensures var s := HookReadStep(w.sys.db.docs, k, w.hook.jobs[k].m, readable);
            if readable then s.Fetch? && s.k == k else s == W.Finish(k, W.Error)
  {
    HookOf(w);
    hide WInv, HookReadStep, DocsInv, AllFit, W.Inv, DeliveryOk, HasDelivery, NoReceiver, HookJobOk, FailedIn,
         HookPostStep;
    JobEnqueued(w.sys.db.webhooks, w.hook, WEBHOOK_MAX_ATTEMPTS, k);
    NoteResolves(w.sys.db.docs, w.registry, w.hook.jobs[k].m, k, readable, NoAnswer);
  }

  lemma ReadOutcome(w: World, k: nat, readable: bool, m: Member)
    requires WInv(w) && WEnabled(w, HookRead(k, readable))
    ensures var step := HookRead(k, readable);
            HookOutcome(w, WNext(w, step), m, Succeeds(w, step, m), FailsOn(w, step, m))
  {
    hide WInv, HookNext, HookReadStep, HasDelivery;
    ReadKind(w, k, readable);
    HookNextOutcome(w, HookReadStep(w.sys.db.docs, k, w.hook.jobs[k].m, readable));
  }

  lemma DeliveriesStay(w: World, step: Workers.Step)
    requires WEnabled(w, step) && !step.HookPost?
    ensures WNext(w, step).deliveries == w.deliveries
  {
    hide W.NextZ, W.NextSide, W.Enabled, Next, HookReadStep, InsertRow;
  }

  /** A step that neither reads nor posts a webhook decides none. */
  lemma QuietOutcome(w: World, w': World, step: Workers.Step, m: Member)
    requires !step.HookPost? && !step.HookRead?
    requires w'.deliveries == w.deliveries && w'.hook.done == w.hook.done && w'.hook.failures == w.hook.failures
    ensures HookOutcome(w, w', m, Succeeds(w, step, m), FailsOn(w, step, m))
  {
    hide HasDelivery;
  }

  lemma QuietStep(w: World, step: Workers.Step)
    requires WEnabled(w, step) && !step.HookPost? && !step.HookRead?
    ensures WNext(w, step).hook.done == w.hook.done && WNext(w, step).hook.failures == w.hook.failures
  {
    hide ArchNext, HookNext, Next, InsertRow, W.Enabled;
    match step
    case HookQueue(s) => HookNextOutcome(w, s);
    case Core(s) => CoreOutcome(w, s);
    case _ => S.ArchLeavesHook(w, step);
  }

  lemma StepOutcome(w: World, step: Workers.Step, m: Member)
    requires WInv(w) && WEnabled(w, step)
    ensures HookOutcome(w, WNext(w, step), m, Succeeds(w, step, m), FailsOn(w, step, m))
  {
    hide WInv, WNext, HookOutcome, Succeeds, FailsOn;
    match step
    case HookPost(k, answer) => PostOutcome(w, k, answer, m);
    case HookRead(k, readable) => ReadOutcome(w, k, readable, m);
    case _ =>
      DeliveriesStay(w, step);
      QuietStep(w, step);
      QuietOutcome(w, WNext(w, step), step, m);
  }

  lemma CoreOutcome(w: World, s: Engine.Step)
    ensures CoreNext(w, s).hook.done == w.hook.done && CoreNext(w, s).hook.failures == w.hook.failures
  {
    hide Next;
  }

  /* ---- whole runs ---- */

  /** Some step of the run posted `m` and was answered 2xx. */
  ghost predicate Answered2xx(w: World, steps: seq<Workers.Step>, m: Member)
    requires WIsRun(w, steps)
    decreases |steps|
  {
    steps != [] && (Succeeds(w, steps[0], m) || Answered2xx(WNext(w, steps[0]), steps[1..], m))
  }

  /** How many attempts on `m` failed in the run. */
  ghost function FailedAttempts(w: World, steps: seq<Workers.Step>, m: Member): nat
    requires WIsRun(w, steps)
    decreases |steps|
  {
    if steps == [] then 0
    else (if FailsOn(w, steps[0], m) then 1 else 0) + FailedAttempts(WNext(w, steps[0]), steps[1..], m)
  }

  lemma {:induction false} RunOutcome(w: World, steps: seq<Workers.Step>, m: Member)
    requires WInv(w) && WIsRun(w, steps)
    ensures var w' := WAfter(w, steps);
            && (m in w'.hook.done <==> m in w.hook.done || Answered2xx(w, steps, m))
            && (HasDelivery(w'.deliveries, m) <==> HasDelivery(w.deliveries, m) || Answered2xx(w, steps, m))
            && W.Count(w'.hook.failures, m) == W.Count(w.hook.failures, m) + FailedAttempts(w, steps, m)
    decreases |steps|
  {
    hide WInv, WNext, WEnabled, Succeeds, FailsOn, HasDelivery, W.Count;
    if steps != [] {
      WStepKeeps(w, steps[0]);
      StepOutcome(w, steps[0], m);
      RunOutcome(WNext(w, steps[0]), steps[1..], m);
    }
  }

  /**
   In every run of the whole engine, with a fixed registry: a webhook is logged as delivered if and only if a
   post of it was answered 200 to 299; every FAILED task's webhook is pending, so answered, has at least 8
   failed attempts behind it, or its publisher has no URL; and only FAILED tasks are pending.
   */
  lemma WebhooksAreAnswered(registry: map<string, string>, steps: seq<Workers.Step>, m: Member)
    requires WIsRun(WorldInit(registry), steps)
    ensures var w := WAfter(WorldInit(registry), steps);
            var docs := w.sys.db.docs;
            && (HasDelivery(w.deliveries, m) <==> Answered2xx(WorldInit(registry), steps, m))
            && (FailedIn(docs, m) ==>
                  || m in w.sys.db.webhooks
                  || Answered2xx(WorldInit(registry), steps, m)
                  || FailedAttempts(WorldInit(registry), steps, m) >= 8
                  || !HasUrl(registry, docs[m.id].tasks[m.index].spec.publisher))
            && (m in w.sys.db.webhooks ==> FailedIn(docs, m))
  {
    InitInv(registry);
    var w0 := WorldInit(registry);
    assert !HasDelivery(w0.deliveries, m) && W.Count(w0.hook.failures, m) == 0;
    WebhookConservation(registry, steps, m);
    hide WIsRun, WAfter, WInv, HasDelivery, Answered2xx, FailedAttempts;
    RunOutcome(w0, steps, m);
  }

  /**
   A post to a publisher that has a failure URL, answered with some status: the job succeeds, and the delivery
   is logged, if and only if the status is 200 to 299; any other status logs nothing and counts as one failure.
   */
  lemma StatusDecides(w: World, k: nat, code: int)
    requires WEnabled(w, HookPost(k, Status(code))) && HasUrl(w.registry, w.hook.jobs[k].data.publisher)
    ensures var w', job := WNext(w, HookPost(k, Status(code))), w.hook.jobs[k];
            if 200 <= code < 300 then
              && job.m in w'.hook.done
              && w'.deliveries == w.deliveries + [Delivery(job.m, w.registry[job.data.publisher], job.data)]
              && w'.hook.failures == w.hook.failures
            else
              && w'.hook.done == w.hook.done && w'.deliveries == w.deliveries
              && w'.hook.failures == w.hook.failures[job.m := W.Count(w.hook.failures, job.m) + 1]
  {
    hide HookNext;
    HookNextOutcome(w, HookPostStep(w.registry, k, w.hook.jobs[k].data, Status(code)));
  }

  /** No job of the webhook queue is put back after its eighth counted attempt, and none given up before it. */
  ghost predicate CountsBelow(x: W.Side<Member, Note>) {
    forall k | 0 <= k < |x.jobs| && x.jobs[k].Counted? :: 1 <= x.jobs[k].attempts <= 7
  }

  lemma HookNextCounts(w: World, s: W.Step<Member, Note>)
    requires W.Enabled(w.sys.db.webhooks, w.hook, s) && CountsBelow(w.hook)
    ensures CountsBelow(HookNext(w, s).hook)
    ensures s.Bump? ==>
              var n := W.Count(w.hook.attempts, w.hook.jobs[s.k].m) + 1;
              && (HookNext(w, s).hook.gaveUp
                  == if n >= 8 then w.hook.gaveUp + {w.hook.jobs[s.k].m} else w.hook.gaveUp)
              && HookNext(w, s).hook.attempts == w.hook.attempts[w.hook.jobs[s.k].m := n]
  {
    hide Next, W.NextZ, ZSet.IsRange;
  }

  lemma StepCounts(w: World, step: Workers.Step)
    requires WEnabled(w, step) && CountsBelow(w.hook)
    ensures CountsBelow(WNext(w, step).hook)
  {
    hide ArchNext, HookNext, Next, HookReadStep, InsertRow, CountsBelow, W.Enabled;
    match step
    case HookQueue(s) => HookNextCounts(w, s);
    case HookRead(k, readable) => ReadCounts(w, k, readable);
    case HookPost(k, answer) => PostCounts(w, k, answer);
    case Core(s) => CoreCounts(w, s);
    case _ => S.ArchLeavesHook(w, step);
  }

  lemma ReadCounts(w: World, k: nat, readable: bool)
    requires WEnabled(w, HookRead(k, readable)) && CountsBelow(w.hook)
    ensures CountsBelow(WNext(w, HookRead(k, readable)).hook)
  {
    hide HookNext, CountsBelow, Codec.GoSplit, Codec.Print;
    HookNextCounts(w, HookReadStep(w.sys.db.docs, k, w.hook.jobs[k].m, readable));
  }

  lemma PostCounts(w: World, k: nat, answer: Answer)
    requires WEnabled(w, HookPost(k, answer)) && CountsBelow(w.hook)
    ensures CountsBelow(WNext(w, HookPost(k, answer)).hook)
  {
    hide HookNext, CountsBelow;
    HookNextCounts(w, HookPostStep(w.registry, k, w.hook.jobs[k].data, answer));
  }

  lemma CoreCounts(w: World, s: Engine.Step)
    requires CountsBelow(w.hook)
    ensures CountsBelow(CoreNext(w, s).hook)
  {
    hide Next;
  }

  /** In every run: a webhook job is rescheduled only after its first to seventh counted attempt. */
  lemma {:induction false} RetriesStopAtEight(w: World, steps: seq<Workers.Step>)
    requires WIsRun(w, steps) && CountsBelow(w.hook)
    ensures CountsBelow(WAfter(w, steps).hook)
    decreases |steps|
  {
    hide WNext, WEnabled, CountsBelow;
    if steps != [] {
      StepCounts(w, steps[0]);
      RetriesStopAtEight(WNext(w, steps[0]), steps[1..]);
    }
  }

  /* ---- the archive ---- */

  predicate InsertFor(w: World, step: Workers.Step, id: Id) {
    step.ArchInsert? && step.k < |w.arch.jobs| && w.arch.jobs[step.k].Fetched? && w.arch.jobs[step.k].m == id
  }

  /** The insert of `id` was acknowledged. */
  predicate Acknowledged(w: World, step: Workers.Step, id: Id) {
    InsertFor(w, step, id) && step.acked
  }

  /** The insert of `id` took effect, or found its row. */
  predicate Committed(w: World, step: Workers.Step, id: Id) {
    InsertFor(w, step, id) && step.committed
  }

  lemma ArchNextOutcome(w: World, s: W.Step<Id, Doc>)
    requires W.Enabled(w.sys.db.archive, w.arch, s)
    ensures var w' := ArchNext(w, s);
            && w'.rows == w.rows
            && w'.arch.done == (if s.Finish? && s.result.Success? then w.arch.done + {w.arch.jobs[s.k].m}
                                else w.arch.done)
  {
    W.StepEffects(w.sys.db.archive, w.arch, s, 0);
    hide W.NextZ, W.NextSide, W.Enabled, Batch, Fire, Resolve;
  }

  lemma RowInserted(rows: seq<Row>, id: Id, doc: Doc, x: Id)
    ensures HasRow(InsertRow(rows, id, doc), x) <==> HasRow(rows, x) || x == id
  {
    var more := InsertRow(rows, id, doc);
    if !HasRow(rows, id) {
      assert more[|rows|].id == id;
      if HasRow(rows, x) {
        var i :| 0 <= i < |rows| && rows[i].id == x;
        assert more[i].id == x;
      }
    }
  }

  /** An archive job reads a terminal document: its insert is never refused. */
  lemma InsertsTerminal(w: World, k: nat)
    requires WInv(w) && k < |w.arch.jobs| && w.arch.jobs[k].Fetched?
    ensures w.arch.jobs[k].data.state != InstPending
  {
    ArchOf(w);
    hide WInv, W.Inv, RowsOk;
    JobEnqueued(w.sys.db.archive, w.arch, 0, k);
    assert ArchJobOk(w.sys.db.docs, w.arch.jobs[k]);
  }

  /** What an insert of the archive worker does: done exactly if acknowledged, a row exactly if it took effect. */
  lemma InsertOutcome(w: World, k: nat, committed: bool, acked: bool, id: Id)
    requires WInv(w) && WEnabled(w, ArchInsert(k, committed, acked))
    ensures var step := ArchInsert(k, committed, acked);
            var w' := WNext(w, step);
            && (id in w'.arch.done <==> id in w.arch.done || Acknowledged(w, step, id))
            && (HasRow(w'.rows, id) <==> HasRow(w.rows, id) || Committed(w, step, id))
  {
    hide WInv, ArchNext, InsertRow, HasRow;
    InsertsTerminal(w, k);
    ArchNextOutcome(w, ArchInsertStep(k, w.arch.jobs[k].data, acked));
    RowInserted(w.rows, w.arch.jobs[k].m, w.arch.jobs[k].data, id);
  }

  lemma ArchStepOutcome(w: World, step: Workers.Step, id: Id)
    requires WInv(w) && WEnabled(w, step)
    ensures var w' := WNext(w, step);
            && (id in w'.arch.done <==> id in w.arch.done || Acknowledged(w, step, id))
            && (HasRow(w'.rows, id) <==> HasRow(w.rows, id) || Committed(w, step, id))
  {
    if !step.ArchInsert? { RowsStay(w, step); }
    hide WInv, ArchNext, HookNext, Next, HasRow, InsertRow, HookReadStep, HookPostStep, W.Enabled;
    match step
    case ArchInsert(k, committed, acked) => InsertOutcome(w, k, committed, acked, id);
    case ArchRead(k, readable) => ArchReadOutcome(w, k, readable);
    case ArchQueue(s) => ArchNextOutcome(w, s);
    case Core(s) => ArchCoreOutcome(w, s);
    case _ => S.HookLeavesArch(w, step);
  }

  lemma RowsStay(w: World, step: Workers.Step)
    requires WEnabled(w, step) && !step.ArchInsert?
    ensures WNext(w, step).rows == w.rows
  {
    hide W.NextZ, W.NextSide, W.Enabled, Next, HookReadStep;
  }

  lemma ArchReadOutcome(w: World, k: nat, readable: bool)
    requires WEnabled(w, ArchRead(k, readable))
    ensures WNext(w, ArchRead(k, readable)).arch.done == w.arch.done
  {
    hide ArchNext;
    ArchNextOutcome(w, ArchReadStep(w.sys.db.docs, k, w.arch.jobs[k].m, readable));
  }

  lemma ArchCoreOutcome(w: World, s: Engine.Step)
    ensures CoreNext(w, s).arch.done == w.arch.done
  {
    hide Next;
  }

  ghost predicate Inserted(w: World, steps: seq<Workers.Step>, id: Id, acked: bool)
    requires WIsRun(w, steps)
    decreases |steps|
  {
    && steps != []
    && (|| (if acked then Acknowledged(w, steps[0], id) else Committed(w, steps[0], id))
        || Inserted(WNext(w, steps[0]), steps[1..], id, acked))
  }

  lemma {:induction false} ArchRunOutcome(w: World, steps: seq<Workers.Step>, id: Id)
    requires WInv(w) && WIsRun(w, steps)
    ensures var w' := WAfter(w, steps);
            && (id in w'.arch.done <==> id in w.arch.done || Inserted(w, steps, id, true))
            && (HasRow(w'.rows, id) <==> HasRow(w.rows, id) || Inserted(w, steps, id, false))
    decreases |steps|
  {
    hide WInv, WNext, WEnabled, Acknowledged, Committed, HasRow;
    if steps != [] {
      WStepKeeps(w, steps[0]);
      ArchStepOutcome(w, steps[0], id);
      ArchRunOutcome(WNext(w, steps[0]), steps[1..], id);
    }
  }

  /**
   In every run of the whole engine a row exists if and only if an insert of it took effect, and the job of an
   instance has ended well if and only if an insert of it was acknowledged.
   */
  lemma RowsAreInserted(registry: map<string, string>, steps: seq<Workers.Step>, id: Id)
    requires WIsRun(WorldInit(registry), steps)
    ensures var w := WAfter(WorldInit(registry), steps);
            && (HasRow(w.rows, id) <==> Inserted(WorldInit(registry), steps, id, false))
            && (id in w.arch.done <==> Inserted(WorldInit(registry), steps, id, true))
  {
    InitInv(registry);
    var w0 := WorldInit(registry);
    assert !HasRow(w0.rows, id) && id !in w0.arch.done;
    hide WIsRun, WAfter, WInv, HasRow, Inserted;
    ArchRunOutcome(w0, steps, id);
  }

  /* ---- the jobs' branches, on any documents ---- */

  /**
   archiveJob on any documents: an unreadable store and a live instance fail the job, a missing instance drops
   it, and a terminal one is inserted; the job succeeds exactly if that is acknowledged.
   */
  lemma ArchiveBranches(docs: map<Id, Doc>, k: nat, id: Id, doc: Doc, acked: bool)
    ensures ArchReadStep(docs, k, id, false) == W.Finish(k, W.Error)
    ensures id !in docs ==> ArchReadStep(docs, k, id, true) == W.Finish(k, W.Dropped)
    ensures id in docs ==> ArchReadStep(docs, k, id, true) == W.Fetch(k, docs[id])
    ensures doc.state == InstPending ==> ArchInsertStep(k, doc, acked) == W.Finish(k, W.Error)
    ensures doc.state != InstPending ==>
              ArchInsertStep(k, doc, acked) == W.Finish(k, if acked then W.Success else W.Error)
  {
  }

  /**
   webhookJob on any documents, for a member that splitMember reads as task `i` of `id`: an unreadable store fails
   the job; a missing instance or task, or one without publisher or consumer, drops it; else both names and the
   payload are read, the empty object if there is none.
   */
  lemma WebhookBranches(docs: map<Id, Doc>, k: nat, m: Member, id: Id, i: nat)
    requires Codec.GoSplit(Codec.Print(m)) == Some((id, i))
    ensures HookReadStep(docs, k, m, false) == W.Finish(k, W.Error)
    ensures var found := id in docs && i < |docs[id].tasks|;
            if found && docs[id].tasks[i].spec.publisher != "" && docs[id].tasks[i].spec.consumer != "" then
              var t := docs[id].tasks[i];
              HookReadStep(docs, k, m, true)
              == W.Fetch(k, Note(t.spec.publisher, t.spec.consumer,
                                 if t.payload.Some? then t.payload.value else Json.JObj(map[])))
            else HookReadStep(docs, k, m, true) == W.Finish(k, W.Dropped)
  {
    hide Codec.GoSplit, Codec.Print;
  }

  /** A member that splitMember cannot read is dropped, whatever the store. */
  lemma MalformedIsDropped(docs: map<Id, Doc>, k: nat, m: Member, readable: bool)
    requires Codec.GoSplit(Codec.Print(m)) == None
    ensures HookReadStep(docs, k, m, readable) == W.Finish(k, W.Dropped)
  {
    hide Codec.GoSplit, Codec.Print;
  }
}
