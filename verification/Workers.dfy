/**
 The whole engine: the protocol of module Engine together with the archive and webhook
 workers, the archive table, the receivers and the service registry. Steps of any number of
 concurrent jobs interleave with reports, starts and reaper ticks.
 */
module Workers {
  import opened Json
  import opened Types
  import opened Lifecycle
  import opened Engine
  import opened Enqueues
  import Codec
  import Script
  import W = Worker

  /** What a webhook job reads of its task. */
  datatype Note = Note(publisher: string, consumer: string, payload: Json)

  /** A row of instance_history. */
  datatype Row = Row(id: Id, doc: Doc)

  /** A delivery the receiver answered with 2xx. */
  datatype Delivery = Delivery(m: Member, url: string, note: Note)

  datatype World = World(
    sys: Sys,
    arch: W.Side<Id, Doc>,
    hook: W.Side<Member, Note>,
    rows: seq<Row>,
    deliveries: seq<Delivery>,
    registry: map<string, string>)

  /** How a delivery attempt ends. */
  datatype Answer = LookupFailed | NoAnswer | Status(code: int)

  datatype Step =
    | Core(step: Engine.Step)
    | ArchQueue(aq: W.Step<Id, Doc>)
    | ArchRead(k: nat, readable: bool)
    | ArchInsert(k: nat, committed: bool, acked: bool)
    | HookQueue(hq: W.Step<Member, Note>)
    | HookRead(k: nat, readable: bool)
    | HookPost(k: nat, answer: Answer)

  const WEBHOOK_MAX_ATTEMPTS: nat := 8

  function WorldInit(registry: map<string, string>): World {
    World(INIT, W.Fresh(), W.Fresh(), [], [], registry)
  }

  /* ---- the jobs ---- */

  function UrlOf(registry: map<string, string>, service: string): string {
    if service in registry then registry[service] else ""
  }

  /** ON CONFLICT (id) DO NOTHING. */
  predicate HasRow(rows: seq<Row>, id: Id) {
    exists i :: 0 <= i < |rows| && rows[i].id == id
  }

  function InsertRow(rows: seq<Row>, id: Id, doc: Doc): seq<Row> {
    if HasRow(rows, id) then rows else rows + [Row(id, doc)]
  }

  /** archiveJob up to and including its read. */
  function ArchReadStep(docs: map<Id, Doc>, k: nat, id: Id, readable: bool): W.Step<Id, Doc> {
    if !readable then W.Finish(k, W.Error)
    else if id !in docs then W.Finish(k, W.Dropped)
    else W.Fetch(k, docs[id])
  }

  /** archiveJob after its read: refuse a live instance, else insert. */
  function ArchInsertStep(k: nat, doc: Doc, acked: bool): W.Step<Id, Doc> {
    W.Finish(k, if Terminal(doc) && acked then W.Success else W.Error)
  }

  /** The empty object, sent for a task without payload. */
  const EMPTY_OBJECT := JObj(map[])

  function NoteOf(t: Task): Note {
    Note(t.spec.publisher, t.spec.consumer, if t.payload.Some? then t.payload.value else EMPTY_OBJECT)
  }

  /** webhookJob up to and including its read. */
  function HookReadStep(docs: map<Id, Doc>, k: nat, m: Member, readable: bool): W.Step<Member, Note> {
    match Codec.GoSplit(Codec.Print(m))
    case None => W.Finish(k, W.Dropped)
    case Some((id, i)) =>
      if !readable then W.Finish(k, W.Error)
      else if id !in docs || i >= |docs[id].tasks| then W.Finish(k, W.Dropped)
      else
        var note := NoteOf(docs[id].tasks[i]);
        if note.publisher == "" || note.consumer == "" then W.Finish(k, W.Dropped) else W.Fetch(k, note)
  }

  predicate Delivered(answer: Answer) {
    answer.Status? && 200 <= answer.code < 300
  }

  /** webhookJob after its read: look the receiver up, post, judge the answer. */
  function HookPostStep(registry: map<string, string>, k: nat, note: Note, answer: Answer): W.Step<Member, Note> {
    if answer.LookupFailed? then W.Finish(k, W.Error)
    else if UrlOf(registry, note.publisher) == "" then W.Finish(k, W.Dropped)
    else W.Finish(k, if Delivered(answer) then W.Success else W.Error)
  }

  /* ---- steps ---- */

  /** Every publisher of the workflow has a failure URL: what ValidateServices asks for. */
  predicate Registered(registry: map<string, string>, specs: seq<TaskSpec>) {
    forall i | 0 <= i < |specs| :: UrlOf(registry, specs[i].publisher) != ""
  }

  predicate QueueOnly<K, D>(step: W.Step<K, D>) {
    !step.Fetch? && !step.Finish?
  }

  ghost predicate WEnabled(w: World, step: Step) {
    match step
    case Core(s) => !s.Drain? && Enabled(w.sys, s)
    case ArchQueue(s) => QueueOnly(s) && W.Enabled(w.sys.db.archive, w.arch, s)
    case ArchRead(k, _) => k < |w.arch.jobs| && w.arch.jobs[k].Claimed?
    case ArchInsert(k, committed, acked) => k < |w.arch.jobs| && w.arch.jobs[k].Fetched? && (acked ==> committed)
    case HookQueue(s) => QueueOnly(s) && W.Enabled(w.sys.db.webhooks, w.hook, s)
    case HookRead(k, _) => k < |w.hook.jobs| && w.hook.jobs[k].Claimed?
    case HookPost(k, _) => k < |w.hook.jobs| && w.hook.jobs[k].Fetched?
  }

  function ArchNext(w: World, s: W.Step<Id, Doc>): World
    requires W.Enabled(w.sys.db.archive, w.arch, s)
  {
    w.(sys := Next(w.sys, Drain(W.NextZ(w.sys.db.archive, w.arch, s), w.sys.db.webhooks)),
       arch := W.NextSide(w.sys.db.archive, w.arch, s, 0))
  }

  function HookNext(w: World, s: W.Step<Member, Note>): World
    requires W.Enabled(w.sys.db.webhooks, w.hook, s)
  {
    w.(sys := Next(w.sys, Drain(w.sys.db.archive, W.NextZ(w.sys.db.webhooks, w.hook, s))),
       hook := W.NextSide(w.sys.db.webhooks, w.hook, s, WEBHOOK_MAX_ATTEMPTS))
  }

  function CoreNext(w: World, s: Engine.Step): World {
    var sys' := Next(w.sys, s);
    w.(sys := sys',
       arch := w.arch.(enqueued := w.arch.enqueued + sys'.db.archive.Keys),
       hook := w.hook.(enqueued := w.hook.enqueued + sys'.db.webhooks.Keys))
  }

  function WNext(w: World, step: Step): World
    requires WEnabled(w, step)
  {
    match step
    case Core(s) => CoreNext(w, s)
    case ArchQueue(s) => ArchNext(w, s)
    case ArchRead(k, readable) => ArchNext(w, ArchReadStep(w.sys.db.docs, k, w.arch.jobs[k].m, readable))
    case ArchInsert(k, committed, acked) =>
      var doc := w.arch.jobs[k].data;
      var w1 := ArchNext(w, ArchInsertStep(k, doc, acked));
      if Terminal(doc) && committed then w1.(rows := InsertRow(w.rows, w.arch.jobs[k].m, doc)) else w1
    case HookQueue(s) => HookNext(w, s)
    case HookRead(k, readable) => HookNext(w, HookReadStep(w.sys.db.docs, k, w.hook.jobs[k].m, readable))
    case HookPost(k, answer) =>
      var note := w.hook.jobs[k].data;
      var w1 := HookNext(w, HookPostStep(w.registry, k, note, answer));
      var url := UrlOf(w.registry, note.publisher);
      if Delivered(answer) && url != "" then
        w1.(deliveries := w.deliveries + [Delivery(w.hook.jobs[k].m, url, note)])
      else w1
  }

  ghost predicate WIsRun(w: World, steps: seq<Step>)
    decreases |steps|
  {
    steps == [] || (WEnabled(w, steps[0]) && WIsRun(WNext(w, steps[0]), steps[1..]))
  }

  function WAfter(w: World, steps: seq<Step>): World
    requires WIsRun(w, steps)
    decreases |steps|
  {
    if steps == [] then w else WAfter(WNext(w, steps[0]), steps[1..])
  }

  /* ---- the archive invariant ---- */

  ghost predicate ArchJobOk(docs: map<Id, Doc>, job: W.Job<Id, Doc>) {
    job.Fetched? ==> job.m in docs && job.data == docs[job.m]
  }

  ghost predicate RowsOk(docs: map<Id, Doc>, rows: seq<Row>) {
    && (forall i, j | 0 <= i < j < |rows| :: rows[i].id != rows[j].id)
    && (forall i | 0 <= i < |rows| :: TerminalIn(docs, rows[i].id) && rows[i].doc == docs[rows[i].id])
  }

  ghost predicate ArchInv(db: Types.Db, x: W.Side<Id, Doc>, rows: seq<Row>) {
    && W.Inv(db.archive, x, 0)
    && (forall id :: id in x.enqueued <==> TerminalIn(db.docs, id))
    && (forall k | 0 <= k < |x.jobs| :: ArchJobOk(db.docs, x.jobs[k]))
    && RowsOk(db.docs, rows)
    && x.dropped == {}
    && (forall id | id in x.done :: HasRow(rows, id))
  }

  /* ---- the webhook invariant ---- */

  ghost predicate NoteMatches(docs: map<Id, Doc>, m: Member, note: Note) {
    FailedIn(docs, m) && note == NoteOf(docs[m.id].tasks[m.index])
  }

  ghost predicate HookJobOk(docs: map<Id, Doc>, job: W.Job<Member, Note>) {
    job.Fetched? ==> NoteMatches(docs, job.m, job.data)
  }

  ghost predicate DeliveryOk(docs: map<Id, Doc>, registry: map<string, string>, d: Delivery) {
    NoteMatches(docs, d.m, d.note) && d.url == UrlOf(registry, d.note.publisher) && d.url != ""
  }

  /** A FAILED task whose publisher has no failure URL: there is nowhere to deliver its webhook to. */
  ghost predicate NoReceiver(docs: map<Id, Doc>, registry: map<string, string>, m: Member) {
    FailedIn(docs, m) && UrlOf(registry, docs[m.id].tasks[m.index].spec.publisher) == ""
  }

  predicate HasDelivery(deliveries: seq<Delivery>, m: Member) {
    exists i :: 0 <= i < |deliveries| && deliveries[i].m == m
  }

  ghost predicate HookInv(db: Types.Db, x: W.Side<Member, Note>, deliveries: seq<Delivery>,
                          registry: map<string, string>) {
    && W.Inv(db.webhooks, x, WEBHOOK_MAX_ATTEMPTS)
    && (forall m :: m in x.enqueued <==> FailedIn(db.docs, m))
    && (forall k | 0 <= k < |x.jobs| :: HookJobOk(db.docs, x.jobs[k]))
    && (forall i | 0 <= i < |deliveries| :: DeliveryOk(db.docs, registry, deliveries[i]))
    && (forall m | m in x.dropped :: NoReceiver(db.docs, registry, m))
    && (forall m | m in x.done :: HasDelivery(deliveries, m))
  }

  ghost predicate WInv(w: World) {
    && Engine.Inv(w.sys)
    && AllFit(w.sys.db.docs)
    && ArchInv(w.sys.db, w.arch, w.rows)
    && HookInv(w.sys.db, w.hook, w.deliveries, w.registry)
  }

  /* ---- protocol steps ---- */

  /** FAILED tasks live in terminal instances, so their documents are frozen. */
  lemma FailedFrozen(docs: map<Id, Doc>, docs': map<Id, Doc>, m: Member)
    requires DocsInv(docs) && DocsLater(docs, docs') && FailedIn(docs, m)
    ensures m.id in docs' && docs'[m.id] == docs[m.id]
  {
    assert DocInv(docs[m.id]) && Later(docs[m.id], docs'[m.id]);
    assert Script.AnyFailed(docs[m.id].tasks);
  }

  lemma ArchCore(db: Types.Db, db': Types.Db, x: W.Side<Id, Doc>, rows: seq<Row>)
    requires ArchInv(db, x, rows) && Queued(db, db') && DocsLater(db.docs, db'.docs)
    ensures ArchInv(db', x.(enqueued := x.enqueued + db'.archive.Keys), rows)
  {
    var y := x.(enqueued := x.enqueued + db'.archive.Keys);
    hide W.AttemptsOk;
    W.EnqueueKeeps(db.archive, db'.archive, x, 0);
    assert forall id | TerminalIn(db.docs, id) :: id in db'.docs && db'.docs[id] == db.docs[id] by {
      assert forall id | id in db.docs :: Later(db.docs[id], db'.docs[id]);
    }
    forall id ensures id in y.enqueued <==> TerminalIn(db'.docs, id) {
    }
    forall k | 0 <= k < |y.jobs| ensures ArchJobOk(db'.docs, y.jobs[k]) {
      assert ArchJobOk(db.docs, x.jobs[k]) && W.JobOk(x, x.jobs[k]);
    }
  }

  lemma HookCore(db: Types.Db, db': Types.Db, x: W.Side<Member, Note>, deliveries: seq<Delivery>,
                 registry: map<string, string>)
    requires HookInv(db, x, deliveries, registry) && Queued(db, db') && DocsInv(db.docs) && DocsLater(db.docs, db'.docs)
    ensures HookInv(db', x.(enqueued := x.enqueued + db'.webhooks.Keys), deliveries, registry)
  {
    var y := x.(enqueued := x.enqueued + db'.webhooks.Keys);
    hide W.AttemptsOk, DocInv;
    W.EnqueueKeeps(db.webhooks, db'.webhooks, x, WEBHOOK_MAX_ATTEMPTS);
    forall m | FailedIn(db.docs, m) ensures FailedIn(db'.docs, m) && db'.docs[m.id] == db.docs[m.id] {
      FailedStays(db.docs, db'.docs, m);
      FailedFrozen(db.docs, db'.docs, m);
    }
    hide DocsLater, DocsInv;
    forall m ensures m in y.enqueued <==> FailedIn(db'.docs, m) {
    }
    forall k | 0 <= k < |y.jobs| ensures HookJobOk(db'.docs, y.jobs[k]) {
      assert HookJobOk(db.docs, x.jobs[k]) && W.JobOk(x, x.jobs[k]);
    }
    forall i | 0 <= i < |deliveries| ensures DeliveryOk(db'.docs, registry, deliveries[i]) {
      assert DeliveryOk(db.docs, registry, deliveries[i]);
    }
    forall m | m in y.dropped ensures NoReceiver(db'.docs, registry, m) {
      assert NoReceiver(db.docs, registry, m);
    }
  }

  lemma CoreKeeps(w: World, s: Engine.Step)
    requires WInv(w) && WEnabled(w, Core(s))
    ensures WInv(CoreNext(w, s))
  {
    var db, db' := w.sys.db, Next(w.sys, s).db;
    assert DocsInv(db.docs);
    hide Engine.Inv, Next, ArchInv, HookInv, AllFit, Queued, DocsLater, Enabled;
    StepKeeps(w.sys, s);
    StepQueued(w.sys, s);
    StepFits(w.sys, s);
    ArchCore(db, db', w.arch, w.rows);
    HookCore(db, db', w.hook, w.deliveries, w.registry);
  }

  /* ---- worker steps ---- */

  ghost predicate OnlyDrains(w: World, w': World) {
    && w'.sys == Next(w.sys, Drain(w'.sys.db.archive, w'.sys.db.webhooks))
    && w'.sys.db.docs == w.sys.db.docs && w'.sys.db.deadlines == w.sys.db.deadlines
    && w'.sys.pending == w.sys.pending && w'.sys.log == w.sys.log && w'.registry == w.registry
  }

  lemma ArchOnlyDrains(w: World, s: W.Step<Id, Doc>)
    requires W.Enabled(w.sys.db.archive, w.arch, s)
    ensures OnlyDrains(w, ArchNext(w, s))
  {
    hide W.NextZ, W.NextSide, W.Enabled, Batch, Fire, Resolve;
  }

  lemma HookOnlyDrains(w: World, s: W.Step<Member, Note>)
    requires W.Enabled(w.sys.db.webhooks, w.hook, s)
    ensures OnlyDrains(w, HookNext(w, s))
  {
    hide W.NextZ, W.NextSide, W.Enabled, Batch, Fire, Resolve;
  }

  /** A worker step is, for the protocol, a change of the two queues: no document or deadline moves. */
  lemma WorkersTouchNothing(w: World, step: Step)
    requires WEnabled(w, step) && !step.Core?
    ensures OnlyDrains(w, WNext(w, step))
  {
    hide ArchNext, HookNext, InsertRow, Next, Delivered, UrlOf, Codec.GoSplit, Codec.Print;
    match step
    case ArchQueue(s) => ArchOnlyDrains(w, s);
    case ArchRead(k, readable) =>
      var s := ArchReadStep(w.sys.db.docs, k, w.arch.jobs[k].m, readable);
      assert W.Enabled(w.sys.db.archive, w.arch, s);
      ArchOnlyDrains(w, s);
    case ArchInsert(k, committed, acked) =>
      ArchOnlyDrains(w, ArchInsertStep(k, w.arch.jobs[k].data, acked));
    case HookQueue(s) => HookOnlyDrains(w, s);
    case HookRead(k, readable) => HookOnlyDrains(w, HookReadStep(w.sys.db.docs, k, w.hook.jobs[k].m, readable));
    case HookPost(k, answer) => HookOnlyDrains(w, HookPostStep(w.registry, k, w.hook.jobs[k].data, answer));
  }

  lemma InsertOk(docs: map<Id, Doc>, rows: seq<Row>, id: Id)
    requires RowsOk(docs, rows) && TerminalIn(docs, id)
    ensures RowsOk(docs, InsertRow(rows, id, docs[id])) && HasRow(InsertRow(rows, id, docs[id]), id)
    ensures forall x | HasRow(rows, x) :: HasRow(InsertRow(rows, id, docs[id]), x)
  {
    var more := InsertRow(rows, id, docs[id]);
    if !HasRow(rows, id) {
      assert more[|rows|].id == id;
      forall x | HasRow(rows, x) ensures HasRow(more, x) {
        var i :| 0 <= i < |rows| && rows[i].id == x;
        assert more[i].id == x;
      }
    }
  }

  /** A queue step of the archive, with the rows it leaves. */
  lemma ArchStepKeeps(db: Types.Db, x: W.Side<Id, Doc>, rows: seq<Row>, s: W.Step<Id, Doc>, rows': seq<Row>)
    requires ArchInv(db, x, rows) && W.Enabled(db.archive, x, s)
    requires s.Fetch? ==> x.jobs[s.k].m in db.docs && s.data == db.docs[x.jobs[s.k].m]
    requires RowsOk(db.docs, rows') && forall id | HasRow(rows, id) :: HasRow(rows', id)
    requires s.Finish? ==> !s.result.Dropped? && (s.result.Success? ==> HasRow(rows', x.jobs[s.k].m))
    ensures ArchInv(db.(archive := W.NextZ(db.archive, x, s)), W.NextSide(db.archive, x, s, 0), rows')
  {
    hide W.Inv, HasRow, RowsOk, W.NextZ, W.NextSide, Terminal;
    W.StepKeeps(db.archive, x, s, 0);
    W.StepEffects(db.archive, x, s, 0);
    var y := W.NextSide(db.archive, x, s, 0);
    forall k | 0 <= k < |y.jobs| ensures ArchJobOk(db.docs, y.jobs[k]) {
      if k < |x.jobs| { assert ArchJobOk(db.docs, x.jobs[k]); }
    }
  }

  lemma HookStepKeeps(db: Types.Db, x: W.Side<Member, Note>, deliveries: seq<Delivery>, registry: map<string, string>,
                      s: W.Step<Member, Note>, deliveries': seq<Delivery>)
    requires HookInv(db, x, deliveries, registry) && W.Enabled(db.webhooks, x, s)
    requires s.Fetch? ==> NoteMatches(db.docs, x.jobs[s.k].m, s.data)
    requires forall i | 0 <= i < |deliveries'| :: DeliveryOk(db.docs, registry, deliveries'[i])
    requires forall m | HasDelivery(deliveries, m) :: HasDelivery(deliveries', m)
    requires s.Finish? && s.result.Success? ==> HasDelivery(deliveries', x.jobs[s.k].m)
    requires s.Finish? && s.result.Dropped? ==> NoReceiver(db.docs, registry, x.jobs[s.k].m)
    ensures HookInv(db.(webhooks := W.NextZ(db.webhooks, x, s)), W.NextSide(db.webhooks, x, s, WEBHOOK_MAX_ATTEMPTS),
                    deliveries', registry)
  {
    hide W.Inv, HasDelivery, NoteMatches, DeliveryOk, NoReceiver, W.NextZ, W.NextSide, FailedIn;
    W.StepKeeps(db.webhooks, x, s, WEBHOOK_MAX_ATTEMPTS);
    W.StepEffects(db.webhooks, x, s, WEBHOOK_MAX_ATTEMPTS);
    var y := W.NextSide(db.webhooks, x, s, WEBHOOK_MAX_ATTEMPTS);
    forall k | 0 <= k < |y.jobs| ensures HookJobOk(db.docs, y.jobs[k]) {
      if k < |x.jobs| { assert HookJobOk(db.docs, x.jobs[k]); }
    }
  }

  /** A job that is not over yet holds a member that was enqueued. */
  lemma JobEnqueued<K(!new), D>(z: map<K, int>, x: W.Side<K, D>, max: nat, k: nat)
    requires W.Inv(z, x, max) && k < |x.jobs| && !x.jobs[k].Ended?
    ensures x.jobs[k].m in x.enqueued
  {
    assert W.JobOk(x, x.jobs[k]);
  }

  lemma ArchReadOk(db: Types.Db, x: W.Side<Id, Doc>, rows: seq<Row>, k: nat, readable: bool)
    requires ArchInv(db, x, rows) && k < |x.jobs| && x.jobs[k].Claimed?
    ensures var s := ArchReadStep(db.docs, k, x.jobs[k].m, readable);
            && W.Enabled(db.archive, x, s)
            && ArchInv(db.(archive := W.NextZ(db.archive, x, s)), W.NextSide(db.archive, x, s, 0), rows)
  {
    JobEnqueued(db.archive, x, 0, k);
    var s := ArchReadStep(db.docs, k, x.jobs[k].m, readable);
    assert TerminalIn(db.docs, x.jobs[k].m) && RowsOk(db.docs, rows);
    hide W.Inv, ArchInv, RowsOk, W.NextZ, W.NextSide;
    ArchStepKeeps(db, x, rows, s, rows);
  }

  lemma ArchInsertOk(db: Types.Db, x: W.Side<Id, Doc>, rows: seq<Row>, k: nat, committed: bool, acked: bool)
    requires ArchInv(db, x, rows) && k < |x.jobs| && x.jobs[k].Fetched? && (acked ==> committed)
    ensures var doc := x.jobs[k].data;
            var s := ArchInsertStep(k, doc, acked);
            && W.Enabled(db.archive, x, s)
            && ArchInv(db.(archive := W.NextZ(db.archive, x, s)), W.NextSide(db.archive, x, s, 0),
                       if Terminal(doc) && committed then InsertRow(rows, x.jobs[k].m, doc) else rows)
  {
    JobEnqueued(db.archive, x, 0, k);
    var m, doc := x.jobs[k].m, x.jobs[k].data;
    var s := ArchInsertStep(k, doc, acked);
    assert ArchJobOk(db.docs, x.jobs[k]);
    assert TerminalIn(db.docs, m) && RowsOk(db.docs, rows);
    InsertOk(db.docs, rows, m);
    hide W.Inv, ArchInv, RowsOk, HasRow, InsertRow, W.NextZ, W.NextSide;
    ArchStepKeeps(db, x, rows, s, if committed then InsertRow(rows, m, doc) else rows);
  }

  /** A webhook job finds its task, with both names; what it reads is dropped exactly if nobody can be told. */
  lemma NoteResolves(docs: map<Id, Doc>, registry: map<string, string>, m: Member, k: nat, readable: bool,
                     answer: Answer)
    requires DocsInv(docs) && AllFit(docs) && FailedIn(docs, m)
    ensures var note := NoteOf(docs[m.id].tasks[m.index]);
            && HookReadStep(docs, k, m, readable) == (if readable then W.Fetch(k, note) else W.Finish(k, W.Error))
            && (HookPostStep(registry, k, note, answer) == W.Finish(k, W.Dropped)
                <==> !answer.LookupFailed? && NoReceiver(docs, registry, m))
  {
    var tasks := docs[m.id].tasks;
    assert DocInv(docs[m.id]) && Fits(Specs(tasks));
    assert Specs(tasks)[m.index] == tasks[m.index].spec;
    Codec.MemberRoundTrip(m.id, m.index);
    hide Codec.GoSplit, Codec.Print, Codec.LuaSplit;
  }

  lemma HookReadOk(db: Types.Db, x: W.Side<Member, Note>, deliveries: seq<Delivery>, registry: map<string, string>,
                   k: nat, readable: bool)
    requires HookInv(db, x, deliveries, registry) && DocsInv(db.docs) && AllFit(db.docs)
    requires k < |x.jobs| && x.jobs[k].Claimed?
    ensures var s := HookReadStep(db.docs, k, x.jobs[k].m, readable);
            && W.Enabled(db.webhooks, x, s)
            && HookInv(db.(webhooks := W.NextZ(db.webhooks, x, s)),
                       W.NextSide(db.webhooks, x, s, WEBHOOK_MAX_ATTEMPTS), deliveries, registry)
  {
    hide W.Inv, W.NextZ, W.NextSide, HookReadStep, DocsInv, AllFit, UrlOf, DeliveryOk, HasDelivery;
    JobEnqueued(db.webhooks, x, WEBHOOK_MAX_ATTEMPTS, k);
    var s := HookReadStep(db.docs, k, x.jobs[k].m, readable);
    NoteResolves(db.docs, registry, x.jobs[k].m, k, readable, NoAnswer);
    HookStepKeeps(db, x, deliveries, registry, s, deliveries);
  }

  lemma MoreDeliveries(docs: map<Id, Doc>, registry: map<string, string>, deliveries: seq<Delivery>, d: Delivery)
    requires forall i | 0 <= i < |deliveries| :: DeliveryOk(docs, registry, deliveries[i])
    requires DeliveryOk(docs, registry, d)
    ensures var more := deliveries + [d];
            && (forall i | 0 <= i < |more| :: DeliveryOk(docs, registry, more[i]))
            && HasDelivery(more, d.m) && forall m | HasDelivery(deliveries, m) :: HasDelivery(more, m)
  {
    hide DeliveryOk;
    var more := deliveries + [d];
    assert more[|deliveries|].m == d.m;
    forall m | HasDelivery(deliveries, m) ensures HasDelivery(more, m) {
      var i :| 0 <= i < |deliveries| && deliveries[i].m == m;
      assert more[i].m == m;
    }
  }

  lemma HookPostOk(db: Types.Db, x: W.Side<Member, Note>, deliveries: seq<Delivery>, registry: map<string, string>,
                   k: nat, answer: Answer)
    requires HookInv(db, x, deliveries, registry) && DocsInv(db.docs) && AllFit(db.docs)
    requires k < |x.jobs| && x.jobs[k].Fetched?
    ensures var note := x.jobs[k].data;
            var s := HookPostStep(registry, k, note, answer);
            var url := UrlOf(registry, note.publisher);
            && W.Enabled(db.webhooks, x, s)
            && HookInv(db.(webhooks := W.NextZ(db.webhooks, x, s)),
                       W.NextSide(db.webhooks, x, s, WEBHOOK_MAX_ATTEMPTS),
                       if Delivered(answer) && url != ""
                          then deliveries + [Delivery(x.jobs[k].m, url, note)] else deliveries,
                       registry)
  {
    hide W.Inv, W.NextZ, W.NextSide, HookReadStep, DocsInv, AllFit, UrlOf, HasDelivery;
    var m, note := x.jobs[k].m, x.jobs[k].data;
    var s, url := HookPostStep(registry, k, note, answer), UrlOf(registry, note.publisher);
    assert HookJobOk(db.docs, x.jobs[k]);
    NoteResolves(db.docs, registry, m, k, true, answer);
    if url != "" { MoreDeliveries(db.docs, registry, deliveries, Delivery(m, url, note)); }
    hide HookJobOk, DeliveryOk, NoteMatches, NoReceiver;
    HookStepKeeps(db, x, deliveries, registry, s,
                  if Delivered(answer) && url != "" then deliveries + [Delivery(m, url, note)] else deliveries);
  }

  /** The engine's own invariant does not speak of the queues. */
  lemma DrainKeeps(s: Sys, archive: map<Id, int>, webhooks: map<Member, int>)
    requires Engine.Inv(s)
    ensures Engine.Inv(Next(s, Drain(archive, webhooks)))
  {
    hide Engine.Inv, Next;
    StepKeeps(s, Drain(archive, webhooks));
  }

  lemma ArchInvElsewhere(db: Types.Db, webhooks: map<Member, int>, x: W.Side<Id, Doc>, rows: seq<Row>)
    requires ArchInv(db, x, rows)
    ensures ArchInv(db.(webhooks := webhooks), x, rows)
  {
    hide W.Inv, RowsOk;
  }

  lemma HookInvElsewhere(db: Types.Db, archive: map<Id, int>, x: W.Side<Member, Note>, deliveries: seq<Delivery>,
                         registry: map<string, string>)
    requires HookInv(db, x, deliveries, registry)
    ensures HookInv(db.(archive := archive), x, deliveries, registry)
  {
    hide W.Inv;
  }

  /** Putting a world together again after an archive step. */
  lemma ArchNextKeeps(w: World, s: W.Step<Id, Doc>, rows': seq<Row>)
    requires WInv(w) && W.Enabled(w.sys.db.archive, w.arch, s)
    requires var z := w.sys.db.archive;
             ArchInv(w.sys.db.(archive := W.NextZ(z, w.arch, s)), W.NextSide(z, w.arch, s, 0), rows')
    ensures WInv(ArchNext(w, s).(rows := rows'))
  {
    hide W.NextZ, W.NextSide, Engine.Inv, ArchInv, HookInv, AllFit, Batch, Fire, Resolve;
    var z' := W.NextZ(w.sys.db.archive, w.arch, s);
    DrainKeeps(w.sys, z', w.sys.db.webhooks);
    HookInvElsewhere(w.sys.db, z', w.hook, w.deliveries, w.registry);
  }

  lemma HookNextKeeps(w: World, s: W.Step<Member, Note>, deliveries': seq<Delivery>)
    requires WInv(w) && W.Enabled(w.sys.db.webhooks, w.hook, s)
    requires var z := w.sys.db.webhooks;
             HookInv(w.sys.db.(webhooks := W.NextZ(z, w.hook, s)), W.NextSide(z, w.hook, s, WEBHOOK_MAX_ATTEMPTS),
                     deliveries', w.registry)
    ensures WInv(HookNext(w, s).(deliveries := deliveries'))
  {
    hide W.NextZ, W.NextSide, Engine.Inv, ArchInv, HookInv, AllFit, Batch, Fire, Resolve;
    var z' := W.NextZ(w.sys.db.webhooks, w.hook, s);
    DrainKeeps(w.sys, w.sys.db.archive, z');
    ArchInvElsewhere(w.sys.db, z', w.arch, w.rows);
  }

  lemma QueueStepsKeep(w: World, step: Step)
    requires WInv(w) && WEnabled(w, step) && (step.ArchQueue? || step.HookQueue?)
    ensures WInv(WNext(w, step))
  {
    hide W.NextZ, W.NextSide, Engine.Inv, AllFit, ArchNext, HookNext, W.Inv, RowsOk, DeliveryOk, HasDelivery;
    match step
    case ArchQueue(s) =>
      ArchStepKeeps(w.sys.db, w.arch, w.rows, s, w.rows);
      ArchNextKeeps(w, s, w.rows);
      assert ArchNext(w, s) == ArchNext(w, s).(rows := w.rows) by { SameRows(w, s); }
    case HookQueue(s) =>
      HookStepKeeps(w.sys.db, w.hook, w.deliveries, w.registry, s, w.deliveries);
      HookNextKeeps(w, s, w.deliveries);
      assert HookNext(w, s) == HookNext(w, s).(deliveries := w.deliveries) by { SameDeliveries(w, s); }
  }

  lemma SameRows(w: World, s: W.Step<Id, Doc>)
    requires W.Enabled(w.sys.db.archive, w.arch, s)
    ensures ArchNext(w, s).rows == w.rows
  {
    hide W.NextZ, W.NextSide, Next, W.Enabled;
  }

  lemma SameDeliveries(w: World, s: W.Step<Member, Note>)
    requires W.Enabled(w.sys.db.webhooks, w.hook, s)
    ensures HookNext(w, s).deliveries == w.deliveries
  {
    hide W.NextZ, W.NextSide, Next, W.Enabled;
  }

  lemma ArchWorkKeeps(w: World, step: Step)
    requires WInv(w) && WEnabled(w, step) && (step.ArchRead? || step.ArchInsert?)
    ensures WInv(WNext(w, step))
  {
    hide W.NextZ, W.NextSide, WInv, ArchNext, W.Enabled, ArchReadStep, ArchInsertStep, InsertRow, ArchInv;
    assert ArchInv(w.sys.db, w.arch, w.rows) by { ArchOf(w); }
    match step
    case ArchRead(k, readable) =>
      ArchReadOk(w.sys.db, w.arch, w.rows, k, readable);
      var s := ArchReadStep(w.sys.db.docs, k, w.arch.jobs[k].m, readable);
      ArchNextKeeps(w, s, w.rows);
      SameRows(w, s);
    case ArchInsert(k, committed, acked) =>
      var doc := w.arch.jobs[k].data;
      var s := ArchInsertStep(k, doc, acked);
      ArchInsertOk(w.sys.db, w.arch, w.rows, k, committed, acked);
      ArchNextKeeps(w, s, if Terminal(doc) && committed then InsertRow(w.rows, w.arch.jobs[k].m, doc) else w.rows);
      SameRows(w, s);
  }

  lemma HookWorkKeeps(w: World, step: Step)
    requires WInv(w) && WEnabled(w, step) && (step.HookRead? || step.HookPost?)
    ensures WInv(WNext(w, step))
  {
    hide W.NextZ, W.NextSide, WInv, HookNext, W.Enabled, HookReadStep, HookPostStep, HookInv, UrlOf, DocsInv, AllFit;
    HookOf(w);
    match step
    case HookRead(k, readable) =>
      HookReadOk(w.sys.db, w.hook, w.deliveries, w.registry, k, readable);
      var s := HookReadStep(w.sys.db.docs, k, w.hook.jobs[k].m, readable);
      HookNextKeeps(w, s, w.deliveries);
      SameDeliveries(w, s);
    case HookPost(k, answer) =>
      var note := w.hook.jobs[k].data;
      var url := UrlOf(w.registry, note.publisher);
      var s := HookPostStep(w.registry, k, note, answer);
      HookPostOk(w.sys.db, w.hook, w.deliveries, w.registry, k, answer);
      HookNextKeeps(w, s, if Delivered(answer) && url != "" then w.deliveries + [Delivery(w.hook.jobs[k].m, url, note)]
                          else w.deliveries);
      SameDeliveries(w, s);
  }

  lemma ArchOf(w: World)
    requires WInv(w)
    ensures ArchInv(w.sys.db, w.arch, w.rows)
  {
    hide HookInv, AllFit, Engine.Inv;
  }

  lemma HookOf(w: World)
    requires WInv(w)
    ensures HookInv(w.sys.db, w.hook, w.deliveries, w.registry)
    ensures DocsInv(w.sys.db.docs) && AllFit(w.sys.db.docs)
  {
    hide HookInv, ArchInv, AllFit, DocsInv;
  }

  /** Every step of the whole engine keeps its invariant. */
  lemma WStepKeeps(w: World, step: Step)
    requires WInv(w) && WEnabled(w, step)
    ensures WInv(WNext(w, step))
  {
    hide WInv, CoreNext, ArchNext, HookNext;
    match step
    case Core(s) => CoreKeeps(w, s);
    case ArchQueue(_) => QueueStepsKeep(w, step);
    case HookQueue(_) => QueueStepsKeep(w, step);
    case ArchRead(_, _) => ArchWorkKeeps(w, step);
    case ArchInsert(_, _, _) => ArchWorkKeeps(w, step);
    case HookRead(_, _) => HookWorkKeeps(w, step);
    case HookPost(_, _) => HookWorkKeeps(w, step);
  }

  lemma {:induction false} WRunKeeps(w: World, steps: seq<Step>)
    requires WInv(w) && WIsRun(w, steps)
    ensures WInv(WAfter(w, steps))
    decreases |steps|
  {
    hide WInv, WNext, WEnabled;
    if steps != [] {
      WStepKeeps(w, steps[0]);
      WRunKeeps(WNext(w, steps[0]), steps[1..]);
    }
  }

  lemma InitInv(registry: map<string, string>)
    ensures WInv(WorldInit(registry))
  {
    assert Engine.Inv(INIT) by { ReachableInv([]); }
  }
}
