/**
 The engine as a state machine: starts, reports in their two steps (resolve, then run the
 script), reaper ticks, and arbitrary changes the queue workers make to their queues.
 Every interleaving of these steps is a run.
 */
module Engine {
  import opened Json
  import opened Types
  import opened Script
  import opened Lifecycle
  import Codec
  import ZSet

  /** A publish, consume or fail report. `service` is not consulted by a publish. */
  datatype Request = Request(
    action: Action, retry: bool, id: Id, topic: string, service: string, payload: Json)

  /** A report that has resolved its targets and not yet run the script. */
  datatype Pending = Pending(req: Request, idxs: seq<int>)

  /** One script run on an existing document, with everything it did. */
  datatype Event = Event(id: Id, call: Call, out: Outcome)

  datatype Sys = Sys(db: Db, pending: map<nat, Pending>, log: seq<Event>)

  datatype Step =
    | Start(id: Id, wf: Workflow, now: int)
    | Read(ticket: nat, req: Request)
    | Transition(ticket: nat, at: int)
    | Lost(ticket: nat)
    | Tick(at: int, limit: nat, due: seq<(Member, int)>)
    | Drain(archive: map<Id, int>, webhooks: map<Member, int>)

  const INIT := Sys(Db(map[], map[], map[], map[]), map[], [])

  /* ---- reports ---- */

  predicate IsReport(action: Action) {
    action.Publish? || action.Consume? || action.Fail?
  }

  predicate Matches(spec: TaskSpec, req: Request) {
    spec.topic == req.topic && (req.action.Publish? || spec.consumer == req.service)
  }

  /** The task indexes a report names, in index order. */
  function Resolve(specs: seq<TaskSpec>, req: Request): (idxs: seq<int>)
    ensures forall i :: i in idxs <==> 0 <= i < |specs| && Matches(specs[i], req)
    ensures forall m, n | 0 <= m < n < |idxs| :: idxs[m] < idxs[n]
  {
    if specs == [] then []
    else
      var last := |specs| - 1;
      var front := Resolve(specs[..last], req);
      assert forall n | 0 <= n < |front| :: front[n] in front;
      if Matches(specs[last], req) then front + [last] else front
  }

  function CallOf(req: Request, idxs: seq<int>, now: int): Call {
    Call(req.action, req.retry, idxs, now, req.payload)
  }

  /** A report resolved and run in one step: the specification of the two-step form. */
  function AtomicReport(db: Db, req: Request, now: int): (Db, Reply) {
    if req.id !in db.docs then (db, MISSING_INSTANCE)
    else if db.docs[req.id].tasks == [] then (db, Reply(BAD_SCHEMA, [], None, false, false, -1))
    else
      var idxs := Resolve(Specs(db.docs[req.id].tasks), req);
      if idxs == [] then (db, Reply(TASK_NOT_FOUND, [], None, false, false, -1))
      else Run(db, req.id, CallOf(req, idxs, now))
  }

  /** A new instance document cloned from a template. */
  function NewDoc(wf: Workflow, now: int): (d: Doc)
    ensures Specs(d.tasks) == wf.tasks && forall i | 0 <= i < |d.tasks| :: d.tasks[i].state == PENDING
  {
    Doc(wf.name, wf.version, wf.schemaVersion, InstPending, Seconds(now), 0, 0,
        seq(|wf.tasks|, i requires 0 <= i < |wf.tasks| => Task(wf.tasks[i], PENDING, 0, 0, 0, None)))
  }

  /* ---- the batch reaper ---- */

  function BatchCall(i: int, now: int): Call {
    Call(ReapBatch, false, [i], now, JStr(""))
  }

  function ReapCall(i: int, now: int): Call {
    Call(Reap, false, [i], now, JStr(""))
  }

  /** Run the script on one instance and record it. */
  function Fire(s: Sys, id: Id, c: Call): Sys {
    if id !in s.db.docs then s
    else var o := Eval(s.db.docs[id], c);
         s.(db := Apply(s.db, id, o, c.now), log := s.log + [Event(id, c, o)])
  }

  /** Recording does not change what the script does. */
  lemma FireRuns(s: Sys, id: Id, c: Call)
    ensures Fire(s, id, c).db == Run(s.db, id, c).0
  {
    hide Eval, Apply;
  }

  function DropDeadline(s: Sys, m: Member): Sys {
    s.(db := s.db.(deadlines := s.db.deadlines - {m}))
  }

  /** The body of the batch loop, for one member. */
  function BatchMember(s: Sys, now: int, m: Member): Sys {
    match Codec.Locate(m)
    case None => DropDeadline(s, m)
    case Some((id, i)) =>
      var (_, r) := Run(s.db, id, BatchCall(i, now));
      var s1 := Fire(s, id, BatchCall(i, now));
      if Unresolvable(r.code) then DropDeadline(s1, m) else s1
  }

  /** One reap_batch call over the due members it read. */
  function Batch(s: Sys, now: int, due: seq<(Member, int)>): Sys
    decreases |due|
  {
    if due == [] then s else Batch(BatchMember(s, now, due[0].0), now, due[1..])
  }

  /* ---- steps and runs ---- */

  /** The task list of a template is a Go slice. */
  predicate Fits(specs: seq<TaskSpec>) {
    |specs| <= Codec.MAX_INT
  }

  ghost predicate Enabled(s: Sys, step: Step) {
    match step
    case Start(id, wf, _) => id !in s.db.docs && ValidSpecs(wf.tasks) && Fits(wf.tasks)
    case Read(k, req) => k !in s.pending && IsReport(req.action)
    case Transition(k, _) => k in s.pending
    case Lost(k) => k in s.pending
    case Tick(now, limit, due) => ZSet.IsRange(s.db.deadlines, now, limit, due)
    case Drain(_, _) => true
  }

  function Next(s: Sys, step: Step): Sys {
    match step
    case Start(id, wf, now) => s.(db := s.db.(docs := s.db.docs[id := NewDoc(wf, now)]))
    case Read(k, req) =>
      if req.id !in s.db.docs then s
      else
        var idxs := Resolve(Specs(s.db.docs[req.id].tasks), req);
        if idxs == [] then s else s.(pending := s.pending[k := Pending(req, idxs)])
    case Transition(k, now) =>
      if k !in s.pending then s
      else
        var p := s.pending[k];
        Fire(s.(pending := s.pending - {k}), p.req.id, CallOf(p.req, p.idxs, now))
    case Lost(k) => s.(pending := s.pending - {k})
    case Tick(now, _, due) => Batch(s, now, due)
    case Drain(archive, webhooks) => s.(db := s.db.(archive := archive, webhooks := webhooks))
  }

  ghost predicate IsRun(s: Sys, steps: seq<Step>)
    decreases |steps|
  {
    steps == [] || (Enabled(s, steps[0]) && IsRun(Next(s, steps[0]), steps[1..]))
  }

  function After(s: Sys, steps: seq<Step>): Sys
    decreases |steps|
  {
    if steps == [] then s else After(Next(s, steps[0]), steps[1..])
  }

  /** What the two steps that run the script do, without their details. */
  lemma ScriptSteps(s: Sys, step: Step)
    ensures step.Tick? ==> Next(s, step) == Batch(s, step.at, step.due)
    ensures step.Transition? && step.ticket in s.pending ==>
              var p := s.pending[step.ticket];
              Next(s, step) == Fire(s.(pending := s.pending - {step.ticket}), p.req.id, CallOf(p.req, p.idxs, step.at))
    ensures !step.Tick? && !step.Transition? ==> Next(s, step).db.deadlines == s.db.deadlines
  {
    hide Batch, Fire, Resolve;
  }

  /* ---- reading the log ---- */

  /** OK answers, webhooks queued and archive jobs queued. */
  datatype Counts = Counts(oks: nat, hooks: nat, archives: nat)

  function EventCounts(e: Event): Counts {
    Counts(if e.out.reply.code == OK then 1 else 0, |e.out.failed|, if e.out.reply.terminalNow then 1 else 0)
  }

  /** The counts summed over the events of one instance. */
  function Tally(log: seq<Event>, id: Id): Counts {
    if log == [] then Counts(0, 0, 0)
    else
      var before := Tally(log[..|log| - 1], id);
      var e := log[|log| - 1];
      if e.id != id then before
      else
        var c := EventCounts(e);
        Counts(before.oks + c.oks, before.hooks + c.hooks, before.archives + c.archives)
  }

  /**
   An effective publish of task `i`, judged by its answer alone: accepted, with the task
   PUBLISHED and the instance live afterwards.
   */
  predicate EffectivePublish(e: Event, id: Id, i: nat) {
    && e.id == id && e.call.action.Publish? && Accepted(e.out.reply.code)
    && e.out.reply.inst == Some(InstPending)
    && |e.out.reply.states| == |e.call.idxs|
    && exists n :: 0 <= n < |e.call.idxs| && e.call.idxs[n] == i && e.out.reply.states[n] == PUBLISHED
  }

  function LastPublish(log: seq<Event>, id: Id, i: nat): Option<Call> {
    if log == [] then None
    else
      var e := log[|log| - 1];
      if EffectivePublish(e, id, i) then Some(e.call) else LastPublish(log[..|log| - 1], id, i)
  }

  lemma TallyAppend(log: seq<Event>, e: Event, id: Id)
    ensures var before := Tally(log, id);
            var c := EventCounts(e);
            Tally(log + [e], id)
            == if e.id != id then before
               else Counts(before.oks + c.oks, before.hooks + c.hooks, before.archives + c.archives)
  {
    assert (log + [e])[..|log|] == log;
  }

  lemma LastPublishAppend(log: seq<Event>, e: Event, id: Id, i: nat)
    ensures LastPublish(log + [e], id, i)
            == if EffectivePublish(e, id, i) then Some(e.call) else LastPublish(log, id, i)
  {
    assert (log + [e])[..|log|] == log;
  }

  lemma {:induction false} LogSilent(log: seq<Event>, id: Id)
    requires forall k | 0 <= k < |log| :: log[k].id != id
    ensures Tally(log, id) == Counts(0, 0, 0)
    ensures forall i :: LastPublish(log, id, i) == None
  {
    if log != [] { LogSilent(log[..|log| - 1], id); }
  }

  /* ---- the invariant ---- */

  ghost predicate Armed(docs: map<Id, Doc>, m: Member) {
    && m.TaskMember? && m.id in docs && m.index < |docs[m.id].tasks|
    && !Terminal(docs[m.id]) && docs[m.id].tasks[m.index].state == PUBLISHED
  }

  /** A deadline exists exactly for the PUBLISHED tasks of live instances. */
  ghost predicate DeadlinesAgree(db: Db) {
    forall m :: m in db.deadlines <==> Armed(db.docs, m)
  }

  /** The stamps, payload and publication of a task are those of its last effective publish. */
  predicate PublishedBy(t: Task, p: Option<Call>) {
    match p
    case None => t.state == PENDING && t.payload == None && t.publishedAt == 0
    case Some(c) => t.state != PENDING && t.payload == Some(c.payload) && t.publishedAt == Seconds(c.now)
  }

  ghost predicate TasksMatchLog(d: Doc, id: Id, log: seq<Event>) {
    forall i: nat | i < |d.tasks| :: PublishedBy(d.tasks[i], LastPublish(log, id, i))
  }

  ghost predicate TalliesMatch(d: Doc, id: Id, log: seq<Event>) {
    var counts := Tally(log, id);
    && counts.oks + Rank(d.tasks) <= 2 * |d.tasks|
    && counts.hooks == (if d.state == InstFailed then 1 else 0)
    && counts.archives == (if Terminal(d) then 1 else 0)
  }

  /** A deadline's score is the clock of the last effective publish plus the timeout. */
  ghost predicate ScoresMatch(db: Db, log: seq<Event>) {
    forall m | m in db.deadlines && Armed(db.docs, m) ::
      && LastPublish(log, m.id, m.index).Some?
      && db.deadlines[m] == LastPublish(log, m.id, m.index).value.now + db.docs[m.id].tasks[m.index].spec.timeout
  }

  ghost predicate LogKnown(docs: map<Id, Doc>, log: seq<Event>) {
    forall k | 0 <= k < |log| :: log[k].id in docs
  }

  ghost predicate DocMatchesLog(d: Doc, id: Id, log: seq<Event>) {
    TasksMatchLog(d, id, log) && TalliesMatch(d, id, log)
  }

  ghost predicate DocsMatchLog(docs: map<Id, Doc>, log: seq<Event>) {
    forall id | id in docs :: DocMatchesLog(docs[id], id, log)
  }

  ghost predicate LogInv(s: Sys) {
    LogKnown(s.db.docs, s.log) && DocsMatchLog(s.db.docs, s.log) && ScoresMatch(s.db, s.log)
  }

  ghost predicate DocsInv(docs: map<Id, Doc>) {
    forall id | id in docs :: DocInv(docs[id])
  }

  /** A pending report holds the indexes that its request still resolves to. */
  ghost predicate PendingInv(s: Sys) {
    forall k | k in s.pending ::
      var p := s.pending[k];
      && IsReport(p.req.action) && p.req.id in s.db.docs && p.idxs != []
      && p.idxs == Resolve(Specs(s.db.docs[p.req.id].tasks), p.req)
  }

  ghost predicate Inv(s: Sys) {
    DocsInv(s.db.docs) && DeadlinesAgree(s.db) && PendingInv(s) && LogInv(s)
  }

  /** Documents are never removed and only move forward. */
  ghost predicate DocsLater(docs: map<Id, Doc>, docs': map<Id, Doc>) {
    forall id | id in docs :: id in docs' && Later(docs[id], docs'[id])
  }

  /* ---- preservation by one script run ---- */

  /** Resolution as the engine does it gives well-targeted calls. */
  lemma ResolveTargets(d: Doc, req: Request, now: int)
    requires DocInv(d) && IsReport(req.action)
    requires Resolve(Specs(d.tasks), req) != []
    ensures WellTargeted(d, CallOf(req, Resolve(Specs(d.tasks), req), now))
  {
    var specs := Specs(d.tasks);
    var idxs := Resolve(specs, req);
    assert forall n | 0 <= n < |idxs| :: idxs[n] in idxs;
    if !req.action.Publish? {
      forall m, n | 0 <= m < |idxs| && 0 <= n < |idxs| ensures idxs[m] == idxs[n] {
        assert idxs[m] in idxs && idxs[n] in idxs;
      }
    }
  }

  /** A publish leaves its instance live. */
  lemma PublishStaysLive(d: Doc, c: Call)
    requires DocInv(d) && WellTargeted(d, c) && Commits(d, c) && c.action.Publish?
    ensures Commit(d, c).doc.state == InstPending && Commit(d, c).doc.tasks == WriteTasks(d, c)
  {
    CommitStates(d, c);
    CommitTargets(d, c);
    var tasks := WriteTasks(d, c);
    var i := c.idxs[0];
    assert i in c.idxs;
    assert !AnyFailed(tasks) by { assert !AnyFailed(d.tasks); }
    if AnyOk(d, c) {
      assert tasks[i].state == PUBLISHED;
      assert !AllCompleted(tasks);
    }
  }

  /** The answer tells which tasks a publish wrote. */
  lemma AnswerShowsPublish(id: Id, d: Doc, c: Call, i: nat)
    requires DocInv(d) && WellTargeted(d, c) && i < |d.tasks|
    ensures EffectivePublish(Event(id, c, Eval(d, c)), id, i)
            <==> Commits(d, c) && c.action.Publish? && i in Written(d, c)
  {
    var o := Eval(d, c);
    EvalCases(d, c);
    if Commits(d, c) && c.action.Publish? {
      PublishStaysLive(d, c);
      hide Eval, DocInv, WellTargeted, FirstRefusal, Settle;
      if i in Written(d, c) {
        var n :| 0 <= n < |c.idxs| && c.idxs[n] == i;
        assert o.reply.states[n] == PUBLISHED;
      }
    }
  }

  /** A publish writes exactly the tasks its answer shows, and nothing else touches publication data. */
  ghost predicate PublishShown(id: Id, d: Doc, c: Call, o: Outcome) {
    forall i: nat | i < |d.tasks| && i < |o.doc.tasks| ::
      if EffectivePublish(Event(id, c, o), id, i) then
        && PublishedBy(o.doc.tasks[i], Some(c))
        && i in o.armed && o.armed[i] == c.now + d.tasks[i].spec.timeout
      else
        && o.doc.tasks[i].payload == d.tasks[i].payload
        && o.doc.tasks[i].publishedAt == d.tasks[i].publishedAt
        && (o.doc.tasks[i].state == PENDING <==> d.tasks[i].state == PENDING)
        && i !in o.armed
  }

  /** An OK answer lowers the rank; webhooks and archive jobs are queued as the instance turns terminal. */
  ghost predicate Counted(d: Doc, o: Outcome) {
    && Rank(o.doc.tasks) + (if o.reply.code == OK then 1 else 0) <= Rank(d.tasks)
    && |o.failed| + (if d.state == InstFailed then 1 else 0) == (if o.doc.state == InstFailed then 1 else 0)
    && (o.reply.terminalNow <==> Terminal(o.doc) && !Terminal(d))
  }

  /** All that the rest of the proofs need to know about one run. */
  ghost predicate GoodOutcome(id: Id, d: Doc, c: Call, o: Outcome) {
    DocInv(o.doc) && Later(d, o.doc) && DeadlinesFollow(d, o) && PublishShown(id, d, c, o) && Counted(d, o)
  }

  lemma CommitPublishData(d: Doc, c: Call, i: nat)
    requires InRange(d, c.idxs) && i < |d.tasks|
    ensures var o := Commit(d, c);
            var t, t' := d.tasks[i], o.doc.tasks[i];
            if c.action.Publish? && i in Written(d, c) then
              PublishedBy(t', Some(c)) && i in o.armed && o.armed[i] == c.now + t.spec.timeout
            else
              && t'.payload == t.payload && t'.publishedAt == t.publishedAt && i !in o.armed
              && (t'.state == PENDING <==> t.state == PENDING)
  {
  }

  lemma EvalPublishShown(id: Id, d: Doc, c: Call)
    requires DocInv(d) && WellTargeted(d, c)
    ensures PublishShown(id, d, c, Eval(d, c))
  {
    EvalCases(d, c);
    hide EffectivePublish, DocInv, WellTargeted, Eval, PublishedBy, Commit, FirstRefusal;
    forall i: nat | i < |d.tasks|
      ensures EffectivePublish(Event(id, c, Eval(d, c)), id, i)
              <==> Commits(d, c) && c.action.Publish? && i in Written(d, c)
    {
      AnswerShowsPublish(id, d, c, i);
    }
    if Commits(d, c) {
      forall i: nat | i < |d.tasks| { CommitPublishData(d, c, i); }
    }
  }

  lemma CommitRank(d: Doc, c: Call)
    requires DocInv(d) && WellTargeted(d, c) && Commits(d, c)
    ensures Rank(WriteTasks(d, c)) + (if AnyOk(d, c) then 1 else 0) <= Rank(d.tasks)
  {
    CommitStates(d, c);
    RankMonotone(d.tasks, WriteTasks(d, c));
    assert c.idxs[0] in c.idxs;
  }

  lemma CommitFailures(d: Doc, c: Call)
    requires DocInv(d) && WellTargeted(d, c) && Commits(d, c)
    ensures |Commit(d, c).failed| == if AnyFailed(WriteTasks(d, c)) then 1 else 0
    ensures AnyFailed(WriteTasks(d, c)) ==> AnyOk(d, c)
  {
    var tasks := WriteTasks(d, c);
    var i := c.idxs[0];
    assert i in c.idxs;
    assert !AnyFailed(d.tasks);
    CommitTargets(d, c);
    if c.action.Publish? || c.action.Consume? || !AnyOk(d, c) {
      assert !AnyFailed(tasks);
      assert Commit(d, c).failed == {};
    } else {
      assert Commit(d, c).failed == {i};
      assert tasks[i].state == FAILED;
    }
  }

  lemma CommitCounted(d: Doc, c: Call)
    requires DocInv(d) && WellTargeted(d, c) && Commits(d, c)
    ensures Counted(d, Commit(d, c))
  {
    assert Commit(d, c).doc.tasks == WriteTasks(d, c);
    CommitRank(d, c);
    CommitFailures(d, c);
    hide Rank, WellTargeted;
  }

  lemma EvalGood(id: Id, d: Doc, c: Call)
    requires DocInv(d) && WellTargeted(d, c)
    ensures GoodOutcome(id, d, c, Eval(d, c))
  {
    EvalKeeps(d, c);
    EvalDeadlines(d, c);
    EvalPublishShown(id, d, c);
    EvalCases(d, c);
    if Commits(d, c) { CommitCounted(d, c); }
  }

  /** The state after a run with outcome `o`. */
  function Record(s: Sys, id: Id, c: Call, o: Outcome): Sys {
    s.(db := Apply(s.db, id, o, c.now), log := s.log + [Event(id, c, o)])
  }

  lemma RecordDeadline(db: Db, id: Id, o: Outcome, m: Member)
    requires DeadlinesAgree(db) && id in db.docs && DeadlinesFollow(db.docs[id], o)
    ensures m in Rearm(db.deadlines, id, o.armed, o.disarmed) <==> Armed(db.docs[id := o.doc], m)
  {
    assert m in db.deadlines <==> Armed(db.docs, m);
    if m.TaskMember? && m.id == id {
      assert Armed(db.docs, m) <==> Ticking(db.docs[id], m.index);
      assert Armed(db.docs[id := o.doc], m) <==> Ticking(o.doc, m.index);
    }
  }

  lemma RecordDeadlines(s: Sys, id: Id, c: Call, o: Outcome)
    requires DeadlinesAgree(s.db) && id in s.db.docs && GoodOutcome(id, s.db.docs[id], c, o)
    ensures DeadlinesAgree(Record(s, id, c, o).db)
  {
    hide Armed, Enqueue, DeadlinesFollow;
    forall m ensures m in Rearm(s.db.deadlines, id, o.armed, o.disarmed) <==> Armed(s.db.docs[id := o.doc], m) {
      RecordDeadline(s.db, id, o, m);
    }
  }

  lemma RecordScore(s: Sys, id: Id, c: Call, o: Outcome, m: Member)
    requires DeadlinesAgree(s.db) && ScoresMatch(s.db, s.log)
    requires id in s.db.docs && DeadlinesFollow(s.db.docs[id], o)
    requires PublishShown(id, s.db.docs[id], c, o) && Specs(o.doc.tasks) == Specs(s.db.docs[id].tasks)
    requires var s' := Record(s, id, c, o); m in s'.db.deadlines && Armed(s'.db.docs, m)
    ensures var s' := Record(s, id, c, o);
            && LastPublish(s'.log, m.id, m.index).Some?
            && s'.db.deadlines[m] == LastPublish(s'.log, m.id, m.index).value.now
                                     + s'.db.docs[m.id].tasks[m.index].spec.timeout
  {
    LastPublishAppend(s.log, Event(id, c, o), m.id, m.index);
    hide LastPublish;
    assert m in s.db.deadlines <==> Armed(s.db.docs, m);
    if m.id == id {
      assert Specs(o.doc.tasks)[m.index] == Specs(s.db.docs[id].tasks)[m.index];
      assert Ticking(o.doc, m.index);
    }
  }

  /** The log of an instance, after an event of its own. */
  lemma OwnLog(id: Id, d: Doc, c: Call, o: Outcome, log: seq<Event>)
    requires DocMatchesLog(d, id, log)
    requires Later(d, o.doc) && PublishShown(id, d, c, o) && Counted(d, o)
    ensures DocMatchesLog(o.doc, id, log + [Event(id, c, o)])
  {
    var e := Event(id, c, o);
    TallyAppend(log, e, id);
    assert |Specs(d.tasks)| == |Specs(o.doc.tasks)|;
    forall i: nat | i < |d.tasks| ensures PublishedBy(o.doc.tasks[i], LastPublish(log + [e], id, i)) {
      LastPublishAppend(log, e, id, i);
      assert PublishedBy(d.tasks[i], LastPublish(log, id, i));
    }
  }

  /** The log of an instance, after an event of another one. */
  lemma OtherLog(id: Id, d: Doc, e: Event, log: seq<Event>)
    requires DocMatchesLog(d, id, log) && e.id != id
    ensures DocMatchesLog(d, id, log + [e])
  {
    TallyAppend(log, e, id);
    forall i: nat | i < |d.tasks| ensures PublishedBy(d.tasks[i], LastPublish(log + [e], id, i)) {
      LastPublishAppend(log, e, id, i);
      assert PublishedBy(d.tasks[i], LastPublish(log, id, i));
    }
  }

  lemma RecordScores(s: Sys, id: Id, c: Call, o: Outcome)
    requires DeadlinesAgree(s.db) && ScoresMatch(s.db, s.log) && id in s.db.docs
    requires GoodOutcome(id, s.db.docs[id], c, o)
    ensures ScoresMatch(Record(s, id, c, o).db, Record(s, id, c, o).log)
  {
    var s' := Record(s, id, c, o);
    hide Counted, LastPublish, DocInv;
    forall m | m in s'.db.deadlines && Armed(s'.db.docs, m)
      ensures LastPublish(s'.log, m.id, m.index).Some?
      ensures s'.db.deadlines[m] == LastPublish(s'.log, m.id, m.index).value.now
                                    + s'.db.docs[m.id].tasks[m.index].spec.timeout
    {
      RecordScore(s, id, c, o, m);
    }
  }

  lemma RecordLog(docs: map<Id, Doc>, log: seq<Event>, id: Id, c: Call, o: Outcome)
    requires DocsMatchLog(docs, log) && id in docs && GoodOutcome(id, docs[id], c, o)
    ensures DocsMatchLog(docs[id := o.doc], log + [Event(id, c, o)])
  {
    OwnLog(id, docs[id], c, o, log);
    hide GoodOutcome, DocMatchesLog;
    forall x | x in docs && x != id ensures DocMatchesLog(docs[x], x, log + [Event(id, c, o)]) {
      OtherLog(x, docs[x], Event(id, c, o), log);
    }
  }

  lemma RecordDocs(s: Sys, id: Id, c: Call, o: Outcome)
    requires DocsInv(s.db.docs) && PendingInv(s) && id in s.db.docs && GoodOutcome(id, s.db.docs[id], c, o)
    ensures DocsInv(Record(s, id, c, o).db.docs) && PendingInv(Record(s, id, c, o))
    ensures DocsLater(s.db.docs, Record(s, id, c, o).db.docs)
  {
    hide DocInv, StateLater;
    var docs := s.db.docs;
    var s' := Record(s, id, c, o);
    forall x | x in docs ensures DocInv(s'.db.docs[x]) && Later(docs[x], s'.db.docs[x]) {
      if x != id {
        assert DocInv(docs[x]);
        LaterReflexive(docs[x]);
      }
    }
    assert forall x | x in docs :: Specs(s'.db.docs[x].tasks) == Specs(docs[x].tasks);
  }

  lemma RecordKeeps(s: Sys, id: Id, c: Call, o: Outcome)
    requires Inv(s) && id in s.db.docs && GoodOutcome(id, s.db.docs[id], c, o)
    ensures Inv(Record(s, id, c, o)) && DocsLater(s.db.docs, Record(s, id, c, o).db.docs)
  {
    hide GoodOutcome, DocsInv, DeadlinesAgree, PendingInv, DocsMatchLog, ScoresMatch, DocsLater;
    RecordDeadlines(s, id, c, o);
    RecordDocs(s, id, c, o);
    RecordScores(s, id, c, o);
    RecordLog(s.db.docs, s.log, id, c, o);
  }

  /** One script run keeps the invariant. */
  lemma FireKeeps(s: Sys, id: Id, c: Call)
    requires Inv(s) && id in s.db.docs && WellTargeted(s.db.docs[id], c)
    ensures Inv(Fire(s, id, c)) && DocsLater(s.db.docs, Fire(s, id, c).db.docs)
  {
    EvalGood(id, s.db.docs[id], c);
    RecordKeeps(s, id, c, Eval(s.db.docs[id], c));
  }

  /* ---- preservation by every step ---- */

  ghost predicate Addressable(docs: map<Id, Doc>, m: Member) {
    m.TaskMember? && m.id in docs && m.index < |docs[m.id].tasks|
  }

  /** A batch member that names an existing task is run, never dropped. */
  lemma BatchMemberFires(s: Sys, now: int, m: Member)
    requires Addressable(s.db.docs, m)
    ensures BatchMember(s, now, m) == Fire(s, m.id, BatchCall(m.index, now))
    ensures WellTargeted(s.db.docs[m.id], BatchCall(m.index, now))
  {
    var c := BatchCall(m.index, now);
    assert c.idxs[0] == m.index;
    EvalFound(s.db.docs[m.id], c);
    assert Run(s.db, m.id, c).1 == Eval(s.db.docs[m.id], c).reply;
  }

  lemma DocsLaterTransitive(a: map<Id, Doc>, b: map<Id, Doc>, c: map<Id, Doc>)
    requires DocsLater(a, b) && DocsLater(b, c)
    ensures DocsLater(a, c)
  {
    forall id | id in a ensures id in c && Later(a[id], c[id]) {
      LaterTransitive(a[id], b[id], c[id]);
    }
  }

  lemma DocsLaterReflexive(docs: map<Id, Doc>)
    ensures DocsLater(docs, docs)
  {
    forall id | id in docs ensures Later(docs[id], docs[id]) { LaterReflexive(docs[id]); }
  }

  lemma AddressableLater(docs: map<Id, Doc>, docs': map<Id, Doc>, m: Member)
    requires Addressable(docs, m) && DocsLater(docs, docs')
    ensures Addressable(docs', m)
  {
    assert |Specs(docs[m.id].tasks)| == |Specs(docs'[m.id].tasks)|;
  }

  lemma {:induction false} BatchKeeps(s: Sys, now: int, due: seq<(Member, int)>)
    requires Inv(s) && forall k | 0 <= k < |due| :: Addressable(s.db.docs, due[k].0)
    ensures Inv(Batch(s, now, due)) && DocsLater(s.db.docs, Batch(s, now, due).db.docs)
    decreases |due|
  {
    if due == [] {
      DocsLaterReflexive(s.db.docs);
    } else {
      var m := due[0].0;
      var s1 := BatchMember(s, now, m);
      BatchMemberFires(s, now, m);
      FireKeeps(s, m.id, BatchCall(m.index, now));
      forall k | 0 <= k < |due[1..]| ensures Addressable(s1.db.docs, due[1..][k].0) {
        AddressableLater(s.db.docs, s1.db.docs, due[k + 1].0);
      }
      BatchKeeps(s1, now, due[1..]);
      DocsLaterTransitive(s.db.docs, s1.db.docs, Batch(s, now, due).db.docs);
    }
  }

  lemma DueAddressable(s: Sys, now: int, limit: nat, due: seq<(Member, int)>)
    requires Inv(s) && ZSet.IsRange(s.db.deadlines, now, limit, due)
    ensures forall k | 0 <= k < |due| :: Armed(s.db.docs, due[k].0) && Addressable(s.db.docs, due[k].0)
  {
    assert forall k | 0 <= k < |due| :: due[k].0 in s.db.deadlines;
  }

  /** A new instance satisfies the document invariant. */
  lemma NewDocInv(wf: Workflow, now: int)
    requires ValidSpecs(wf.tasks)
    ensures DocInv(NewDoc(wf, now))
  {
    assert NewDoc(wf, now).tasks[0].state == PENDING;
  }

  lemma StartLog(docs: map<Id, Doc>, log: seq<Event>, id: Id, wf: Workflow, now: int)
    requires LogKnown(docs, log) && DocsMatchLog(docs, log) && id !in docs
    ensures LogKnown(docs[id := NewDoc(wf, now)], log) && DocsMatchLog(docs[id := NewDoc(wf, now)], log)
  {
    var d := NewDoc(wf, now);
    LogSilent(log, id);
    RankFresh(d.tasks);
    assert DocMatchesLog(d, id, log);
    hide DocMatchesLog, NewDoc;
    assert forall x | x in docs :: DocMatchesLog(docs[x], x, log);
  }

  lemma StartDeadlines(db: Db, log: seq<Event>, id: Id, wf: Workflow, now: int)
    requires DeadlinesAgree(db) && ScoresMatch(db, log) && id !in db.docs
    ensures var db' := db.(docs := db.docs[id := NewDoc(wf, now)]); DeadlinesAgree(db') && ScoresMatch(db', log)
  {
    hide LastPublish;
    var docs := db.docs[id := NewDoc(wf, now)];
    forall m ensures m in db.deadlines <==> Armed(docs, m) {
      assert m in db.deadlines <==> Armed(db.docs, m);
    }
  }

  lemma StartDocs(s: Sys, id: Id, wf: Workflow, now: int)
    requires DocsInv(s.db.docs) && PendingInv(s) && id !in s.db.docs && ValidSpecs(wf.tasks)
    ensures var s' := Next(s, Start(id, wf, now));
            DocsInv(s'.db.docs) && PendingInv(s') && DocsLater(s.db.docs, s'.db.docs)
  {
    hide DocInv, Later, NewDoc, Resolve, Batch, Fire;
    NewDocInv(wf, now);
    DocsLaterReflexive(s.db.docs);
  }

  lemma StartKeeps(s: Sys, id: Id, wf: Workflow, now: int)
    requires Inv(s) && id !in s.db.docs && ValidSpecs(wf.tasks)
    ensures var s' := Next(s, Start(id, wf, now)); Inv(s') && DocsLater(s.db.docs, s'.db.docs)
  {
    hide NewDoc, DocsInv, DeadlinesAgree, PendingInv, LogKnown, DocsMatchLog, ScoresMatch, DocsLater;
    StartDocs(s, id, wf, now);
    StartDeadlines(s.db, s.log, id, wf, now);
    StartLog(s.db.docs, s.log, id, wf, now);
  }

  lemma ForgetKeeps(s: Sys, k: nat)
    requires Inv(s)
    ensures Inv(s.(pending := s.pending - {k}))
  {
    assert PendingInv(s.(pending := s.pending - {k}));
  }

  lemma PendingTargeted(s: Sys, k: nat, now: int)
    requires Inv(s) && k in s.pending
    ensures var p := s.pending[k];
            p.req.id in s.db.docs && WellTargeted(s.db.docs[p.req.id], CallOf(p.req, p.idxs, now))
  {
    var p := s.pending[k];
    assert DocInv(s.db.docs[p.req.id]);
    ResolveTargets(s.db.docs[p.req.id], p.req, now);
  }

  lemma TransitionKeeps(s: Sys, k: nat, now: int)
    requires Inv(s) && k in s.pending
    ensures var s' := Next(s, Transition(k, now)); Inv(s') && DocsLater(s.db.docs, s'.db.docs)
  {
    hide Inv, Eval, Apply, WellTargeted, DocsLater;
    var p := s.pending[k];
    ForgetKeeps(s, k);
    PendingTargeted(s, k, now);
    FireKeeps(s.(pending := s.pending - {k}), p.req.id, CallOf(p.req, p.idxs, now));
  }

  /** Every step keeps the invariant and moves documents only forward. */
  lemma StepKeeps(s: Sys, step: Step)
    requires Inv(s) && Enabled(s, step)
    ensures Inv(Next(s, step)) && DocsLater(s.db.docs, Next(s, step).db.docs)
  {
    match step
    case Start(id, wf, now) => StartKeeps(s, id, wf, now);
    case Transition(k, now) => TransitionKeeps(s, k, now);
    case Tick(now, limit, due) =>
      DueAddressable(s, now, limit, due);
      BatchKeeps(s, now, due);
    case _ =>
      DocsLaterReflexive(s.db.docs);
  }

  lemma {:induction false} RunKeeps(s: Sys, steps: seq<Step>)
    requires Inv(s) && IsRun(s, steps)
    ensures Inv(After(s, steps)) && DocsLater(s.db.docs, After(s, steps).db.docs)
    decreases |steps|
  {
    if steps == [] {
      DocsLaterReflexive(s.db.docs);
    } else {
      var s1 := Next(s, steps[0]);
      StepKeeps(s, steps[0]);
      RunKeeps(s1, steps[1..]);
      DocsLaterTransitive(s.db.docs, s1.db.docs, After(s, steps).db.docs);
    }
  }

  /** The invariant holds in every reachable state. */
  lemma ReachableInv(steps: seq<Step>)
    requires IsRun(INIT, steps)
    ensures Inv(After(INIT, steps))
  {
    RunKeeps(INIT, steps);
  }

  /* ---- task lists ---- */

  /** Only a start adds a document. */
  lemma StepDocs(s: Sys, step: Step)
    requires Inv(s) && Enabled(s, step)
    ensures forall id | id in Next(s, step).db.docs && id !in s.db.docs ::
              step.Start? && Specs(Next(s, step).db.docs[id].tasks) == step.wf.tasks
  {
    hide Inv, Batch, Fire, Resolve, NewDoc;
    ScriptSteps(s, step);
    match step
    case Tick(now, limit, due) => BatchDocs(s, now, due);
    case Transition(k, now) =>
      FireDocs(s.(pending := s.pending - {k}), s.pending[k].req.id, CallOf(s.pending[k].req, s.pending[k].idxs, now));
    case _ =>
  }

  lemma FireDocs(s: Sys, id: Id, c: Call)
    ensures Fire(s, id, c).db.docs.Keys == s.db.docs.Keys
  {
    hide Eval, Rearm, Enqueue;
  }

  lemma BatchMemberDocs(s: Sys, now: int, m: Member)
    ensures BatchMember(s, now, m).db.docs.Keys == s.db.docs.Keys
  {
    hide Fire, Run, Codec.LuaSplit, Codec.Print;
    match Codec.Locate(m)
    case None =>
    case Some((id, i)) => FireDocs(s, id, BatchCall(i, now));
  }

  lemma {:induction false} BatchDocs(s: Sys, now: int, due: seq<(Member, int)>)
    ensures Batch(s, now, due).db.docs.Keys == s.db.docs.Keys
    decreases |due|
  {
    hide BatchMember;
    if due != [] {
      BatchMemberDocs(s, now, due[0].0);
      BatchDocs(BatchMember(s, now, due[0].0), now, due[1..]);
    }
  }

  ghost predicate AllFit(docs: map<Id, Doc>) {
    forall id | id in docs :: Fits(Specs(docs[id].tasks))
  }

  lemma StepFits(s: Sys, step: Step)
    requires Inv(s) && AllFit(s.db.docs) && Enabled(s, step)
    ensures AllFit(Next(s, step).db.docs)
  {
    StepKeeps(s, step);
    StepDocs(s, step);
    hide Inv, Next, Fits;
    var docs, docs' := s.db.docs, Next(s, step).db.docs;
    forall id | id in docs' ensures Fits(Specs(docs'[id].tasks)) {
      if id in docs { assert Later(docs[id], docs'[id]); }
    }
  }

  lemma {:induction false} RunFits(s: Sys, steps: seq<Step>)
    requires Inv(s) && AllFit(s.db.docs) && IsRun(s, steps)
    ensures AllFit(After(s, steps).db.docs)
    decreases |steps|
  {
    hide Inv, Next, Enabled, DocsLater, AllFit;
    if steps != [] {
      StepKeeps(s, steps[0]);
      StepFits(s, steps[0]);
      RunFits(Next(s, steps[0]), steps[1..]);
    }
  }

  lemma ReachableFits(steps: seq<Step>)
    requires IsRun(INIT, steps)
    ensures AllFit(After(INIT, steps).db.docs)
  {
    ReachableInv([]);
    hide After, IsRun, Inv;
    RunFits(INIT, steps);
  }
}
