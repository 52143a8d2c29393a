/**
 The promises of a report, written out: which code it is answered with, and what it leaves in every
 document, deadline and queue. Nothing here refers to how the script or the engine computes it.
 */
module Contract {
  import opened Types
  import opened Script
  import opened Lifecycle
  import opened Engine
  import opened Reports
  import H = History
  import Q = Enqueues
  import R = Reaper
  import ZSet

  /* ---- the answer ---- */

  /** The report names the task: by topic for a publish, by topic and consumer otherwise. */
  predicate Names(spec: TaskSpec, req: Request) {
    spec.topic == req.topic && (req.action == Publish || spec.consumer == req.service)
  }

  /** The code for a report that names an instance and a task of it in the given state. */
  predicate TaskAnswer(live: bool, req: Request, state: TaskState, code: Code) {
    match req.action
    case Publish =>
      && (code == OK <==> live && state == PENDING)
      && (code == INSTANCE_TERMINAL <==> !live && state == PENDING)
      && (code == IDEMPOTENT <==> req.retry && state != PENDING)
      && (code.TASK_ALREADY? <==> !req.retry && state != PENDING)
    case Consume =>
      && (code == OK <==> live && state == PUBLISHED)
      && (code == INSTANCE_TERMINAL <==> !live && state == PUBLISHED)
      && (code == TASK_NOT_PUBLISHED <==> state == PENDING)
      && (code == IDEMPOTENT <==> req.retry && state == COMPLETED)
      && (code == TASK_ALREADY(COMPLETED) <==> !req.retry && state == COMPLETED)
      && (code == TASK_ALREADY(FAILED) <==> state == FAILED)
    case Fail =>
      && (code == OK <==> live && state == PUBLISHED)
      && (code == INSTANCE_TERMINAL <==> !live && state == PUBLISHED)
      && (code == TASK_NOT_PUBLISHED <==> state == PENDING)
      && (code == IDEMPOTENT <==> req.retry && state == FAILED)
      && (code == TASK_ALREADY(FAILED) <==> !req.retry && state == FAILED)
      && (code == TASK_ALREADY(COMPLETED) <==> state == COMPLETED)
    case _ => false
  }

  /** The report names task `i` and no task before it. */
  predicate FirstNamed(d: Doc, req: Request, i: int) {
    0 <= i < |d.tasks| && Names(d.tasks[i].spec, req) && forall j | 0 <= j < i :: !Names(d.tasks[j].spec, req)
  }

  predicate NamesNone(d: Doc, req: Request) {
    forall i | 0 <= i < |d.tasks| :: !Names(d.tasks[i].spec, req)
  }

  /** The code when no task is found. */
  predicate Found(docs: map<Id, Doc>, req: Request, code: Code) {
    && (code == NOT_FOUND <==> req.id !in docs)
    && (code == BAD_SCHEMA <==> req.id in docs && docs[req.id].tasks == [])
    && (code == TASK_NOT_FOUND <==> req.id in docs && docs[req.id].tasks != [] && NamesNone(docs[req.id], req))
  }

  /** The code of every report. */
  ghost predicate Answered(docs: map<Id, Doc>, req: Request, code: Code) {
    && Found(docs, req, code)
    && (req.id in docs ==>
          var d := docs[req.id];
          && (forall i | 0 <= i < |d.tasks| && Names(d.tasks[i].spec, req) ::
                TaskAnswer(d.state == InstPending, req, d.tasks[i].state, code))
          && (forall i | FirstNamed(d, req, i) && code.TASK_ALREADY? :: code == TASK_ALREADY(d.tasks[i].state)))
  }

  /* ---- the effect ---- */

  /** The task after the report: `wrote` says that it was written. */
  predicate TaskDone(t: Task, t': Task, req: Request, now: int, wrote: bool) {
    if !wrote then t' == t
    else
      && t'.spec == t.spec
      && match req.action
         case Publish =>
           && t'.state == PUBLISHED && t'.publishedAt == now / 1000 && t'.payload == Some(req.payload)
           && t'.consumedAt == t.consumedAt && t'.failedAt == t.failedAt
         case Consume =>
           && t'.state == COMPLETED && t'.consumedAt == now / 1000
           && t'.publishedAt == t.publishedAt && t'.payload == t.payload && t'.failedAt == t.failedAt
         case _ =>
           && t'.state == FAILED && t'.failedAt == now / 1000
           && t'.publishedAt == t.publishedAt && t'.payload == t.payload && t'.consumedAt == t.consumedAt
  }

  /** Which tasks a report with this answer writes: all it names, or on a retried publish those still PUBLISHED. */
  predicate WritesTask(d: Doc, req: Request, code: Code, i: int)
    requires 0 <= i < |d.tasks|
  {
    && Names(d.tasks[i].spec, req)
    && (|| code == OK
        || (code == IDEMPOTENT && req.action == Publish && d.state == InstPending && d.tasks[i].state == PUBLISHED))
  }

  predicate SameHead(d: Doc, d': Doc) {
    d'.name == d.name && d'.version == d.version && d'.schemaVersion == d.schemaVersion && d'.startedAt == d.startedAt
  }

  /** The instance after the report. */
  ghost predicate DocDone(d: Doc, d': Doc, req: Request, now: int, code: Code) {
    && SameHead(d, d') && |d'.tasks| == |d.tasks|
    && (forall i | 0 <= i < |d.tasks| :: TaskDone(d.tasks[i], d'.tasks[i], req, now, WritesTask(d, req, code, i)))
    && if code == OK && req.action == Fail then
         d'.state == InstFailed && d'.completedAt == now / 1000 && d'.failedAt == now / 1000
       else if code == OK && forall i | 0 <= i < |d'.tasks| :: d'.tasks[i].state == COMPLETED then
         d'.state == InstCompleted && d'.completedAt == now / 1000 && d'.failedAt == d.failedAt
       else d'.state == d.state && d'.completedAt == d.completedAt && d'.failedAt == d.failedAt
  }

  predicate TaskOf(m: Member, id: Id, d: Doc) {
    m.TaskMember? && m.id == id && m.index < |d.tasks|
  }

  /** The deadlines after the report: set by a publish, removed by a consume, all of the instance's by a failure. */
  ghost predicate DeadlinesDone(z: map<Member, int>, z': map<Member, int>, d: Doc, req: Request, now: int, code: Code) {
    forall m ::
      var mine := TaskOf(m, req.id, d);
      var wrote := mine && WritesTask(d, req, code, m.index);
      if req.action == Publish && wrote then m in z' && z'[m] == now + d.tasks[m.index].spec.timeout
      else if (req.action == Consume && wrote) || (req.action == Fail && code == OK && mine) then m !in z'
      else (m in z' <==> m in z) && (m in z' ==> z'[m] == z[m])
  }

  /** The queues after the report: an instance that just ended is due for the archive, a failed task for its webhook. */
  ghost predicate QueuesDone(db: Db, db': Db, d: Doc, d': Doc, req: Request, now: int, code: Code) {
    && db'.archive == (if d.state == InstPending && d'.state != InstPending then db.archive[req.id := now]
                       else db.archive)
    && forall m ::
         if req.action == Fail && code == OK && TaskOf(m, req.id, d) && WritesTask(d, req, code, m.index) then
           m in db'.webhooks && db'.webhooks[m] == now
         else (m in db'.webhooks <==> m in db.webhooks) && (m in db'.webhooks ==> db'.webhooks[m] == db.webhooks[m])
  }

  /** The store after the report. A report that is refused changes nothing. */
  ghost predicate Done(db: Db, db': Db, req: Request, now: int, code: Code) {
    if code != OK && code != IDEMPOTENT then db' == db
    else
      && req.id in db.docs && db'.docs.Keys == db.docs.Keys
      && (forall id | id in db.docs && id != req.id :: db'.docs[id] == db.docs[id])
      && var d, d' := db.docs[req.id], db'.docs[req.id];
         && DocDone(d, d', req, now, code)
         && DeadlinesDone(db.deadlines, db'.deadlines, d, req, now, code)
         && QueuesDone(db, db', d, d', req, now, code)
  }

  /* ---- the engine keeps the promise: answers ---- */

  lemma ResolvesNamed(d: Doc, req: Request)
    ensures var idxs := Resolve(Specs(d.tasks), req);
            && (forall i :: i in idxs <==> 0 <= i < |d.tasks| && Names(d.tasks[i].spec, req))
            && (idxs == [] <==> NamesNone(d, req))
            && (idxs != [] ==> FirstNamed(d, req, idxs[0]))
            && forall i | FirstNamed(d, req, i) :: idxs != [] && idxs[0] == i
  {
    hide Resolve;
    var specs, idxs := Specs(d.tasks), Resolve(Specs(d.tasks), req);
    forall i ensures i in idxs <==> 0 <= i < |d.tasks| && Names(d.tasks[i].spec, req) {
      assert 0 <= i < |d.tasks| ==> specs[i] == d.tasks[i].spec;
    }
    if idxs != [] {
      var f := idxs[0];
      assert f in idxs;
      forall x | x in idxs ensures x >= f {
        var n :| 0 <= n < |idxs| && idxs[n] == x;
      }
    }
  }

  /** The answer in the terms of the promise. */
  lemma AnswerIsPromised(d: Doc, req: Request, i: int)
    requires DocInv(d) && IsReport(req.action) && 0 <= i < |d.tasks|
    ensures TaskAnswer(d.state == InstPending, req, d.tasks[i].state,
                       Answer(d, req.action, req.retry, d.tasks[i].state))
  {
  }

  lemma FoundRuns(d: Doc, req: Request, now: int)
    requires IsReport(req.action) && d.tasks != [] && Resolve(Specs(d.tasks), req) != []
    ensures InRange(d, Resolve(Specs(d.tasks), req))
    ensures !Unresolvable(Eval(d, CallOf(req, Resolve(Specs(d.tasks), req), now)).reply.code)
  {
    hide Eval;
    var idxs := Resolve(Specs(d.tasks), req);
    assert forall n | 0 <= n < |idxs| :: idxs[n] in idxs;
    hide Resolve;
    EvalFound(d, CallOf(req, idxs, now));
  }

  /**
   On any store: a report is answered NOT_FOUND if and only if its instance does not exist, and
   TASK_NOT_FOUND if and only if the instance has tasks and the report names none of them.
   */
  lemma FoundExactly(db: Db, req: Request, now: int)
    requires IsReport(req.action)
    ensures Found(db.docs, req, AtomicReport(db, req, now).1.code)
  {
    if req.id in db.docs && db.docs[req.id].tasks != [] {
      var d := db.docs[req.id];
      ResolvesNamed(d, req);
      var idxs := Resolve(Specs(d.tasks), req);
      if idxs != [] {
        FoundRuns(d, req, now);
        RunDoc(db, req.id, CallOf(req, idxs, now));
      }
      hide Run, Eval, Resolve;
    }
  }

  /** The first target's answer is everybody's. */
  lemma AnswerForAll(d: Doc, req: Request, now: int, i: nat)
    requires DocInv(d) && IsReport(req.action) && i < |d.tasks| && Names(d.tasks[i].spec, req)
    ensures var code := Eval(d, CallOf(req, Resolve(Specs(d.tasks), req), now)).reply.code;
            TaskAnswer(d.state == InstPending, req, d.tasks[i].state, code)
            && (FirstNamed(d, req, i) && code.TASK_ALREADY? ==> code == TASK_ALREADY(d.tasks[i].state))
  {
    hide DocInv, WellTargeted, Eval, Names;
    ResolvesNamed(d, req);
    var idxs := Resolve(Specs(d.tasks), req);
    var c := CallOf(req, idxs, now);
    assert i in idxs && idxs[0] in idxs;
    ResolveTargets(d, req, now);
    hide Resolve;
    AnswerTable(d, c);
    H.SameForAllTargets(d, c, i);
    AnswerIsPromised(d, req, idxs[0]);
    if !req.action.Publish? { SingleTarget(d, c, i); }
    hide FirstNamed;
  }

  lemma SingleTarget(d: Doc, c: Call, i: nat)
    requires WellTargeted(d, c) && i in c.idxs && !c.action.Publish?
    ensures c.idxs[0] == i
  {
    var n :| 0 <= n < |c.idxs| && c.idxs[n] == i;
  }

  /** Every report, to any store with valid documents, is answered as promised. */
  lemma ReportAnswered(db: Db, req: Request, now: int)
    requires IsReport(req.action) && DocsInv(db.docs)
    ensures Answered(db.docs, req, AtomicReport(db, req, now).1.code)
  {
    FoundExactly(db, req, now);
    if req.id in db.docs {
      var d := db.docs[req.id];
      assert DocInv(d);
      ResolvesNamed(d, req);
      var idxs := Resolve(Specs(d.tasks), req);
      hide DocInv, Found, TaskAnswer, Names;
      forall i: nat | i < |d.tasks| && Names(d.tasks[i].spec, req)
        ensures var code := AtomicReport(db, req, now).1.code;
                TaskAnswer(d.state == InstPending, req, d.tasks[i].state, code)
                && (FirstNamed(d, req, i) && code.TASK_ALREADY? ==> code == TASK_ALREADY(d.tasks[i].state))
      {
        AnswerForAll(d, req, now, i);
        RunDoc(db, req.id, CallOf(req, idxs, now));
        hide Run, Eval, Resolve, FirstNamed;
        assert i in idxs;
      }
    }
  }

  /* ---- the engine keeps the promise: effects ---- */

  /** Which tasks an accepted call writes, in terms of its answer. */
  lemma WrittenIsNamed(d: Doc, req: Request, now: int, i: nat)
    requires DocInv(d) && IsReport(req.action) && i < |d.tasks|
    requires var c := CallOf(req, Resolve(Specs(d.tasks), req), now); WellTargeted(d, c) && Commits(d, c)
    ensures var c := CallOf(req, Resolve(Specs(d.tasks), req), now);
            i in Written(d, c) <==> WritesTask(d, req, if AnyOk(d, c) then OK else IDEMPOTENT, i)
  {
    var c := CallOf(req, Resolve(Specs(d.tasks), req), now);
    ResolvesNamed(d, req);
    CommitTargets(d, c);
    CommitStates(d, c);
    assert !Terminal(d) && InRange(d, c.idxs);
    hide DocInv, WellTargeted, Resolve, FirstRefusal, FirstNamed, NamesNone;
    if i in c.idxs {
      var n :| 0 <= n < |c.idxs| && c.idxs[n] == i;
      assert Accepted(DecideAt(d, c, n));
      assert AnyOk(d, c) <==> DecideAt(d, c, n) == OK;
    }
  }

  lemma StampIsDone(t: Task, req: Request, idxs: seq<int>, now: int)
    requires IsReport(req.action)
    ensures TaskDone(t, Stamp(t, CallOf(req, idxs, now)), req, now, true)
  {
  }

  /** What the instance state says about its tasks before and after an accepted report. */
  lemma CommitSettles(d: Doc, c: Call)
    requires DocInv(d) && WellTargeted(d, c) && Commits(d, c) && IsReport(c.action)
    ensures AnyFailed(WriteTasks(d, c)) <==> AnyOk(d, c) && c.action == Fail
  {
    CommitStates(d, c);
    CommitTargets(d, c);
    assert !AnyFailed(d.tasks);
    assert c.idxs[0] in c.idxs;
    hide DocInv, WellTargeted, FirstRefusal;
    var tasks := WriteTasks(d, c);
    if AnyOk(d, c) && c.action == Fail {
      assert tasks[c.idxs[0]].state == FAILED;
    }
  }

  lemma TasksDone(d: Doc, req: Request, now: int, i: nat)
    requires DocInv(d) && IsReport(req.action) && i < |d.tasks|
    requires var c := CallOf(req, Resolve(Specs(d.tasks), req), now); WellTargeted(d, c) && Commits(d, c)
    ensures var c := CallOf(req, Resolve(Specs(d.tasks), req), now);
            TaskDone(d.tasks[i], WriteTasks(d, c)[i], req, now,
                     WritesTask(d, req, if AnyOk(d, c) then OK else IDEMPOTENT, i))
  {
    var idxs := Resolve(Specs(d.tasks), req);
    var c := CallOf(req, idxs, now);
    WrittenIsNamed(d, req, now, i);
    StampIsDone(d.tasks[i], req, idxs, now);
    UntouchedIsDone(d.tasks[i], req, now);
    hide DocInv, WellTargeted, Resolve, Commits, FirstRefusal, Written, AnyOk, WritesTask, Stamp, TaskDone;
  }

  /** The instance transition, of a document whose tasks were written. */
  lemma SettledDone(d: Doc, tasks: seq<Task>, req: Request, now: int, ok: bool)
    requires |tasks| == |d.tasks| && (AnyFailed(tasks) <==> ok && req.action == Fail)
    requires forall i | 0 <= i < |tasks| ::
               TaskDone(d.tasks[i], tasks[i], req, now, WritesTask(d, req, if ok then OK else IDEMPOTENT, i))
    ensures var wrote := d.(tasks := tasks);
            DocDone(d, if ok then Settle(wrote, now) else wrote, req, now, if ok then OK else IDEMPOTENT)
  {
    hide AnyFailed, TaskDone, WritesTask;
  }

  lemma CommitDocDone(d: Doc, req: Request, now: int)
    requires DocInv(d) && IsReport(req.action)
    requires var c := CallOf(req, Resolve(Specs(d.tasks), req), now); WellTargeted(d, c) && Commits(d, c)
    ensures var c := CallOf(req, Resolve(Specs(d.tasks), req), now);
            DocDone(d, Commit(d, c).doc, req, now, if AnyOk(d, c) then OK else IDEMPOTENT)
  {
    var c := CallOf(req, Resolve(Specs(d.tasks), req), now);
    CommitSettles(d, c);
    CommitParts(d, c);
    forall i: nat | i < |d.tasks|
      ensures TaskDone(d.tasks[i], WriteTasks(d, c)[i], req, now,
                       WritesTask(d, req, if AnyOk(d, c) then OK else IDEMPOTENT, i))
    {
      TasksDone(d, req, now, i);
    }
    hide DocInv, WellTargeted, Resolve, Commits, FirstRefusal, AnyOk, AnyFailed, TaskDone, WritesTask, Commit, DocDone,
         WriteTasks, Settle;
    SettledDone(d, WriteTasks(d, c), req, now, AnyOk(d, c));
  }

  lemma UntouchedIsDone(t: Task, req: Request, now: int)
    ensures TaskDone(t, t, req, now, false)
  {
  }

  /** What a report with this answer writes, sets and removes. */
  ghost predicate Does(d: Doc, req: Request, now: int, code: Code, o: Outcome) {
    && (req.action == Publish ==>
          o.disarmed == {} && o.failed == {}
          && (forall i: nat :: i in o.armed <==> i < |d.tasks| && WritesTask(d, req, code, i))
          && forall i | i in o.armed :: o.armed[i] == now + d.tasks[i].spec.timeout)
    && (req.action == Consume ==>
          o.armed == map[] && o.failed == {}
          && forall i: nat :: i in o.disarmed <==> i < |d.tasks| && WritesTask(d, req, code, i))
    && (req.action == Fail ==>
          o.armed == map[]
          && (forall i: nat :: i in o.disarmed <==> i < |d.tasks| && code == OK)
          && forall i: nat :: i in o.failed <==> i < |d.tasks| && code == OK && WritesTask(d, req, code, i))
  }

  lemma DoesDeadlines(z: map<Member, int>, d: Doc, req: Request, now: int, code: Code, o: Outcome)
    requires IsReport(req.action) && Does(d, req, now, code, o)
    ensures DeadlinesDone(z, Rearm(z, req.id, o.armed, o.disarmed), d, req, now, code)
  {
    hide Rearm, WritesTask;
  }

  lemma DoesQueues(db: Db, d: Doc, req: Request, now: int, code: Code, o: Outcome)
    requires req.id in db.docs && IsReport(req.action) && Does(d, req, now, code, o)
    requires o.reply.terminalNow <==> Terminal(o.doc) && !Terminal(d)
    ensures QueuesDone(db, Apply(db, req.id, o, now), d, o.doc, req, now, code)
  {
    hide Rearm, Enqueue, WritesTask;
  }

  /** The deadlines and webhooks of an accepted report, by the tasks it writes. */
  ghost predicate Shape(d: Doc, c: Call, o: Outcome, w: set<nat>, ok: bool) {
    && (c.action == Publish ==>
          o.armed.Keys == w && o.disarmed == {} && o.failed == {}
          && forall i | i in w :: i < |d.tasks| && o.armed[i] == c.now + d.tasks[i].spec.timeout)
    && (c.action == Consume ==> o.armed == map[] && o.disarmed == w && o.failed == {})
    && (c.action == Fail ==>
          o.armed == map[] && o.failed == w && o.disarmed == if ok then Below(|d.tasks|) else w)
  }

  lemma CommitShape(d: Doc, c: Call)
    requires DocInv(d) && WellTargeted(d, c) && Commits(d, c) && IsReport(c.action)
    ensures Shape(d, c, Commit(d, c), Written(d, c), AnyOk(d, c))
  {
    CommitSettles(d, c);
    CommitParts(d, c);
    hide DocInv, WellTargeted, Commits, FirstRefusal, AnyOk, AnyFailed, Commit, WriteTasks, Settle, Below;
  }

  lemma ShapeDoes(d: Doc, req: Request, c: Call, o: Outcome, w: set<nat>, ok: bool)
    requires Shape(d, c, o, w, ok) && c.action == req.action
    requires forall i: nat :: i in w <==> i < |d.tasks| && WritesTask(d, req, if ok then OK else IDEMPOTENT, i)
    ensures Does(d, req, c.now, if ok then OK else IDEMPOTENT, o)
  {
    if req.action == Fail { NotFailedUnlessOk(d, req, c.now); }
    hide WritesTask;
  }

  lemma CommitDoes(d: Doc, req: Request, now: int)
    requires DocInv(d) && IsReport(req.action)
    requires var c := CallOf(req, Resolve(Specs(d.tasks), req), now); WellTargeted(d, c) && Commits(d, c)
    ensures var c := CallOf(req, Resolve(Specs(d.tasks), req), now);
            Does(d, req, now, if AnyOk(d, c) then OK else IDEMPOTENT, Commit(d, c))
  {
    var c := CallOf(req, Resolve(Specs(d.tasks), req), now);
    CommitShape(d, c);
    var code := if AnyOk(d, c) then OK else IDEMPOTENT;
    forall i: nat ensures i in Written(d, c) <==> i < |d.tasks| && WritesTask(d, req, code, i) {
      if i < |d.tasks| { WrittenIsNamed(d, req, now, i); }
    }
    hide DocInv, WellTargeted, Resolve, Commits, FirstRefusal, AnyOk, WritesTask, Commit, Shape, Does, Written;
    ShapeDoes(d, req, c, Commit(d, c), Written(d, c), AnyOk(d, c));
  }

  /** A fail report that is a duplicate writes no task. */
  lemma NotFailedUnlessOk(d: Doc, req: Request, now: int)
    requires req.action == Fail
    ensures forall i | 0 <= i < |d.tasks| :: !WritesTask(d, req, IDEMPOTENT, i)
  {
  }

  /** A duplicate on a terminal instance, or any report that is refused, leaves the store as it is. */
  lemma NothingDone(db: Db, req: Request, now: int, code: Code)
    requires req.id in db.docs && code != OK && (code == IDEMPOTENT ==> db.docs[req.id].state != InstPending)
    ensures Done(db, db, req, now, code)
  {
    hide Names;
  }

  lemma UncommittedDone(db: Db, req: Request, now: int)
    requires req.id in db.docs && DocInv(db.docs[req.id]) && IsReport(req.action)
    requires var c := CallOf(req, Resolve(Specs(db.docs[req.id].tasks), req), now); !Commits(db.docs[req.id], c)
    ensures var c := CallOf(req, Resolve(Specs(db.docs[req.id].tasks), req), now);
            var (db', reply) := Run(db, req.id, c);
            Done(db, db', req, now, reply.code)
  {
    var d := db.docs[req.id];
    var c := CallOf(req, Resolve(Specs(d.tasks), req), now);
    EvalCases(d, c);
    hide Eval, DocInv, Commits, Resolve, Apply, Done;
    ApplyNothing(db, req.id, Eval(d, c), now);
    NothingDone(db, req, now, Eval(d, c).reply.code);
  }

  lemma DoneByParts(db: Db, req: Request, now: int, code: Code, o: Outcome)
    requires req.id in db.docs && IsReport(req.action) && Does(db.docs[req.id], req, now, code, o)
    requires DocDone(db.docs[req.id], o.doc, req, now, code) && (code == OK || code == IDEMPOTENT)
    requires o.reply.terminalNow <==> Terminal(o.doc) && !Terminal(db.docs[req.id])
    ensures Done(db, Apply(db, req.id, o, now), req, now, code)
  {
    var d := db.docs[req.id];
    hide Does, DocDone, DeadlinesDone, QueuesDone, Rearm, Enqueue;
    DoesDeadlines(db.deadlines, d, req, now, code, o);
    DoesQueues(db, d, req, now, code, o);
  }

  lemma CommitCode(d: Doc, c: Call)
    requires Commits(d, c)
    ensures var o := Commit(d, c);
            && o.reply.code == (if AnyOk(d, c) then OK else IDEMPOTENT)
            && (o.reply.terminalNow <==> Terminal(o.doc) && !Terminal(d))
  {
    CommitParts(d, c);
    hide WriteTasks, Written, FirstRefusal, AnyOk;
  }

  lemma CommittedDone(db: Db, req: Request, now: int)
    requires req.id in db.docs && DocInv(db.docs[req.id]) && IsReport(req.action)
    requires var d := db.docs[req.id];
             var c := CallOf(req, Resolve(Specs(d.tasks), req), now); WellTargeted(d, c) && Commits(d, c)
    ensures var c := CallOf(req, Resolve(Specs(db.docs[req.id].tasks), req), now);
            var (db', reply) := Run(db, req.id, c);
            Done(db, db', req, now, reply.code)
  {
    hide Eval, DocInv, WellTargeted, Resolve, Commit, Does, DocDone, Done, Apply, FirstRefusal, AnyOk;
    var d := db.docs[req.id];
    var c := CallOf(req, Resolve(Specs(d.tasks), req), now);
    EvalCases(d, c);
    CommitCode(d, c);
    CommitDocDone(d, req, now);
    CommitDoes(d, req, now);
    hide Commits;
    DoneByParts(db, req, now, Commit(d, c).reply.code, Commit(d, c));
  }

  /**
   Every report, to any store with valid documents, is answered as promised and leaves what is promised: the
   tasks it names with its own body and clock, their deadlines, the instance, and the jobs it queues.
   */
  lemma ReportKeepsPromise(db: Db, req: Request, now: int)
    requires IsReport(req.action) && DocsInv(db.docs)
    ensures var (db', reply) := AtomicReport(db, req, now);
            Answered(db.docs, req, reply.code) && Done(db, db', req, now, reply.code)
  {
    ReportAnswered(db, req, now);
    hide Answered, Done, Run, Eval, DocInv, WellTargeted;
    if req.id in db.docs && db.docs[req.id].tasks != [] {
      var d := db.docs[req.id];
      assert DocInv(d);
      var idxs := Resolve(Specs(d.tasks), req);
      if idxs != [] {
        ResolveTargets(d, req, now);
        if Commits(d, CallOf(req, idxs, now)) { CommittedDone(db, req, now); } else { UncommittedDone(db, req, now); }
      } else {
        Unchanged(db, req, now, TASK_NOT_FOUND);
      }
    } else {
      Unchanged(db, req, now, NOT_FOUND);
      Unchanged(db, req, now, BAD_SCHEMA);
    }
  }

  lemma Unchanged(db: Db, req: Request, now: int, code: Code)
    requires code != OK && code != IDEMPOTENT
    ensures Done(db, db, req, now, code)
  {
  }

  /* ---- the reaper ---- */

  /** An instance one of whose tasks timed out. */
  ghost predicate TimedOut(d: Doc, d': Doc, i: nat, now: int)
    requires i < |d.tasks|
  {
    && SameHead(d, d') && |d'.tasks| == |d.tasks|
    && d'.tasks[i] == d.tasks[i].(state := FAILED, failedAt := now / 1000)
    && (forall j | 0 <= j < |d.tasks| && j != i :: d'.tasks[j] == d.tasks[j])
    && d'.state == InstFailed && d'.completedAt == now / 1000 && d'.failedAt == now / 1000
  }

  lemma ReapTimesOut(d: Doc, i: nat, now: int)
    requires DocInv(d) && Ticking(d, i)
    ensures var o := Eval(d, BatchCall(i, now)); TimedOut(d, o.doc, i, now) && o.reply.terminalNow && i in o.failed
  {
    var c := BatchCall(i, now);
    R.ReapLive(d, i, now);
    R.ReapCommits(d, c, i);
    EvalCases(d, c);
    CommitParts(d, c);
    hide Eval, DocInv, Commits, Commit, FirstRefusal, Written, AnyOk, Below;
    assert WriteTasks(d, c)[i].state == FAILED;
  }

  /** What the batch does for the first overdue task of an instance, at its turn. */
  lemma MemberTimesOut(s: Sys, now: int, m: Member)
    requires Inv(s) && R.Examined(s.db.docs, m) && !Terminal(s.db.docs[m.id])
    ensures var db' := BatchMember(s, now, m).db;
            && m.id in db'.docs && TimedOut(s.db.docs[m.id], db'.docs[m.id], m.index, now)
            && m.id in db'.archive && db'.archive[m.id] == now
            && m in db'.webhooks && db'.webhooks[m] == now
  {
    var d := s.db.docs[m.id];
    assert DocInv(d);
    ReapTimesOut(d, m.index, now);
    BatchMemberFires(s, now, m);
    FireRuns(s, m.id, BatchCall(m.index, now));
    hide Inv, DocInv, Eval, TimedOut, BatchMember, Fire, Rearm, Ticking;
  }

  /** The k-th overdue member is the first of its instance. */
  predicate FirstOfInstance(due: seq<(Member, int)>, k: nat)
    requires k < |due|
  {
    due[k].0.TaskMember? && forall j | 0 <= j < k :: !(due[j].0.TaskMember? && due[j].0.id == due[k].0.id)
  }

  /** The store after a batch, for the first overdue member of an instance. */
  ghost predicate FailedByTick(db: Db, db': Db, m: Member, now: int) {
    && m.TaskMember? && m.id in db.docs && m.id in db'.docs && m.index < |db.docs[m.id].tasks|
    && TimedOut(db.docs[m.id], db'.docs[m.id], m.index, now)
    && m.id in db'.archive && db'.archive[m.id] == now
    && m in db'.webhooks && db'.webhooks[m] == now
  }

  /** What a member that failed leaves stays. */
  lemma FailureStays(db: Db, db1: Db, db': Db, m: Member, now: int)
    requires FailedByTick(db, db1, m, now) && DocsLater(db1.docs, db'.docs) && Q.Unmoved(db1, db')
    ensures FailedByTick(db, db', m, now)
  {
    assert Later(db1.docs[m.id], db'.docs[m.id]) && Terminal(db1.docs[m.id]);
    assert Q.TerminalIn(db1.docs, m.id) && Q.FailedIn(db1.docs, m);
    hide DocsLater, Later, TimedOut;
  }

  lemma AfterTurn(s: Sys, s1: Sys, now: int, due: seq<(Member, int)>, m: Member)
    requires Inv(s1) && (forall k | 0 <= k < |due| :: Addressable(s1.db.docs, due[k].0))
    requires FailedByTick(s.db, s1.db, m, now)
    ensures FailedByTick(s.db, Batch(s1, now, due).db, m, now)
  {
    hide Inv, Batch, Addressable, FailedByTick, DocsLater, Q.Unmoved;
    BatchKeeps(s1, now, due);
    Q.BatchUnmoved(s1, now, due);
    FailureStays(s.db, s1.db, Batch(s1, now, due).db, m, now);
  }

  /** One turn of the batch, as far as the rest of it is concerned. */
  lemma Turn(s: Sys, now: int, due: seq<(Member, int)>)
    requires Inv(s) && ZSet.DistinctKeys(due) && R.AllExamined(s.db.docs, due) && due != []
    ensures var s1 := BatchMember(s, now, due[0].0);
            && Inv(s1) && ZSet.DistinctKeys(due[1..]) && R.AllExamined(s1.db.docs, due[1..])
            && due[0].0.TaskMember?
            && forall id | id in s.db.docs && id != due[0].0.id :: id in s1.db.docs && s1.db.docs[id] == s.db.docs[id]
  {
    hide BatchMember, R.Examined, R.LoopMember, ZSet.DistinctKeys, Inv;
    assert R.Examined(s.db.docs, due[0].0);
    R.MemberAgrees(s, now, due[0].0);
    R.RestExamined(s.db, BatchMember(s, now, due[0].0).db, due);
  }

  lemma FirstTurn(s: Sys, now: int, due: seq<(Member, int)>)
    requires Inv(s) && ZSet.DistinctKeys(due) && R.AllExamined(s.db.docs, due) && due != []
    requires due[0].0.TaskMember? && due[0].0.id in s.db.docs && !Terminal(s.db.docs[due[0].0.id])
    ensures FailedByTick(s.db, Batch(s, now, due).db, due[0].0, now)
  {
    hide BatchMember, R.LoopMember, ZSet.DistinctKeys, Inv, TimedOut;
    var m, s1 := due[0].0, BatchMember(s, now, due[0].0);
    assert R.Examined(s.db.docs, m);
    Turn(s, now, due);
    ExaminedAddressable(s1.db.docs, due[1..]);
    MemberTimesOut(s, now, m);
    AfterTurn(s, s1, now, due[1..], m);
  }

  lemma SameBefore(db: Db, db1: Db, db': Db, m: Member, now: int)
    requires FailedByTick(db1, db', m, now) && m.id in db.docs && db1.docs[m.id] == db.docs[m.id]
    ensures FailedByTick(db, db', m, now)
  {
    hide TimedOut;
  }

  lemma {:induction false} BatchTimesOut(s: Sys, now: int, due: seq<(Member, int)>, k: nat)
    requires Inv(s) && ZSet.DistinctKeys(due) && R.AllExamined(s.db.docs, due)
    requires k < |due| && FirstOfInstance(due, k)
    requires due[k].0.id in s.db.docs && !Terminal(s.db.docs[due[k].0.id])
    ensures FailedByTick(s.db, Batch(s, now, due).db, due[k].0, now)
    decreases k
  {
    hide BatchMember, R.AllExamined, ZSet.DistinctKeys, Inv, FailedByTick;
    if k == 0 {
      FirstTurn(s, now, due);
    } else {
      var s1, rest := BatchMember(s, now, due[0].0), due[1..];
      Turn(s, now, due);
      assert rest[k - 1] == due[k] && due[k].0.id != due[0].0.id;
      assert forall j | 0 <= j < k - 1 :: rest[j] == due[j + 1];
      BatchTimesOut(s1, now, rest, k - 1);
      SameBefore(s.db, s1.db, Batch(s1, now, rest).db, due[k].0, now);
    }
  }

  lemma ExaminedAddressable(docs: map<Id, Doc>, due: seq<(Member, int)>)
    requires R.AllExamined(docs, due)
    ensures forall k | 0 <= k < |due| :: Addressable(docs, due[k].0)
  {
    assert forall k | 0 <= k < |due| :: R.Examined(docs, due[k].0);
  }

  /**
   What a reaper tick leaves, in every reachable state: of each instance with overdue tasks the first one,
   in the order of deadlines, is FAILED with the tick's clock, every other task is as it was, the instance
   is FAILED with the same clock, and one archive job and one webhook are due at once.
   */
  lemma TickKeepsPromise(steps: seq<Step>, now: int, limit: nat, due: seq<(Member, int)>, k: nat)
    requires IsRun(INIT, steps) && ZSet.IsRange(After(INIT, steps).db.deadlines, now, limit, due)
    requires k < |due| && FirstOfInstance(due, k)
    ensures var s := After(INIT, steps);
            FailedByTick(s.db, Next(s, Tick(now, limit, due)).db, due[k].0, now)
  {
    ReachableInv(steps);
    hide After, IsRun;
    var s := After(INIT, steps);
    DueAddressable(s, now, limit, due);
    R.DueExamined(s, now, limit, due);
    ScriptSteps(s, Tick(now, limit, due));
    assert Armed(s.db.docs, due[k].0);
    hide Inv, ZSet.IsRange, R.AllExamined, ZSet.DistinctKeys, Batch, Next, FailedByTick, Addressable;
    BatchTimesOut(s, now, due, k);
  }

  /* ---- what the reaper's calls are answered ---- */

  /** The single form: OK for a PUBLISHED task of a live instance, STALE for any other task. */
  predicate ReapAnswer(live: bool, state: TaskState, code: Code) {
    && (code == OK <==> live && state == PUBLISHED)
    && (code == STALE <==> !(live && state == PUBLISHED))
  }

  /** A member of a batch: it is answered as a fail report would be, without is_retry. */
  predicate BatchAnswer(live: bool, state: TaskState, code: Code) {
    && (code == OK <==> live && state == PUBLISHED)
    && (code == INSTANCE_TERMINAL <==> !live && state == PUBLISHED)
    && (code == TASK_NOT_PUBLISHED <==> state == PENDING)
    && (code == TASK_ALREADY(COMPLETED) <==> state == COMPLETED)
    && (code == TASK_ALREADY(FAILED) <==> state == FAILED)
  }

  /** What both forms of the reaper are answered for any task of any document. */
  lemma ReapersAnswered(d: Doc, i: nat, now: int)
    requires i < |d.tasks|
    ensures ReapAnswer(d.state == InstPending, d.tasks[i].state, Eval(d, ReapCall(i, now)).reply.code)
    ensures BatchAnswer(d.state == InstPending, d.tasks[i].state, Eval(d, BatchCall(i, now)).reply.code)
  {
    var b, r := BatchCall(i, now), ReapCall(i, now);
    assert b.idxs == r.idxs == [i] && b.idxs[0] == i;
    if Ticking(d, i) {
      R.ReapLive(d, i, now);
    } else {
      StaleAnswered(d, b);
      if Terminal(d) { ExitStale(d, r); } else { StaleAnswered(d, r); }
    }
  }

  /** A single target that does not tick is refused by the task gate, or by the instance gate. */
  lemma StaleAnswered(d: Doc, c: Call)
    requires |c.idxs| == 1 && 0 <= c.idxs[0] < |d.tasks| && !Ticking(d, c.idxs[0]) && !(c.action.Reap? && Terminal(d))
    requires Decide(c.action, c.retry, d.tasks[c.idxs[0]].state) != IDEMPOTENT
    ensures Eval(d, c).reply.code
            == if Decide(c.action, c.retry, d.tasks[c.idxs[0]].state) == OK && Terminal(d) then INSTANCE_TERMINAL
               else Decide(c.action, c.retry, d.tasks[c.idxs[0]].state)
  {
    if Accepted(DecideAt(d, c, 0)) {
      ExitAccepted(d, c);
      assert Terminal(d) ==> AnyOk(d, c) by { assert DecideAt(d, c, 0) == OK; }
      hide Eval;
    } else {
      ExitRefused(d, c, 0);
    }
  }
}
