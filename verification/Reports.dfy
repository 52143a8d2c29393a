/** Reports: their two steps, all-or-nothing publishes, and what is_retry may and may not do. */
module Reports {
  import opened Types
  import opened Script
  import opened Lifecycle
  import opened Engine

  /** Running a pending report's script is the one-step report. */
  lemma ScriptIsAtomicReport(s: Sys, ticket: nat, now: int)
    requires Inv(s) && ticket in s.pending
    ensures var p := s.pending[ticket];
            && Run(s.db, p.req.id, CallOf(p.req, p.idxs, now)) == AtomicReport(s.db, p.req, now)
            && Next(s, Transition(ticket, now)).db == AtomicReport(s.db, p.req, now).0
  {
    hide Run, Resolve, Fire, DeadlinesAgree, LogInv;
    var p := s.pending[ticket];
    assert DocInv(s.db.docs[p.req.id]);
    FireRuns(s.(pending := s.pending - {ticket}), p.req.id, CallOf(p.req, p.idxs, now));
  }

  lemma ReadKeepsRequest(s: Sys, ticket: nat, req: Request)
    requires Enabled(s, Read(ticket, req)) && ticket in Next(s, Read(ticket, req)).pending
    ensures Next(s, Read(ticket, req)).pending[ticket].req == req
  {
    hide Resolve;
  }

  /** A report that names no task, or no instance, never reaches the script. */
  lemma RefusedAtOnce(s: Sys, ticket: nat, req: Request, now: int)
    requires Enabled(s, Read(ticket, req)) && ticket !in Next(s, Read(ticket, req)).pending
    requires DocsInv(s.db.docs)
    ensures Next(s, Read(ticket, req)) == s && AtomicReport(s.db, req, now).0 == s.db
    ensures AtomicReport(s.db, req, now).1.code == if req.id in s.db.docs then TASK_NOT_FOUND else NOT_FOUND
  {
    hide Run, Resolve;
  }

  /**
   A report linearizes at its script call. If resolution names tasks, then running the
   script later, after any other steps, answers and stores what resolving and running in
   one step at that time would; if it names none, the report is refused at once, as the
   one-step report would refuse it.
   */
  lemma ReportLinearizes(before: seq<Step>, ticket: nat, req: Request, between: seq<Step>, now: int)
    requires IsRun(INIT, before) && Enabled(After(INIT, before), Read(ticket, req))
    requires IsRun(Next(After(INIT, before), Read(ticket, req)), between)
    ensures var s0 := After(INIT, before);
            var s1 := Next(s0, Read(ticket, req));
            var s2 := After(s1, between);
            && (ticket !in s1.pending ==>
                  && s1 == s0 && AtomicReport(s0.db, req, now).0 == s0.db
                  && AtomicReport(s0.db, req, now).1.code == if req.id in s0.db.docs then TASK_NOT_FOUND else NOT_FOUND)
            && (ticket in s1.pending && ticket in s2.pending && s2.pending[ticket] == s1.pending[ticket] ==>
                  && Next(s2, Transition(ticket, now)).db == AtomicReport(s2.db, req, now).0
                  && Run(s2.db, req.id, CallOf(req, s1.pending[ticket].idxs, now)).1 == AtomicReport(s2.db, req, now).1)
  {
    ReachableInv(before);
    hide After, IsRun;
    var s0 := After(INIT, before);
    var s1 := Next(s0, Read(ticket, req));
    var s2 := After(s1, between);
    StepKeeps(s0, Read(ticket, req));
    RunKeeps(s1, between);
    hide Run, Inv, DocsLater, Next, AtomicReport, Enabled;
    if ticket !in s1.pending {
      RefusedAtOnce(s0, ticket, req, now);
    } else if ticket in s2.pending && s2.pending[ticket] == s1.pending[ticket] {
      ReadKeepsRequest(s0, ticket, req);
      ScriptIsAtomicReport(s2, ticket, now);
    }
  }

  /** Tasks sharing a topic leave PENDING together, in every run. */
  lemma TopicsLeaveTogether(steps: seq<Step>, id: Id, i: nat, j: nat)
    requires IsRun(INIT, steps) && id in After(INIT, steps).db.docs
    ensures var tasks := After(INIT, steps).db.docs[id].tasks;
            i < |tasks| && j < |tasks| && tasks[i].spec.topic == tasks[j].spec.topic ==>
              (tasks[i].state == PENDING <==> tasks[j].state == PENDING)
  {
    ReachableInv(steps);
    hide After, IsRun;
    assert DocInv(After(INIT, steps).db.docs[id]);
  }

  /** What an OK answer means for the document: every target made the transition, nothing else moved. */
  lemma OkMovesEveryTarget(d: Doc, c: Call)
    requires DocInv(d) && WellTargeted(d, c) && Eval(d, c).reply.code == OK
    ensures var d' := Eval(d, c).doc;
            && |d'.tasks| == |d.tasks| && !Terminal(d)
            && forall i | 0 <= i < |d.tasks| ::
                 if i in c.idxs then d.tasks[i].state == Origin(c.action) && d'.tasks[i].state == Goal(c.action)
                 else d'.tasks[i] == d.tasks[i]
  {
    EvalCases(d, c);
    CommitTargets(d, c);
    hide Eval, DocInv, Settle;
    assert Eval(d, c).doc.tasks == WriteTasks(d, c);
    forall i | 0 <= i < |d.tasks| && i in c.idxs ensures d.tasks[i].state == Origin(c.action) {
      var n :| 0 <= n < |c.idxs| && c.idxs[n] == i;
      assert DecideAt(d, c, n) == OK;
    }
  }

  /** The two extremes of a report on a reachable instance: all of its targets move, or none does. */
  lemma AllOrNothing(steps: seq<Step>, ticket: nat, now: int)
    requires IsRun(INIT, steps) && ticket in After(INIT, steps).pending
    ensures var s := After(INIT, steps);
            var p := s.pending[ticket];
            p.req.id in s.db.docs &&
            var d := s.db.docs[p.req.id];
            var o := Eval(d, CallOf(p.req, p.idxs, now));
            && |o.doc.tasks| == |d.tasks|
            && (forall i | 0 <= i < |d.tasks| && i !in p.idxs :: o.doc.tasks[i] == d.tasks[i])
            && if o.reply.code == OK then
                 forall i | 0 <= i < |d.tasks| && i in p.idxs ::
                   d.tasks[i].state == Origin(p.req.action) && o.doc.tasks[i].state == Goal(p.req.action)
               else
                 o.doc.state == d.state && forall i | 0 <= i < |d.tasks| :: o.doc.tasks[i].state == d.tasks[i].state
  {
    ReachableInv(steps);
    hide After, IsRun;
    var s := After(INIT, steps);
    PendingTargeted(s, ticket, now);
    var p := s.pending[ticket];
    var d := s.db.docs[p.req.id];
    var c := CallOf(p.req, p.idxs, now);
    assert DocInv(d);
    if Eval(d, c).reply.code == OK {
      OkMovesEveryTarget(d, c);
    } else {
      NotOkMovesNothing(d, c);
    }
  }

  /** An answer other than OK moves no state. */
  lemma NotOkMovesNothing(d: Doc, c: Call)
    requires DocInv(d) && WellTargeted(d, c) && Eval(d, c).reply.code != OK
    ensures var d' := Eval(d, c).doc;
            && d'.state == d.state && |d'.tasks| == |d.tasks|
            && forall i | 0 <= i < |d.tasks| ::
                 d'.tasks[i].state == d.tasks[i].state && (i !in c.idxs ==> d'.tasks[i] == d.tasks[i])
  {
    EvalCases(d, c);
    hide Eval, DocInv, Settle;
    if Commits(d, c) {
      CommitStates(d, c);
      assert Eval(d, c).doc.tasks == WriteTasks(d, c);
    }
  }

  function States(d: Doc): (states: seq<TaskState>)
    ensures |states| == |d.tasks| && forall i | 0 <= i < |states| :: states[i] == d.tasks[i].state
  {
    seq(|d.tasks|, i requires 0 <= i < |d.tasks| => d.tasks[i].state)
  }

  lemma OkWithRetry(d: Doc, c: Call, c': Call)
    requires DocInv(d) && WellTargeted(d, c) && c' == c.(retry := c'.retry) && Commits(d, c) && AnyOk(d, c)
    ensures Commits(d, c') && AnyOk(d, c') && Commit(d, c') == Commit(d, c)
  {
    CommitTargets(d, c);
    hide DocInv, Settle;
    forall n | 0 <= n < |c.idxs| ensures DecideAt(d, c', n) == OK {
      assert DecideAt(d, c, n) == OK;
    }
    assert AnyOk(d, c') by { assert DecideAt(d, c', 0) == OK; }
    assert WriteTasks(d, c) == WriteTasks(d, c');
  }

  /** A call that is answered OK is answered OK whatever is_retry says, and does the same. */
  lemma OkIgnoresRetry(d: Doc, c: Call, c': Call)
    requires DocInv(d) && WellTargeted(d, c) && c' == c.(retry := c'.retry)
    ensures Eval(d, c).reply.code == OK ==> Eval(d, c') == Eval(d, c)
  {
    EvalCases(d, c);
    EvalCases(d, c');
    hide Eval, DocInv, WellTargeted, Commits;
    if Eval(d, c).reply.code == OK {
      OkWithRetry(d, c, c');
    }
  }

  lemma SameStates(d: Doc, c: Call, c': Call)
    requires DocInv(d) && WellTargeted(d, c) && WellTargeted(d, c') && c' == c.(retry := c'.retry)
    ensures States(Eval(d, c).doc) == States(Eval(d, c').doc) && Eval(d, c).doc.state == Eval(d, c').doc.state
  {
    OkIgnoresRetry(d, c, c');
    OkIgnoresRetry(d, c', c);
    hide Eval;
    if Eval(d, c).reply.code != OK {
      NotOkMovesNothing(d, c);
      NotOkMovesNothing(d, c');
    }
  }

  lemma {:induction false} SameTargets(specs: seq<TaskSpec>, req: Request, req': Request)
    requires req' == req.(retry := req'.retry)
    ensures Resolve(specs, req) == Resolve(specs, req')
  {
    if specs != [] { SameTargets(specs[..|specs| - 1], req, req'); }
  }

  lemma AtomicRetry(db: Db, req: Request, req': Request, now: int)
    requires DocsInv(db.docs) && IsReport(req.action) && req' == req.(retry := req'.retry)
    ensures var plain := AtomicReport(db, req, now).0.docs;
            var retried := AtomicReport(db, req', now).0.docs;
            && plain.Keys == db.docs.Keys == retried.Keys
            && forall id | id in db.docs ::
                 States(plain[id]) == States(retried[id]) && plain[id].state == retried[id].state
  {
    hide DocInv, States, Run;
    if req.id in db.docs {
      var d := db.docs[req.id];
      var idxs := Resolve(Specs(d.tasks), req);
      SameTargets(Specs(d.tasks), req, req');
      hide Resolve;
      if idxs != [] {
        assert DocInv(d);
        ResolveTargets(d, req, now);
        ResolveTargets(d, req', now);
        SameStates(d, CallOf(req, idxs, now), CallOf(req', idxs, now));
        RunDoc(db, req.id, CallOf(req, idxs, now));
        RunDoc(db, req.id, CallOf(req', idxs, now));
      }
    }
  }

  /** `is_retry` never unlocks a transition: with or without it the states afterwards are the same. */
  lemma RetryUnlocksNothing(steps: seq<Step>, req: Request, now: int, id: Id)
    requires IsRun(INIT, steps) && IsReport(req.action)
    ensures var db := After(INIT, steps).db;
            var plain := AtomicReport(db, req.(retry := false), now).0.docs;
            var retried := AtomicReport(db, req.(retry := true), now).0.docs;
            && plain.Keys == db.docs.Keys == retried.Keys
            && (id in db.docs ==> States(plain[id]) == States(retried[id]) && plain[id].state == retried[id].state)
  {
    ReachableInv(steps);
    hide After, IsRun, AtomicReport, DeadlinesAgree, LogInv, PendingInv, DocsInv, States;
    AtomicRetry(After(INIT, steps).db, req.(retry := false), req.(retry := true), now);
  }

  /* ---- the answer to a report ---- */

  /** The report asks for a transition that the task has already made. */
  predicate Duplicate(action: Action, state: TaskState) {
    if action.Publish? then state != PENDING else state == Goal(action)
  }

  /** The whole table of answers, in terms of the first target's state. */
  function Answer(d: Doc, action: Action, retry: bool, state: TaskState): Code {
    if state == Origin(action) then if Terminal(d) then INSTANCE_TERMINAL else OK
    else if retry && Duplicate(action, state) then IDEMPOTENT
    else if state == PENDING then TASK_NOT_PUBLISHED
    else TASK_ALREADY(state)
  }

  /** When the targets agree on whether they could move, the first one decides the answer. */
  lemma FirstTargetDecides(d: Doc, c: Call)
    requires d.tasks != [] && InRange(d, c.idxs) && c.idxs != [] && IsReport(c.action)
    requires forall n | 0 <= n < |c.idxs| :: DecideAt(d, c, n) == OK <==> d.tasks[c.idxs[0]].state == Origin(c.action)
    requires !c.action.Publish? ==> forall n | 0 <= n < |c.idxs| :: c.idxs[n] == c.idxs[0]
    ensures Eval(d, c).reply.code == Answer(d, c.action, c.retry, d.tasks[c.idxs[0]].state)
  {
    var bad := FirstBadIndex(d, c.idxs);
    assert c.idxs[..bad] == c.idxs;
    assert DecideAt(d, c, 0) == OK <==> d.tasks[c.idxs[0]].state == Origin(c.action);
    if d.tasks[c.idxs[0]].state != Origin(c.action) {
      assert !AnyOk(d, c);
      if !Accepted(DecideAt(d, c, 0)) { assert FirstRefusal(d, c) == 0; }
    } else {
      assert AnyOk(d, c);
    }
  }

  lemma TargetsAgree(d: Doc, c: Call)
    requires DocInv(d) && WellTargeted(d, c) && IsReport(c.action)
    ensures forall n | 0 <= n < |c.idxs| :: DecideAt(d, c, n) == OK <==> d.tasks[c.idxs[0]].state == Origin(c.action)
  {
    assert c.idxs[0] in c.idxs;
    forall n | 0 <= n < |c.idxs| ensures DecideAt(d, c, n) == OK <==> d.tasks[c.idxs[0]].state == Origin(c.action) {
      assert c.idxs[n] in c.idxs;
    }
  }

  /** What a report is answered, for every action, retry flag, task state and instance state. */
  lemma AnswerTable(d: Doc, c: Call)
    requires DocInv(d) && WellTargeted(d, c) && IsReport(c.action)
    ensures Eval(d, c).reply.code == Answer(d, c.action, c.retry, d.tasks[c.idxs[0]].state)
  {
    TargetsAgree(d, c);
    NotEmpty(d);
    hide DocInv, Eval, Answer;
    FirstTargetDecides(d, c);
  }

  lemma NotEmpty(d: Doc)
    requires DocInv(d)
    ensures d.tasks != []
  {
  }

  /**
   What a terminal instance answers a report, exactly: INSTANCE_TERMINAL if and only if the task is in
   the state the report would start from; otherwise the task gate, which runs first, answers with its
   own code. Nothing is written, armed or queued in any case.
   */
  lemma TerminalAnswers(d: Doc, c: Call)
    requires DocInv(d) && WellTargeted(d, c) && IsReport(c.action) && Terminal(d)
    ensures var o := Eval(d, c);
            var state := d.tasks[c.idxs[0]].state;
            && (o.reply.code == INSTANCE_TERMINAL <==> state == Origin(c.action))
            && (o.reply.code == IDEMPOTENT <==> c.retry && Duplicate(c.action, state))
            && o.doc == d && o.armed == map[] && o.disarmed == {} && o.failed == {} && !o.reply.terminalNow
  {
    EvalCases(d, c);
    AnswerTable(d, c);
    hide DocInv, WellTargeted, Eval, FirstRefusal;
  }

  /* ---- what a reply says ---- */

  /** No call was refused on account of a target. */
  predicate NoRefusal(c: Call, d: Doc, code: Code) {
    Accepted(code) || (c.action.Reap? && Terminal(d))
  }

  /**
   The reply is true of the document the call leaves: the targets' states, the instance state, whether
   this call ended the instance and whether it queued a webhook. A refusal names the first target that
   refuses; where none does, because the instance does, it names the first.
   */
  lemma ReplyIsTrue(d: Doc, c: Call)
    requires d.tasks != [] && InRange(d, c.idxs)
    ensures var o := Eval(d, c);
            && |o.doc.tasks| == |d.tasks|
            && o.reply.states == TargetStates(o.doc, c.idxs)
            && o.reply.inst == Some(o.doc.state)
            && (o.reply.terminalNow <==> Terminal(o.doc) && !Terminal(d))
            && (o.reply.webhookQueued <==> o.failed != {})
            && if NoRefusal(c, d, o.reply.code) then o.reply.refused == -1
               else exists n :: 0 <= n < |c.idxs| && o.reply.refused == c.idxs[n]
                                && (forall k | 0 <= k < n :: Accepted(DecideAt(d, c, k)))
                                && if o.reply.code == INSTANCE_TERMINAL then n == 0
                                   else o.reply.code == DecideAt(d, c, n) && !Accepted(DecideAt(d, c, n))
  {
    hide Eval, FirstRefusal, Commit, Commits;
    if c.action.Reap? && Terminal(d) {
      ExitStale(d, c);
    } else {
      var k := FirstRefusal(d, c);
      if k < |c.idxs| {
        ExitRefused(d, c, k);
      } else {
        ExitAccepted(d, c);
        if !Terminal(d) { CommitReplyTrue(d, c); }
      }
    }
  }

  lemma CommitReplyTrue(d: Doc, c: Call)
    requires Commits(d, c)
    ensures var o := Commit(d, c);
            && |o.doc.tasks| == |d.tasks| && Accepted(o.reply.code) && o.reply.refused == -1
            && o.reply.states == TargetStates(o.doc, c.idxs) && o.reply.inst == Some(o.doc.state)
            && (o.reply.terminalNow <==> Terminal(o.doc))
            && (o.reply.webhookQueued <==> o.failed != {})
  {
    hide Written, AnyFailed, Below, AllCompleted;
  }

  /* ---- re-sending a report that was answered OK ---- */

  /** The document after a re-publish that only refreshes the targets still PUBLISHED. */
  function Refreshed(d: Doc, c: Call): (d': Doc)
    ensures d' == d.(tasks := d'.tasks) && |d'.tasks| == |d.tasks|
    ensures forall i | 0 <= i < |d.tasks| ::
              d'.tasks[i] == if i in c.idxs && d.tasks[i].state == PUBLISHED
                             then d.tasks[i].(payload := Some(c.payload), publishedAt := Seconds(c.now))
                             else d.tasks[i]
  {
    d.(tasks := seq(|d.tasks|, i requires 0 <= i < |d.tasks| =>
      if i in c.idxs && d.tasks[i].state == PUBLISHED
      then d.tasks[i].(payload := Some(c.payload), publishedAt := Seconds(c.now))
      else d.tasks[i]))
  }

  predicate Refreshes(id: Id, d: Doc, c: Call, m: Member) {
    m.TaskMember? && m.id == id && m.index < |d.tasks| && m.index in c.idxs && d.tasks[m.index].state == PUBLISHED
  }

  /** Only the refreshed targets get a new deadline, counted from the new call. */
  ghost predicate DeadlinesRefreshed(z: map<Member, int>, z': map<Member, int>, id: Id, d: Doc, c: Call) {
    forall m ::
      && (m in z' <==> Refreshes(id, d, c, m) || m in z)
      && (m in z' ==> z'[m] == if Refreshes(id, d, c, m) then c.now + d.tasks[m.index].spec.timeout else z[m])
  }

  /** All targets have made the transition, at some time. */
  ghost predicate Made(d: Doc, c: Call) {
    && InRange(d, c.idxs) && c.idxs != []
    && forall n | 0 <= n < |c.idxs| ::
         if c.action.Publish? then d.tasks[c.idxs[n]].state != PENDING
         else d.tasks[c.idxs[n]].state == Goal(c.action)
  }

  /** The script on a retried report whose transition was already made. */
  lemma RetryOfMade(d: Doc, c: Call)
    requires Made(d, c) && c.retry && IsReport(c.action)
    ensures var o := Eval(d, c);
            && o.reply.code == IDEMPOTENT && !o.reply.terminalNow && o.failed == {} && o.disarmed == {}
            && if c.action.Publish? && !Terminal(d) then
                 && o.doc == Refreshed(d, c)
                 && o.armed.Keys == Written(d, c)
                 && forall i | i in o.armed :: o.armed[i] == c.now + d.tasks[i].spec.timeout
               else o.doc == d && o.armed == map[]
  {
    var bad := FirstBadIndex(d, c.idxs);
    assert c.idxs[..bad] == c.idxs;
    forall n | 0 <= n < |c.idxs| ensures DecideAt(d, c, n) == IDEMPOTENT {
    }
    assert FirstRefusal(d, c) == |c.idxs|;
    assert !AnyOk(d, c);
    if !Terminal(d) {
      forall i: nat | i < |d.tasks| && i in c.idxs
        ensures i in Written(d, c) <==> c.action.Publish? && d.tasks[i].state == PUBLISHED
      {
        var n :| 0 <= n < |c.idxs| && c.idxs[n] == i;
        assert DecideAt(d, c, n) == IDEMPOTENT;
      }
      if c.action.Publish? {
        assert WriteTasks(d, c) == Refreshed(d, c).tasks;
      } else {
        assert Written(d, c) == {};
        assert WriteTasks(d, c) == d.tasks;
      }
    }
  }

  lemma MadeLater(d: Doc, d': Doc, c: Call)
    requires Made(d, c) && Later(d, d') && IsReport(c.action)
    ensures Made(d', c)
  {
    assert |Specs(d.tasks)| == |Specs(d'.tasks)|;
    assert forall n | 0 <= n < |c.idxs| :: StateLater(d.tasks[c.idxs[n]].state, d'.tasks[c.idxs[n]].state);
  }

  /**
   Retry stability. Once a report has been answered OK, re-sending it with is_retry=true
   after any other steps is answered IDEMPOTENT. Nothing changes, except that a re-publish
   refreshes payload, stamp and deadline of those of its tasks that are still PUBLISHED in a
   live instance.
   */
  lemma RetryIsStable(before: seq<Step>, ticket: nat, now: int, between: seq<Step>, later: int)
    requires IsRun(INIT, before) && ticket in After(INIT, before).pending
    requires var s := After(INIT, before);
             var p := s.pending[ticket];
             p.req.id in s.db.docs && Run(s.db, p.req.id, CallOf(p.req, p.idxs, now)).1.code == OK
    requires IsRun(Next(After(INIT, before), Transition(ticket, now)), between)
    ensures var s := After(INIT, before);
            var p := s.pending[ticket];
            var db := After(Next(s, Transition(ticket, now)), between).db;
            var again := CallOf(p.req.(retry := true), p.idxs, later);
            var (db', reply) := Run(db, p.req.id, again);
            && reply.code == IDEMPOTENT && p.req.id in db.docs
            && db'.archive == db.archive && db'.webhooks == db.webhooks
            && var d := db.docs[p.req.id];
               if p.req.action.Publish? && d.state == InstPending then
                 && db'.docs == db.docs[p.req.id := Refreshed(d, again)]
                 && DeadlinesRefreshed(db.deadlines, db'.deadlines, p.req.id, d, again)
               else db' == db
  {
    ReachableInv(before);
    var s := After(INIT, before);
    var p := s.pending[ticket];
    var s1 := Next(s, Transition(ticket, now));
    var s2 := After(s1, between);
    var again := CallOf(p.req.(retry := true), p.idxs, later);
    hide After, IsRun, Inv, Run, Next, Made, DocsLater, DeadlinesRefreshed;
    TransitionKeeps(s, ticket, now);
    RunKeeps(s1, between);
    OkTransitionMade(s, ticket, now);
    MadeStays(s1.db.docs, s2.db.docs, p.req.id, again);
    RetryEffect(s2.db, p.req.id, again);
  }

  lemma MadeStays(docs: map<Id, Doc>, docs': map<Id, Doc>, id: Id, c: Call)
    requires id in docs && DocsLater(docs, docs') && Made(docs[id], c) && IsReport(c.action)
    ensures id in docs' && Made(docs'[id], c)
  {
    MadeLater(docs[id], docs'[id], c);
  }

  lemma OkTransitionMade(s: Sys, ticket: nat, now: int)
    requires Inv(s) && ticket in s.pending
    requires var p := s.pending[ticket];
             p.req.id in s.db.docs && Run(s.db, p.req.id, CallOf(p.req, p.idxs, now)).1.code == OK
    ensures var p := s.pending[ticket];
            var docs := Next(s, Transition(ticket, now)).db.docs;
            && p.req.id in docs && IsReport(p.req.action)
            && forall retry, later :: Made(docs[p.req.id], CallOf(p.req.(retry := retry), p.idxs, later))
  {
    hide DeadlinesAgree, LogInv, DocInv, WellTargeted, Run, Fire, Eval, Made;
    var p := s.pending[ticket];
    var c := CallOf(p.req, p.idxs, now);
    PendingTargeted(s, ticket, now);
    assert DocInv(s.db.docs[p.req.id]) && IsReport(p.req.action);
    RunDoc(s.db, p.req.id, c);
    OkLeavesMade(s.db.docs[p.req.id], c);
    FireRuns(s.(pending := s.pending - {ticket}), p.req.id, c);
    forall retry, later ensures Made(Eval(s.db.docs[p.req.id], c).doc, CallOf(p.req.(retry := retry), p.idxs, later)) {
      MadeIsStatic(Eval(s.db.docs[p.req.id], c).doc, c, CallOf(p.req.(retry := retry), p.idxs, later));
    }
  }

  lemma MadeIsStatic(d: Doc, c: Call, c': Call)
    requires Made(d, c) && c'.action == c.action && c'.idxs == c.idxs
    ensures Made(d, c')
  {
  }

  lemma OkLeavesMade(d: Doc, c: Call)
    requires DocInv(d) && WellTargeted(d, c) && Eval(d, c).reply.code == OK && IsReport(c.action)
    ensures Made(Eval(d, c).doc, c)
  {
    OkMovesEveryTarget(d, c);
    hide Eval;
    forall n | 0 <= n < |c.idxs| ensures Eval(d, c).doc.tasks[c.idxs[n]].state == Goal(c.action) {
      assert c.idxs[n] in c.idxs;
    }
  }

  lemma ApplyRefresh(db: Db, id: Id, c: Call, o: Outcome)
    requires id in db.docs && !o.reply.terminalNow && o.failed == {} && o.disarmed == {}
    requires o.armed.Keys == Written(db.docs[id], c) && c.action.Publish?
    requires forall i | i in o.armed :: o.armed[i] == c.now + db.docs[id].tasks[i].spec.timeout
    requires forall n | 0 <= n < |c.idxs| ::
               0 <= c.idxs[n] < |db.docs[id].tasks| && db.docs[id].tasks[c.idxs[n]].state != PENDING
    ensures var db' := Apply(db, id, o, c.now);
            && db'.archive == db.archive && db'.webhooks == db.webhooks
            && DeadlinesRefreshed(db.deadlines, db'.deadlines, id, db.docs[id], c)
  {
    var d := db.docs[id];
    assert Enqueue(db.webhooks, id, {}, c.now) == db.webhooks;
    forall m: Member ensures m.TaskMember? && m.id == id && m.index in o.armed <==> Refreshes(id, d, c, m) {
      if m.TaskMember? && m.index < |d.tasks| && m.index in c.idxs {
        var n :| 0 <= n < |c.idxs| && c.idxs[n] == m.index;
        assert d.tasks[c.idxs[n]].state != PENDING;
      }
    }
  }

  lemma ApplyNothing(db: Db, id: Id, o: Outcome, now: int)
    requires id in db.docs && o.doc == db.docs[id] && !o.reply.terminalNow
    requires o.failed == {} && o.disarmed == {} && o.armed == map[]
    ensures Apply(db, id, o, now) == db
  {
    assert Rearm(db.deadlines, id, o.armed, {}) == db.deadlines;
    assert Enqueue(db.webhooks, id, {}, now) == db.webhooks;
    assert db.docs[id := o.doc] == db.docs;
  }

  lemma RetryEffect(db: Db, id: Id, c: Call)
    requires id in db.docs && Made(db.docs[id], c) && c.retry && IsReport(c.action)
    ensures var (db', reply) := Run(db, id, c);
            var d := db.docs[id];
            && reply.code == IDEMPOTENT
            && db'.archive == db.archive && db'.webhooks == db.webhooks
            && if c.action.Publish? && d.state == InstPending then
                 && db'.docs == db.docs[id := Refreshed(d, c)]
                 && DeadlinesRefreshed(db.deadlines, db'.deadlines, id, d, c)
               else db' == db
  {
    var d := db.docs[id];
    var o := Eval(d, c);
    RetryOfMade(d, c);
    hide Eval, Refreshed, DeadlinesRefreshed, Rearm, Enqueue;
    if c.action.Publish? && d.state == InstPending {
      ApplyRefresh(db, id, c, o);
    } else {
      ApplyNothing(db, id, o, c.now);
    }
  }
}
