/**
 Runs that reach the states in question: a workflow is started, one of its tasks is published and then
 reported failed. They show that the claims of the design document that the code does not meet fail on
 inputs the engine really gets.
 */
module Scenarios {
  import opened Json
  import opened Types
  import opened Script
  import opened Lifecycle
  import opened Engine
  import opened Reports
  import H = History

  lemma {:induction false} RunAppend(s: Sys, a: seq<Step>, b: seq<Step>)
    requires IsRun(s, a) && IsRun(After(s, a), b)
    ensures IsRun(s, a + b) && After(s, a + b) == After(After(s, a), b)
    decreases |a|
  {
    hide Next, Enabled;
    if a == [] {
      assert a + b == b;
    } else {
      RunAppend(Next(s, a[0]), a[1..], b);
      assert (a + b)[1..] == a[1..] + b;
    }
  }

  /** A report whose script call follows its resolution at once. */
  function Report(req: Request, now: int): seq<Step> {
    [Read(0, req), Transition(0, now)]
  }

  /** Nothing but the instance `id` differs, and of it the tasks that the request names made their transition. */
  ghost predicate Reported(s: Sys, s': Sys, req: Request) {
    && req.id in s.db.docs && s'.db.docs.Keys == s.db.docs.Keys && s'.pending == s.pending
    && var d, d' := s.db.docs[req.id], s'.db.docs[req.id];
       && |d'.tasks| == |d.tasks| && Specs(d'.tasks) == Specs(d.tasks)
       && forall j | 0 <= j < |d.tasks| ::
            d'.tasks[j].state == if Matches(d.tasks[j].spec, req) then Goal(req.action) else d.tasks[j].state
  }

  /** A report on a task that is in its start state, in a live instance, is answered OK. */
  lemma AnsweredOk(d: Doc, req: Request, i: nat, now: int)
    requires DocInv(d) && !Terminal(d) && IsReport(req.action) && i < |d.tasks|
    requires Matches(d.tasks[i].spec, req) && d.tasks[i].state == Origin(req.action)
    ensures var idxs := Resolve(Specs(d.tasks), req);
            && i in idxs && WellTargeted(d, CallOf(req, idxs, now))
            && Eval(d, CallOf(req, idxs, now)).reply.code == OK
  {
    hide DocInv, WellTargeted, Eval;
    var idxs := Resolve(Specs(d.tasks), req);
    assert i in idxs;
    ResolveTargets(d, req, now);
    hide Resolve;
    AnswerTable(d, CallOf(req, idxs, now));
    H.SameForAllTargets(d, CallOf(req, idxs, now), i);
  }

  lemma OkReported(d: Doc, req: Request, now: int)
    requires DocInv(d) && IsReport(req.action)
    requires var c := CallOf(req, Resolve(Specs(d.tasks), req), now); WellTargeted(d, c) && Eval(d, c).reply.code == OK
    ensures var d' := Eval(d, CallOf(req, Resolve(Specs(d.tasks), req), now)).doc;
            && |d'.tasks| == |d.tasks|
            && forall j | 0 <= j < |d.tasks| ::
                 d'.tasks[j].state == if Matches(d.tasks[j].spec, req) then Goal(req.action) else d.tasks[j].state
  {
    hide DocInv, WellTargeted, Eval;
    var idxs := Resolve(Specs(d.tasks), req);
    OkMovesEveryTarget(d, CallOf(req, idxs, now));
    assert forall j | 0 <= j < |d.tasks| :: j in idxs <==> Matches(Specs(d.tasks)[j], req);
  }

  lemma ReadResolves(s: Sys, req: Request, i: nat)
    requires 0 !in s.pending && IsReport(req.action) && req.id in s.db.docs
             && i in Resolve(Specs(s.db.docs[req.id].tasks), req)
    ensures Enabled(s, Read(0, req))
    ensures Next(s, Read(0, req))
            == s.(pending := s.pending[0 := Pending(req, Resolve(Specs(s.db.docs[req.id].tasks), req))])
  {
    hide Resolve;
  }

  lemma ReportIsRun(s: Sys, req: Request, now: int)
    requires Enabled(s, Read(0, req)) && 0 in Next(s, Read(0, req)).pending
    ensures IsRun(s, Report(req, now))
    ensures After(s, Report(req, now)) == Next(Next(s, Read(0, req)), Transition(0, now))
  {
    hide Next;
    var steps := Report(req, now);
    var s1 := Next(s, Read(0, req));
    assert steps[1..] == [Transition(0, now)] && steps[1..][1..] == [];
    OneStep(s1, Transition(0, now));
  }

  lemma OneStep(s: Sys, step: Step)
    ensures After(s, [step]) == Next(s, step) && (Enabled(s, step) ==> IsRun(s, [step]))
  {
    hide Next, Enabled;
    assert [step][1..] == [];
    assert IsRun(Next(s, step), []);
  }

  lemma PendingFires(s: Sys, req: Request, idxs: seq<int>, now: int)
    requires 0 !in s.pending
    ensures Next(s.(pending := s.pending[0 := Pending(req, idxs)]), Transition(0, now))
            == Fire(s, req.id, CallOf(req, idxs, now))
  {
    hide Fire, Next;
    var s1 := s.(pending := s.pending[0 := Pending(req, idxs)]);
    ScriptSteps(s1, Transition(0, now));
    assert s1.pending - {0} == s.pending;
  }

  lemma FireReports(s: Sys, req: Request, idxs: seq<int>, now: int)
    requires req.id in s.db.docs
    ensures var s' := Fire(s, req.id, CallOf(req, idxs, now));
            && s'.pending == s.pending && s'.db.docs.Keys == s.db.docs.Keys
            && s'.db.docs[req.id] == Eval(s.db.docs[req.id], CallOf(req, idxs, now)).doc
  {
    hide Eval, Rearm, Enqueue;
  }

  lemma FireReported(s: Sys, req: Request, i: nat, now: int)
    requires Inv(s) && IsReport(req.action) && req.id in s.db.docs && !Terminal(s.db.docs[req.id])
    requires i < |s.db.docs[req.id].tasks| && Matches(s.db.docs[req.id].tasks[i].spec, req)
    requires s.db.docs[req.id].tasks[i].state == Origin(req.action)
    ensures var idxs := Resolve(Specs(s.db.docs[req.id].tasks), req);
            && i in idxs
            && Reported(s, Fire(s, req.id, CallOf(req, idxs, now)), req)
  {
    var d := s.db.docs[req.id];
    assert DocInv(d);
    hide Inv, DocInv, WellTargeted, Eval, Resolve, Fire;
    var c := CallOf(req, Resolve(Specs(d.tasks), req), now);
    AnsweredOk(d, req, i, now);
    OkReported(d, req, now);
    FireReports(s, req, c.idxs, now);
    EvalKeeps(d, c);
    hide Matches, Goal, Origin;
  }

  /** A report on a task in its start state runs, and moves every task it names. */
  lemma ReportMoves(s: Sys, req: Request, i: nat, now: int)
    requires Inv(s) && 0 !in s.pending && IsReport(req.action) && req.id in s.db.docs && !Terminal(s.db.docs[req.id])
    requires i < |s.db.docs[req.id].tasks| && Matches(s.db.docs[req.id].tasks[i].spec, req)
    requires s.db.docs[req.id].tasks[i].state == Origin(req.action)
    ensures IsRun(s, Report(req, now))
    ensures var s' := After(s, Report(req, now));
            Inv(s') && DocsLater(s.db.docs, s'.db.docs) && Reported(s, s', req)
  {
    hide Inv, After, IsRun, Fire, DocsLater, Next, Enabled, Reported, Matches, Origin;
    FireReported(s, req, i, now);
    ReadResolves(s, req, i);
    ReportIsRun(s, req, now);
    RunKeeps(s, Report(req, now));
    PendingFires(s, req, Resolve(Specs(s.db.docs[req.id].tasks), req), now);
  }

  /* ---- one task published and failed ---- */

  function PublishOf(id: Id, spec: TaskSpec): Request {
    Request(Publish, false, id, spec.topic, "", JObj(map[]))
  }

  function ReportOf(action: Action, retry: bool, id: Id, spec: TaskSpec): Request {
    Request(action, retry, id, spec.topic, spec.consumer, JObj(map[]))
  }

  /** Start, publish the topic of one task, report that task failed. */
  function FailOne(id: Id, wf: Workflow, i: nat, now: int): seq<Step>
    requires i < |wf.tasks|
  {
    [Start(id, wf, now)] + Report(PublishOf(id, wf.tasks[i]), now) + Report(ReportOf(Fail, false, id, wf.tasks[i]), now)
  }

  ghost predicate Valid(wf: Workflow) {
    ValidSpecs(wf.tasks) && Fits(wf.tasks)
  }

  /** The state of task `j` after task `i` was published and has failed. */
  function FailedState(wf: Workflow, i: nat, j: nat): TaskState
    requires i < |wf.tasks| && j < |wf.tasks|
  {
    if j == i then FAILED else if wf.tasks[j].topic == wf.tasks[i].topic then PUBLISHED else PENDING
  }

  /** One instance exists; its tasks are in these states and no report is on its way. */
  ghost predicate Only(s: Sys, id: Id, wf: Workflow, state: InstanceState, states: seq<TaskState>) {
    && Inv(s) && s.pending == map[] && s.db.docs.Keys == {id}
    && var d := s.db.docs[id];
       && Specs(d.tasks) == wf.tasks && d.state == state
       && |states| == |d.tasks| && forall j | 0 <= j < |states| :: d.tasks[j].state == states[j]
  }

  function Pendings(wf: Workflow): (states: seq<TaskState>)
    ensures |states| == |wf.tasks| && forall j | 0 <= j < |states| :: states[j] == PENDING
  {
    seq(|wf.tasks|, _ => PENDING)
  }

  function Publisheds(wf: Workflow, i: nat): (states: seq<TaskState>)
    requires i < |wf.tasks|
    ensures |states| == |wf.tasks|
    ensures forall j | 0 <= j < |states| ::
              states[j] == if wf.tasks[j].topic == wf.tasks[i].topic then PUBLISHED else PENDING
  {
    seq(|wf.tasks|, j requires 0 <= j < |wf.tasks| =>
      if wf.tasks[j].topic == wf.tasks[i].topic then PUBLISHED else PENDING)
  }

  function Faileds(wf: Workflow, i: nat): (states: seq<TaskState>)
    requires i < |wf.tasks|
    ensures |states| == |wf.tasks| && forall j: nat | j < |states| :: states[j] == FailedState(wf, i, j)
  {
    seq(|wf.tasks|, j requires 0 <= j < |wf.tasks| => FailedState(wf, i, j))
  }

  lemma StartOnly(id: Id, wf: Workflow, now: int)
    requires Valid(wf)
    ensures IsRun(INIT, [Start(id, wf, now)])
    ensures Only(After(INIT, [Start(id, wf, now)]), id, wf, InstPending, Pendings(wf))
  {
    OneStep(INIT, Start(id, wf, now));
    ReachableInv([Start(id, wf, now)]);
    hide Inv, After, IsRun, Batch, Fire, Resolve, ValidSpecs, NewDoc;
    NewDocLive(wf, now);
  }

  lemma NewDocLive(wf: Workflow, now: int)
    ensures NewDoc(wf, now).state == InstPending
  {
  }

  lemma PublishOnly(s: Sys, id: Id, wf: Workflow, i: nat, now: int)
    requires Only(s, id, wf, InstPending, Pendings(wf)) && i < |wf.tasks|
    ensures IsRun(s, Report(PublishOf(id, wf.tasks[i]), now))
    ensures Only(After(s, Report(PublishOf(id, wf.tasks[i]), now)), id, wf, InstPending, Publisheds(wf, i))
  {
    hide After, IsRun, DocsLater, Inv, Reported, Only;
    var req := PublishOf(id, wf.tasks[i]);
    CanPublish(s, id, wf, i);
    ReportMoves(s, req, i, now);
    PublishedStates(s, After(s, Report(req, now)), id, wf, i);
  }

  lemma CanPublish(s: Sys, id: Id, wf: Workflow, i: nat)
    requires Only(s, id, wf, InstPending, Pendings(wf)) && i < |wf.tasks|
    ensures Inv(s) && s.pending == map[] && id in s.db.docs && !Terminal(s.db.docs[id])
    ensures i < |s.db.docs[id].tasks| && Matches(s.db.docs[id].tasks[i].spec, PublishOf(id, wf.tasks[i]))
    ensures s.db.docs[id].tasks[i].state == PENDING
  {
    hide Inv, Pendings;
    assert Specs(s.db.docs[id].tasks)[i] == s.db.docs[id].tasks[i].spec;
  }

  lemma PublishedStates(s: Sys, s': Sys, id: Id, wf: Workflow, i: nat)
    requires i < |wf.tasks| && Only(s, id, wf, InstPending, Pendings(wf))
    requires Inv(s') && Reported(s, s', PublishOf(id, wf.tasks[i]))
    ensures Only(s', id, wf, InstPending, Publisheds(wf, i))
  {
    hide Inv, Publisheds, Pendings;
    var d := s.db.docs[id];
    assert forall j | 0 <= j < |d.tasks| :: Specs(d.tasks)[j] == d.tasks[j].spec;
    InvState(s', id, i);
  }

  /** What the instance state must be. */
  lemma InvState(s: Sys, id: Id, i: nat)
    requires Inv(s) && id in s.db.docs && i < |s.db.docs[id].tasks|
    ensures var d := s.db.docs[id];
            && (d.tasks[i].state == FAILED ==> d.state == InstFailed)
            && ((forall j | 0 <= j < |d.tasks| :: d.tasks[j].state != FAILED) && d.tasks[i].state == PUBLISHED ==>
                  d.state == InstPending)
  {
    assert DocInv(s.db.docs[id]);
  }

  lemma FailOnly(s: Sys, id: Id, wf: Workflow, i: nat, now: int)
    requires i < |wf.tasks| && Only(s, id, wf, InstPending, Publisheds(wf, i)) && ValidSpecs(wf.tasks)
    ensures var req := ReportOf(Fail, false, id, wf.tasks[i]);
            IsRun(s, Report(req, now)) && Only(After(s, Report(req, now)), id, wf, InstFailed, Faileds(wf, i))
  {
    var req := ReportOf(Fail, false, id, wf.tasks[i]);
    hide Inv, After, IsRun, DocsLater;
    assert Specs(s.db.docs[id].tasks)[i] == s.db.docs[id].tasks[i].spec;
    ReportMoves(s, req, i, now);
    var s' := After(s, Report(req, now));
    var d := s'.db.docs[id];
    forall j: nat | j < |d.tasks| ensures d.tasks[j].state == Faileds(wf, i)[j] {
      assert Specs(s.db.docs[id].tasks)[j] == s.db.docs[id].tasks[j].spec;
      OnlyOneMatches(wf.tasks, i, j);
    }
    InvState(s', id, i);
  }

  lemma OnlyOneMatches(specs: seq<TaskSpec>, i: nat, j: nat)
    requires ValidSpecs(specs) && i < |specs| && j < |specs|
    ensures specs[j].topic == specs[i].topic && specs[j].consumer == specs[i].consumer ==> i == j
  {
  }

  /** For every valid workflow and every one of its tasks there is a run that publishes and fails just that task. */
  lemma FailOneRuns(id: Id, wf: Workflow, i: nat, now: int)
    requires Valid(wf) && i < |wf.tasks|
    ensures IsRun(INIT, FailOne(id, wf, i, now))
    ensures Only(After(INIT, FailOne(id, wf, i, now)), id, wf, InstFailed, Faileds(wf, i))
  {
    hide IsRun, After, Only, ValidSpecs;
    var start := [Start(id, wf, now)];
    var publish := Report(PublishOf(id, wf.tasks[i]), now);
    var fail := Report(ReportOf(Fail, false, id, wf.tasks[i]), now);
    StartOnly(id, wf, now);
    PublishOnly(After(INIT, start), id, wf, i, now);
    RunAppend(INIT, start, publish);
    FailOnly(After(INIT, start + publish), id, wf, i, now);
    RunAppend(INIT, start + publish, fail);
  }

  /* ---- claims that fail ---- */

  /** What a consume or fail report on one task is answered. */
  lemma SingleAnswer(s: Sys, id: Id, wf: Workflow, state: InstanceState, states: seq<TaskState>,
                     req: Request, j: nat, now: int)
    requires Only(s, id, wf, state, states) && ValidSpecs(wf.tasks) && j < |wf.tasks|
    requires (req.action.Consume? || req.action.Fail?) && req.id == id
    requires req.topic == wf.tasks[j].topic && req.service == wf.tasks[j].consumer
    ensures AtomicReport(s.db, req, now).1.code == Answer(s.db.docs[id], req.action, req.retry, states[j])
  {
    var d := s.db.docs[id];
    assert DocInv(d);
    hide Inv, DocInv, Run, Eval, WellTargeted, Answer;
    var idxs := Resolve(Specs(d.tasks), req);
    assert j in idxs;
    ResolveTargets(d, req, now);
    assert idxs[0] == j by {
      assert idxs[0] in idxs;
      OnlyOneMatches(wf.tasks, j, idxs[0]);
    }
    hide Resolve;
    AnswerTable(d, CallOf(req, idxs, now));
    RunDoc(s.db, id, CallOf(req, idxs, now));
  }

  /**
   The design document (I4) promises INSTANCE_TERMINAL whatever the state of the target task. After one
   task of a workflow has failed, a consume of a task of another topic is answered TASK_NOT_PUBLISHED.
   */
  lemma TerminalNotAlwaysSaid(id: Id, wf: Workflow, i: nat, j: nat, retry: bool, now: int, later: int)
    requires Valid(wf) && i < |wf.tasks| && j < |wf.tasks| && wf.tasks[i].topic != wf.tasks[j].topic
    ensures IsRun(INIT, FailOne(id, wf, i, now))
    ensures var s := After(INIT, FailOne(id, wf, i, now));
            && id in s.db.docs && s.db.docs[id].state == InstFailed
            && AtomicReport(s.db, ReportOf(Consume, retry, id, wf.tasks[j]), later).1.code == TASK_NOT_PUBLISHED
  {
    hide IsRun, After, AtomicReport, ValidSpecs;
    FailOneRuns(id, wf, i, now);
    var s := After(INIT, FailOne(id, wf, i, now));
    SingleAnswer(s, id, wf, InstFailed, Faileds(wf, i), ReportOf(Consume, retry, id, wf.tasks[j]), j, later);
  }

  /**
   The design document (T5) promises every PUBLISHED task a deadline. After one of two tasks that share a
   topic has failed, the other one is PUBLISHED and has none.
   */
  lemma PublishedWithoutDeadline(id: Id, wf: Workflow, i: nat, j: nat, now: int)
    requires Valid(wf) && i < |wf.tasks| && j < |wf.tasks| && i != j && wf.tasks[i].topic == wf.tasks[j].topic
    ensures IsRun(INIT, FailOne(id, wf, i, now))
    ensures var s := After(INIT, FailOne(id, wf, i, now));
            && id in s.db.docs && j < |s.db.docs[id].tasks| && s.db.docs[id].tasks[j].state == PUBLISHED
            && TaskMember(id, j) !in s.db.deadlines
  {
    hide IsRun, After, ValidSpecs, DocsInv, PendingInv, LogInv;
    FailOneRuns(id, wf, i, now);
    var s := After(INIT, FailOne(id, wf, i, now));
    assert TaskMember(id, j) in s.db.deadlines <==> Armed(s.db.docs, TaskMember(id, j));
  }

  /**
   The design document (section 4) says that a retry of anything on a terminal instance is refused. After a
   task has failed, the same fail report sent again with is_retry is answered IDEMPOTENT.
   */
  lemma RetryOnTerminalAccepted(id: Id, wf: Workflow, i: nat, now: int, later: int)
    requires Valid(wf) && i < |wf.tasks|
    ensures IsRun(INIT, FailOne(id, wf, i, now))
    ensures var s := After(INIT, FailOne(id, wf, i, now));
            && id in s.db.docs && s.db.docs[id].state == InstFailed
            && AtomicReport(s.db, ReportOf(Fail, true, id, wf.tasks[i]), later).1.code == IDEMPOTENT
  {
    hide IsRun, After, AtomicReport, ValidSpecs;
    FailOneRuns(id, wf, i, now);
    var s := After(INIT, FailOne(id, wf, i, now));
    SingleAnswer(s, id, wf, InstFailed, Faileds(wf, i), ReportOf(Fail, true, id, wf.tasks[i]), i, later);
  }
}
