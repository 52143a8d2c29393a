/**
 The answers are the truth: the OK answers that a task got, in order, are its path through the
 state machine, and the document's stamps are the clocks of those answers.
 */
module History {
  import opened Types
  import opened Script
  import opened Lifecycle
  import opened Engine
  import opened Reports

  /** A transition that was answered OK: the state it led to and its clock. */
  datatype Move = Move(goal: TaskState, at: int)

  predicate Moved(e: Event, id: Id, i: nat) {
    e.id == id && e.out.reply.code == OK && i in e.call.idxs
  }

  /** The transitions of one task, in order. */
  function Moves(log: seq<Event>, id: Id, i: nat): seq<Move> {
    if log == [] then []
    else
      var before := Moves(log[..|log| - 1], id, i);
      var e := log[|log| - 1];
      if Moved(e, id, i) then before + [Move(Goal(e.call.action), e.call.now)] else before
  }

  /** The latest call of an instance that was answered OK. */
  function LastOk(log: seq<Event>, id: Id): Option<Call> {
    if log == [] then None
    else
      var e := log[|log| - 1];
      if e.id == id && e.out.reply.code == OK then Some(e.call) else LastOk(log[..|log| - 1], id)
  }

  /** The states a task has been through since PENDING. */
  function Path(state: TaskState): seq<TaskState> {
    match state
    case PENDING => []
    case PUBLISHED => [PUBLISHED]
    case _ => [PUBLISHED, state]
  }

  predicate Follows(moves: seq<Move>, path: seq<TaskState>) {
    |moves| == |path| && forall k | 0 <= k < |path| :: moves[k].goal == path[k]
  }

  /** The stamp for a final state is the clock of the second transition, and 0 before it. */
  predicate Stamped(t: Task, moves: seq<Move>) {
    && t.consumedAt == (if t.state == COMPLETED && |moves| == 2 then Seconds(moves[1].at) else 0)
    && t.failedAt == (if t.state == FAILED && |moves| == 2 then Seconds(moves[1].at) else 0)
  }

  predicate TaskTrue(t: Task, moves: seq<Move>) {
    Follows(moves, Path(t.state)) && Stamped(t, moves)
  }

  /** A terminal instance is stamped with the clock of its latest OK answer, a live one not at all. */
  predicate InstanceTrue(d: Doc, last: Option<Call>) {
    if Terminal(d) then
      && last.Some? && d.completedAt == Seconds(last.value.now)
      && d.failedAt == (if d.state == InstFailed then Seconds(last.value.now) else 0)
    else d.completedAt == 0 && d.failedAt == 0
  }

  ghost predicate DocTrue(d: Doc, id: Id, log: seq<Event>) {
    && (forall i: nat | i < |d.tasks| :: TaskTrue(d.tasks[i], Moves(log, id, i)))
    && InstanceTrue(d, LastOk(log, id))
  }

  ghost predicate HistoryInv(s: Sys) {
    forall id | id in s.db.docs :: DocTrue(s.db.docs[id], id, s.log)
  }

  lemma MovesAppend(log: seq<Event>, e: Event, id: Id, i: nat)
    ensures Moves(log + [e], id, i)
            == if Moved(e, id, i) then Moves(log, id, i) + [Move(Goal(e.call.action), e.call.now)]
               else Moves(log, id, i)
  {
    assert (log + [e])[..|log|] == log;
  }

  lemma LastOkAppend(log: seq<Event>, e: Event, id: Id)
    ensures LastOk(log + [e], id) == if e.id == id && e.out.reply.code == OK then Some(e.call) else LastOk(log, id)
  {
    assert (log + [e])[..|log|] == log;
  }

  lemma {:induction false} NoMoves(log: seq<Event>, id: Id)
    requires forall k | 0 <= k < |log| :: log[k].id != id
    ensures LastOk(log, id) == None && forall i :: Moves(log, id, i) == []
  {
    if log != [] { NoMoves(log[..|log| - 1], id); }
  }

  /* ---- one run of the script ---- */

  /** What a run does to a task, as its answer tells it: one transition on OK, no move otherwise. */
  ghost predicate TaskMoves(d: Doc, c: Call, o: Outcome, i: nat)
    requires i < |d.tasks| && i < |o.doc.tasks|
  {
    var t, t' := d.tasks[i], o.doc.tasks[i];
    var s := Seconds(c.now);
    if o.reply.code == OK && i in c.idxs then
      && t.state == Origin(c.action) && t'.state == Goal(c.action)
      && t'.consumedAt == (if c.action.Consume? then s else t.consumedAt)
      && t'.failedAt == (if c.action.Publish? || c.action.Consume? then t.failedAt else s)
    else t'.state == t.state && t'.consumedAt == t.consumedAt && t'.failedAt == t.failedAt
  }

  lemma CommitMoves(d: Doc, c: Call, i: nat)
    requires DocInv(d) && WellTargeted(d, c) && Commits(d, c) && i < |d.tasks|
    ensures TaskMoves(d, c, Commit(d, c), i)
  {
    CommitTargets(d, c);
    CommitStates(d, c);
    hide DocInv, WellTargeted, Settle, FirstRefusal;
    assert Commit(d, c).doc.tasks == WriteTasks(d, c);
    if AnyOk(d, c) && i in c.idxs {
      var n :| 0 <= n < |c.idxs| && c.idxs[n] == i;
      assert DecideAt(d, c, n) == OK;
    } else {
      hide AnyOk;
      assert i in Written(d, c) ==> c.action.Publish?;
    }
  }

  lemma EvalMoves(d: Doc, c: Call, i: nat)
    requires DocInv(d) && WellTargeted(d, c) && i < |d.tasks|
    ensures |Eval(d, c).doc.tasks| == |d.tasks| && TaskMoves(d, c, Eval(d, c), i)
  {
    EvalCases(d, c);
    hide Eval, Commit, DocInv, WellTargeted, TaskMoves;
    if Commits(d, c) {
      CommitMoves(d, c, i);
      CommitSize(d, c);
    } else {
      NoMove(d, c, Eval(d, c), i);
    }
  }

  lemma CommitSize(d: Doc, c: Call)
    requires InRange(d, c.idxs)
    ensures |Commit(d, c).doc.tasks| == |d.tasks|
  {
  }

  lemma NoMove(d: Doc, c: Call, o: Outcome, i: nat)
    requires i < |d.tasks| && o.doc == d && o.reply.code != OK
    ensures TaskMoves(d, c, o, i)
  {
  }

  /** The instance is stamped in the step that makes it terminal, which is answered OK. */
  lemma EvalStampsInstance(d: Doc, c: Call, last: Option<Call>)
    requires DocInv(d) && WellTargeted(d, c) && InstanceTrue(d, last)
    ensures var o := Eval(d, c); InstanceTrue(o.doc, if o.reply.code == OK then Some(c) else last)
  {
    EvalCases(d, c);
    hide Eval, DocInv, WellTargeted, FirstRefusal, WriteTasks, AnyFailed, AllCompleted, Written;
  }

  lemma MoveKeeps(t: Task, t': Task, moves: seq<Move>, action: Action, now: int)
    requires TaskTrue(t, moves) && t.state == Origin(action) && t'.state == Goal(action)
    requires t'.consumedAt == (if action.Consume? then Seconds(now) else t.consumedAt)
    requires t'.failedAt == (if action.Publish? || action.Consume? then t.failedAt else Seconds(now))
    ensures TaskTrue(t', moves + [Move(Goal(action), now)])
  {
  }

  lemma OwnHistory(id: Id, d: Doc, c: Call, o: Outcome, log: seq<Event>)
    requires DocTrue(d, id, log) && |o.doc.tasks| == |d.tasks|
    requires forall i: nat | i < |d.tasks| :: TaskMoves(d, c, o, i)
    requires InstanceTrue(o.doc, if o.reply.code == OK then Some(c) else LastOk(log, id))
    ensures DocTrue(o.doc, id, log + [Event(id, c, o)])
  {
    var e := Event(id, c, o);
    LastOkAppend(log, e, id);
    hide InstanceTrue, LastOk, Moves, Origin, Goal;
    forall i: nat | i < |d.tasks| ensures TaskTrue(o.doc.tasks[i], Moves(log + [e], id, i)) {
      MovesAppend(log, e, id, i);
      assert TaskMoves(d, c, o, i) && TaskTrue(d.tasks[i], Moves(log, id, i));
      if Moved(e, id, i) { MoveKeeps(d.tasks[i], o.doc.tasks[i], Moves(log, id, i), c.action, c.now); }
    }
  }

  lemma OtherHistory(id: Id, d: Doc, e: Event, log: seq<Event>)
    requires DocTrue(d, id, log) && e.id != id
    ensures DocTrue(d, id, log + [e])
  {
    LastOkAppend(log, e, id);
    hide InstanceTrue, TaskTrue, LastOk, Moves;
    forall i: nat | i < |d.tasks| ensures TaskTrue(d.tasks[i], Moves(log + [e], id, i)) {
      MovesAppend(log, e, id, i);
      assert TaskTrue(d.tasks[i], Moves(log, id, i));
    }
  }

  lemma FireHistory(s: Sys, id: Id, c: Call)
    requires Engine.Inv(s) && HistoryInv(s) && id in s.db.docs && WellTargeted(s.db.docs[id], c)
    ensures HistoryInv(Fire(s, id, c))
  {
    var d := s.db.docs[id];
    assert DocInv(d) && DocTrue(d, id, s.log);
    var o := Eval(d, c);
    hide Engine.Inv, Eval, DocInv, WellTargeted, TaskMoves, InstanceTrue, Rearm, Enqueue;
    forall i: nat | i < |d.tasks| ensures |o.doc.tasks| == |d.tasks| && TaskMoves(d, c, o, i) { EvalMoves(d, c, i); }
    SameSize(d, c);
    assert InstanceTrue(d, LastOk(s.log, id));
    EvalStampsInstance(d, c, LastOk(s.log, id));
    OwnHistory(id, d, c, o, s.log);
    hide DocTrue;
    var s' := Fire(s, id, c);
    forall x | x in s'.db.docs ensures DocTrue(s'.db.docs[x], x, s'.log) {
      if x != id { OtherHistory(x, s.db.docs[x], Event(id, c, o), s.log); }
    }
  }

  lemma SameSize(d: Doc, c: Call)
    requires DocInv(d) && WellTargeted(d, c)
    ensures |Eval(d, c).doc.tasks| == |d.tasks|
  {
    hide Eval, DocInv, WellTargeted;
    EvalKeeps(d, c);
    assert |Specs(d.tasks)| == |Specs(Eval(d, c).doc.tasks)|;
  }

  /* ---- every step ---- */

  lemma {:induction false} BatchHistory(s: Sys, now: int, due: seq<(Member, int)>)
    requires Engine.Inv(s) && HistoryInv(s) && forall k | 0 <= k < |due| :: Addressable(s.db.docs, due[k].0)
    ensures HistoryInv(Batch(s, now, due))
    decreases |due|
  {
    hide Engine.Inv, HistoryInv, Fire, BatchMember, WellTargeted, DocsLater;
    if due != [] {
      var m := due[0].0;
      var s1 := BatchMember(s, now, m);
      assert Addressable(s.db.docs, m);
      BatchMemberFires(s, now, m);
      FireKeeps(s, m.id, BatchCall(m.index, now));
      FireHistory(s, m.id, BatchCall(m.index, now));
      forall k | 0 <= k < |due[1..]| ensures Addressable(s1.db.docs, due[1..][k].0) {
        AddressableLater(s.db.docs, s1.db.docs, due[k + 1].0);
      }
      BatchHistory(s1, now, due[1..]);
    }
  }

  lemma NewDocTrue(wf: Workflow, now: int, id: Id, log: seq<Event>)
    requires forall k | 0 <= k < |log| :: log[k].id != id
    ensures DocTrue(NewDoc(wf, now), id, log)
  {
    NoMoves(log, id);
  }

  lemma StartHistory(s: Sys, id: Id, wf: Workflow, now: int)
    requires Engine.Inv(s) && HistoryInv(s) && id !in s.db.docs
    ensures HistoryInv(Next(s, Start(id, wf, now)))
  {
    assert LogKnown(s.db.docs, s.log);
    NewDocTrue(wf, now, id, s.log);
    hide DocTrue, NewDoc, Engine.Inv, Batch, Fire, Resolve;
  }

  lemma StepHistory(s: Sys, step: Step)
    requires Engine.Inv(s) && HistoryInv(s) && Enabled(s, step)
    ensures HistoryInv(Next(s, step))
  {
    hide Engine.Inv, Fire, Batch, DocTrue, WellTargeted, Addressable, Resolve;
    match step
    case Tick(now, limit, due) =>
      DueAddressable(s, now, limit, due);
      BatchHistory(s, now, due);
    case Transition(k, now) =>
      var p := s.pending[k];
      ForgetKeeps(s, k);
      PendingTargeted(s, k, now);
      FireHistory(s.(pending := s.pending - {k}), p.req.id, CallOf(p.req, p.idxs, now));
    case Start(id, wf, now) => StartHistory(s, id, wf, now);
    case _ =>
  }

  lemma {:induction false} RunHistory(s: Sys, steps: seq<Step>)
    requires Engine.Inv(s) && HistoryInv(s) && IsRun(s, steps)
    ensures HistoryInv(After(s, steps))
    decreases |steps|
  {
    hide Engine.Inv, HistoryInv, Next, Enabled, DocsLater;
    if steps != [] {
      StepKeeps(s, steps[0]);
      StepHistory(s, steps[0]);
      RunHistory(Next(s, steps[0]), steps[1..]);
    }
  }

  lemma ReachableHistory(steps: seq<Step>)
    requires IsRun(INIT, steps)
    ensures HistoryInv(After(INIT, steps))
  {
    ReachableInv([]);
    assert HistoryInv(INIT);
    hide Engine.Inv, HistoryInv, After, IsRun;
    assert After(INIT, []) == INIT by { Nothing(); }
    RunHistory(INIT, steps);
  }

  lemma Nothing()
    ensures After(INIT, []) == INIT
  {
  }

  /* ---- what the history says ---- */

  /**
   In every reachable state the OK answers a task got are exactly its path: none while PENDING, one
   publish while PUBLISHED, a publish and then one consume or one failure once it is over. Final
   stamps are the clocks of those answers, and a terminal instance's that of its latest one.
   */
  lemma AnswersAreThePath(steps: seq<Step>, id: Id, i: nat)
    requires IsRun(INIT, steps) && id in After(INIT, steps).db.docs
    requires i < |After(INIT, steps).db.docs[id].tasks|
    ensures var s := After(INIT, steps);
            var d := s.db.docs[id];
            var t := d.tasks[i];
            var moves := Moves(s.log, id, i);
            && (t.state == PENDING <==> moves == [])
            && (t.state == PUBLISHED <==> |moves| == 1)
            && (|moves| > 0 ==> moves[0].goal == PUBLISHED)
            && (|moves| > 1 ==> |moves| == 2 && moves[1].goal == t.state && t.state in {COMPLETED, FAILED})
            && t.consumedAt == (if t.state == COMPLETED then Seconds(moves[1].at) else 0)
            && t.failedAt == (if t.state == FAILED then Seconds(moves[1].at) else 0)
            && InstanceTrue(d, LastOk(s.log, id))
  {
    ReachableHistory(steps);
    hide After, IsRun, Moves, LastOk, InstanceTrue;
    var s := After(INIT, steps);
    assert DocTrue(s.db.docs[id], id, s.log);
    assert TaskTrue(s.db.docs[id].tasks[i], Moves(s.log, id, i));
  }

  /** The task has, at some time, made this transition and been told so. */
  predicate Happened(log: seq<Event>, id: Id, i: nat, goal: TaskState) {
    exists k :: 0 <= k < |Moves(log, id, i)| && Moves(log, id, i)[k].goal == goal
  }

  lemma HappenedIffDuplicate(t: Task, log: seq<Event>, id: Id, i: nat, action: Action)
    requires TaskTrue(t, Moves(log, id, i)) && IsReport(action)
    ensures Happened(log, id, i, Goal(action)) <==> Duplicate(action, t.state)
  {
    hide Moves;
    var moves := Moves(log, id, i);
    if Duplicate(action, t.state) {
      assert moves[if action.Publish? then 0 else 1].goal == Goal(action);
    }
  }

  lemma SameForAllTargets(d: Doc, c: Call, i: nat)
    requires DocInv(d) && WellTargeted(d, c) && IsReport(c.action) && i in c.idxs
    ensures i < |d.tasks|
    ensures var first, state := d.tasks[c.idxs[0]].state, d.tasks[i].state;
            && (first == Origin(c.action) <==> state == Origin(c.action))
            && (Duplicate(c.action, first) <==> Duplicate(c.action, state))
  {
    var n :| 0 <= n < |c.idxs| && c.idxs[n] == i;
    assert c.idxs[0] in c.idxs;
  }

  /** The answer to a report, from the history of any one of its targets. */
  lemma AnswerFromHistory(d: Doc, id: Id, log: seq<Event>, c: Call, i: nat)
    requires DocInv(d) && DocTrue(d, id, log) && WellTargeted(d, c) && IsReport(c.action) && i in c.idxs
    ensures var code := Eval(d, c).reply.code;
            && (code == IDEMPOTENT <==> c.retry && Happened(log, id, i, Goal(c.action)))
            && (code == OK <==> d.state == InstPending && |Moves(log, id, i)| == if c.action.Publish? then 0 else 1)
  {
    hide Moves, LastOk, InstanceTrue, Happened, Eval, DocInv, WellTargeted;
    AnswerTable(d, c);
    SameForAllTargets(d, c, i);
    assert TaskTrue(d.tasks[i], Moves(log, id, i));
    HappenedIffDuplicate(d.tasks[i], log, id, i, c.action);
  }

  /** What the log says a pending report will be answered. */
  ghost predicate AnsweredByHistory(s: Sys, p: Pending, now: int) {
    var code := Run(s.db, p.req.id, CallOf(p.req, p.idxs, now)).1.code;
    && p.req.id in s.db.docs
    && forall i: nat | i in p.idxs ::
         && (code == IDEMPOTENT <==> p.req.retry && Happened(s.log, p.req.id, i, Goal(p.req.action)))
         && (code == OK <==> s.db.docs[p.req.id].state == InstPending
                             && |Moves(s.log, p.req.id, i)| == if p.req.action.Publish? then 0 else 1)
  }

  /**
   is_retry asks "did this transition already happen?". In every reachable state a pending report is
   answered IDEMPOTENT if and only if it says is_retry and the log shows the transition of its tasks; it is
   OK if and only if the instance is live and its tasks have made every earlier transition and none later.
   */
  lemma RetryAsksWhetherItHappened(steps: seq<Step>, ticket: nat, now: int)
    requires IsRun(INIT, steps) && ticket in After(INIT, steps).pending
    ensures var s := After(INIT, steps); AnsweredByHistory(s, s.pending[ticket], now)
  {
    ReachableInv(steps);
    ReachableHistory(steps);
    hide After, IsRun;
    PendingAnswered(After(INIT, steps), ticket, now);
  }

  lemma PendingAnswered(s: Sys, ticket: nat, now: int)
    requires Engine.Inv(s) && HistoryInv(s) && ticket in s.pending
    ensures AnsweredByHistory(s, s.pending[ticket], now)
  {
    hide Moves, Happened, Eval, Run, DocInv, WellTargeted, DocTrue, DeadlinesAgree, LogInv;
    var p := s.pending[ticket];
    var c := CallOf(p.req, p.idxs, now);
    PendingTargeted(s, ticket, now);
    var d := s.db.docs[p.req.id];
    assert DocInv(d) && DocTrue(d, p.req.id, s.log) && IsReport(p.req.action);
    RunDoc(s.db, p.req.id, c);
    forall i: nat | i in p.idxs
      ensures Eval(d, c).reply.code == IDEMPOTENT <==> p.req.retry && Happened(s.log, p.req.id, i, Goal(p.req.action))
      ensures Eval(d, c).reply.code == OK
              <==> d.state == InstPending && |Moves(s.log, p.req.id, i)| == if p.req.action.Publish? then 0 else 1
    {
      AnswerFromHistory(d, p.req.id, s.log, c, i);
    }
  }
}
