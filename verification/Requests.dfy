/**
 Stored bodies against the requests that carried them: what a task holds, and what its failure webhook
 carries, is the body of the last publish request that was accepted for it.
 */
module Requests {
  import opened Json
  import opened Types
  import opened Script
  import opened Lifecycle
  import opened Engine
  import opened Reports
  import Codec
  import C = Conservation
  import Contract
  import Ledger
  import W = Workers

  /** The requests whose reports are on their way, by ticket, as the steps that read them say. */
  function Asked(asked: map<nat, Request>, step: Step): map<nat, Request> {
    if step.Read? then asked[step.ticket := step.req] else asked
  }

  /** The code of the latest script call. */
  function LastCode(s: Sys): Option<Code> {
    if s.log == [] then None else Some(s.log[|s.log| - 1].out.reply.code)
  }

  /**
   The step runs a publish request for the task, which is accepted and leaves the task PUBLISHED in a live
   instance.
   */
  predicate Publishes(s: Sys, asked: map<nat, Request>, step: Step, id: Id, i: nat) {
    && step.Transition? && step.ticket in s.pending && step.ticket in asked
    && var req, s' := asked[step.ticket], Next(s, step);
       && req.action == Publish && req.id == id && id in s'.db.docs
       && var d := s'.db.docs[id];
          && i < |d.tasks| && d.tasks[i].spec.topic == req.topic
          && LastCode(s') in {Some(OK), Some(IDEMPOTENT)}
          && d.state == InstPending && d.tasks[i].state == PUBLISHED
  }

  /** A body and the clock at which it was accepted. */
  datatype Body = Body(json: Json, at: int)

  function StepBody(s: Sys, asked: map<nat, Request>, step: Step, id: Id, i: nat, last: Option<Body>): Option<Body> {
    if Publishes(s, asked, step, id, i) then Some(Body(asked[step.ticket].payload, step.at)) else last
  }

  /** The body of the last accepted publish request for a task, over a run from a state with `last` before it. */
  function LastBody(s: Sys, asked: map<nat, Request>, steps: seq<Step>, id: Id, i: nat, last: Option<Body>)
    : Option<Body>
    decreases |steps|
  {
    if steps == [] then last
    else
      LastBody(Next(s, steps[0]), Asked(asked, steps[0]), steps[1..], id, i, StepBody(s, asked, steps[0], id, i, last))
  }

  /** Every pending report is that of the request that was read for its ticket. */
  ghost predicate Remembers(s: Sys, asked: map<nat, Request>) {
    forall k | k in s.pending :: k in asked && asked[k] == s.pending[k].req
  }

  /** The log and the requests agree on the last publish. */
  ghost predicate SameBody(log: seq<Event>, id: Id, i: nat, last: Option<Body>) {
    match LastPublish(log, id, i)
    case None => last == None
    case Some(c) => last == Some(Body(c.payload, c.now))
  }

  lemma StepRemembers(s: Sys, asked: map<nat, Request>, step: Step)
    requires Remembers(s, asked) && Enabled(s, step)
    ensures Remembers(Next(s, step), Asked(asked, step))
  {
    hide Resolve, Fire, Batch, NewDoc;
    match step
    case Tick(now, limit, due) => BatchPending(s, now, due);
    case Transition(k, now) =>
      var p := s.pending[k];
      FirePending(s.(pending := s.pending - {k}), p.req.id, CallOf(p.req, p.idxs, now));
    case _ =>
  }

  lemma FirePending(s: Sys, id: Id, c: Call)
    ensures Fire(s, id, c).pending == s.pending
  {
    hide Eval, Apply;
  }

  lemma {:induction false} BatchPending(s: Sys, now: int, due: seq<(Member, int)>)
    ensures Batch(s, now, due).pending == s.pending
    decreases |due|
  {
    hide BatchMember;
    if due != [] {
      MemberPending(s, now, due[0].0);
      BatchPending(BatchMember(s, now, due[0].0), now, due[1..]);
    }
  }

  lemma MemberPending(s: Sys, now: int, m: Member)
    ensures BatchMember(s, now, m).pending == s.pending
  {
    hide Fire, Run, Codec.LuaSplit, Codec.Print;
    match Codec.Locate(m)
    case None =>
    case Some((id, i)) => FirePending(s, id, BatchCall(i, now));
  }

  /* ---- the log grows by publishes of requests only ---- */

  /** Ticks log no publish. */
  lemma {:induction false} BatchPublishesNothing(s: Sys, now: int, due: seq<(Member, int)>, id: Id, i: nat)
    ensures LastPublish(Batch(s, now, due).log, id, i) == LastPublish(s.log, id, i)
    decreases |due|
  {
    hide BatchMember, LastPublish;
    if due != [] {
      MemberPublishesNothing(s, now, due[0].0, id, i);
      BatchPublishesNothing(BatchMember(s, now, due[0].0), now, due[1..], id, i);
    }
  }

  lemma MemberPublishesNothing(s: Sys, now: int, m: Member, id: Id, i: nat)
    ensures LastPublish(BatchMember(s, now, m).log, id, i) == LastPublish(s.log, id, i)
  {
    hide Eval, Apply, Run, Codec.LuaSplit, Codec.Print, LastPublish;
    match Codec.Locate(m)
    case None =>
    case Some((x, j)) =>
      if x in s.db.docs {
        LastPublishAppend(s.log, Event(x, BatchCall(j, now), Eval(s.db.docs[x], BatchCall(j, now))), id, i);
      }
  }

  /** A publish reaches exactly the tasks of its topic, and its reply shows what became of them. */
  lemma PublishTargets(d: Doc, req: Request, now: int, i: nat)
    requires DocInv(d) && req.action == Publish && Resolve(Specs(d.tasks), req) != []
    ensures var idxs := Resolve(Specs(d.tasks), req);
            var o := Eval(d, CallOf(req, idxs, now));
            && |o.doc.tasks| == |d.tasks| && o.reply.inst == Some(o.doc.state) && |o.reply.states| == |idxs|
            && (forall n | 0 <= n < |idxs| ::
                  0 <= idxs[n] < |d.tasks| && o.reply.states[n] == o.doc.tasks[idxs[n]].state)
            && (i in idxs <==> i < |d.tasks| && o.doc.tasks[i].spec.topic == req.topic)
  {
    var idxs := Resolve(Specs(d.tasks), req);
    var c := CallOf(req, idxs, now);
    ResolveTargets(d, req, now);
    EvalKeeps(d, c);
    assert d.tasks != [] && InRange(d, idxs);
    ReplyIsTrue(d, c);
    assert i in idxs <==> i < |d.tasks| && Matches(Specs(d.tasks)[i], req);
    hide Eval, DocInv, WellTargeted, Resolve, NoRefusal;
    assert i < |d.tasks| ==> Specs(Eval(d, c).doc.tasks)[i] == Specs(d.tasks)[i];
  }

  /** The event of a report is an effective publish of a task exactly as its request and the document say. */
  lemma EventPublishes(d: Doc, id: Id, req: Request, now: int, i: nat)
    requires DocInv(d) && IsReport(req.action) && Resolve(Specs(d.tasks), req) != []
    ensures var c := CallOf(req, Resolve(Specs(d.tasks), req), now);
            var o := Eval(d, c);
            EffectivePublish(Event(id, c, o), id, i)
            <==> (req.action == Publish && i < |o.doc.tasks| && o.doc.tasks[i].spec.topic == req.topic
                  && (o.reply.code == OK || o.reply.code == IDEMPOTENT)
                  && o.doc.state == InstPending && o.doc.tasks[i].state == PUBLISHED)
  {
    hide Eval, DocInv, Resolve;
    var idxs := Resolve(Specs(d.tasks), req);
    if req.action == Publish {
      PublishTargets(d, req, now, i);
      if i in idxs {
        var n :| 0 <= n < |idxs| && idxs[n] == i;
      }
    }
  }

  /** What the latest script call did, as its request and the documents show it. */
  lemma TransitionBody(s: Sys, asked: map<nat, Request>, ticket: nat, at: int, id: Id, i: nat)
    requires Inv(s) && Remembers(s, asked) && ticket in s.pending
    ensures var s', e := Next(s, Transition(ticket, at)), s.pending[ticket];
            && |s'.log| == |s.log| + 1 && s'.log[..|s.log|] == s.log
            && s'.log[|s.log|].call.payload == e.req.payload && s'.log[|s.log|].call.now == at
            && (EffectivePublish(s'.log[|s.log|], id, i) <==> Publishes(s, asked, Transition(ticket, at), id, i))
  {
    hide DeadlinesAgree, LogInv, DocInv, Eval, Apply, Resolve, EffectivePublish, Next;
    var p := s.pending[ticket];
    var d, c := s.db.docs[p.req.id], CallOf(p.req, p.idxs, at);
    assert DocInv(d) && asked[ticket] == p.req;
    ScriptSteps(s, Transition(ticket, at));
    var s0 := s.(pending := s.pending - {ticket});
    FireLogs(s0, p.req.id, c);
    EventPublishes(d, p.req.id, p.req, at, i);
    OtherPublishes(Event(p.req.id, c, Eval(d, c)), id, i);
  }

  lemma FireLogs(s: Sys, id: Id, c: Call)
    requires id in s.db.docs
    ensures var s', o := Fire(s, id, c), Eval(s.db.docs[id], c);
            && s'.log == s.log + [Event(id, c, o)] && id in s'.db.docs && s'.db.docs[id] == o.doc
  {
    hide Eval, Rearm, Enqueue;
  }

  lemma OtherPublishes(e: Event, id: Id, i: nat)
    ensures EffectivePublish(e, id, i) ==> e.id == id
  {
  }

  lemma QuietLog(s: Sys, step: Step)
    requires !step.Tick? && !step.Transition?
    ensures Next(s, step).log == s.log
  {
    hide Resolve, NewDoc;
  }

  lemma StepKeepsBody(s: Sys, asked: map<nat, Request>, step: Step, id: Id, i: nat, last: Option<Body>)
    requires Inv(s) && Enabled(s, step) && Remembers(s, asked) && SameBody(s.log, id, i, last)
    ensures SameBody(Next(s, step).log, id, i, StepBody(s, asked, step, id, i, last))
  {
    hide Inv, Next, Batch, LastPublish, EffectivePublish;
    match step
    case Tick(now, limit, due) =>
      ScriptSteps(s, step);
      BatchPublishesNothing(s, now, due, id, i);
    case Transition(k, at) =>
      TransitionBody(s, asked, k, at, id, i);
      var s' := Next(s, step);
      var e := s'.log[|s.log|];
      assert s'.log == s.log + [e];
      LastPublishAppend(s.log, e, id, i);
      assert asked[k] == s.pending[k].req;
      hide Publishes;
    case _ => QuietLog(s, step);
  }

  lemma {:induction false} RunBody(s: Sys, asked: map<nat, Request>, steps: seq<Step>, id: Id, i: nat,
                                   last: Option<Body>)
    requires Inv(s) && IsRun(s, steps) && Remembers(s, asked) && SameBody(s.log, id, i, last)
    ensures SameBody(After(s, steps).log, id, i, LastBody(s, asked, steps, id, i, last))
    decreases |steps|
  {
    hide Inv, Next, Enabled, Remembers, SameBody, StepBody, DocsLater;
    if steps != [] {
      StepKeeps(s, steps[0]);
      StepRemembers(s, asked, steps[0]);
      StepKeepsBody(s, asked, steps[0], id, i, last);
      RunBody(Next(s, steps[0]), Asked(asked, steps[0]), steps[1..], id, i, StepBody(s, asked, steps[0], id, i, last));
    }
  }

  /** The last accepted publish request of a run from the empty store. */
  function LastRequest(steps: seq<Step>, id: Id, i: nat): Option<Body> {
    LastBody(INIT, map[], steps, id, i, None)
  }

  lemma LogHasRequests(steps: seq<Step>, id: Id, i: nat)
    requires IsRun(INIT, steps)
    ensures SameBody(After(INIT, steps).log, id, i, LastRequest(steps, id, i))
  {
    ReachableInv([]);
    hide Inv, After, IsRun;
    assert SameBody(INIT.log, id, i, None);
    RunBody(INIT, map[], steps, id, i, None);
  }

  /**
   In every reachable state a task holds the body and the clock of the last publish request that was accepted
   for it, whole, and it has left PENDING exactly if there was one.
   */
  lemma StoredBodyIsRequested(steps: seq<Step>, id: Id, i: nat)
    requires IsRun(INIT, steps)
    requires id in After(INIT, steps).db.docs && i < |After(INIT, steps).db.docs[id].tasks|
    ensures var t := After(INIT, steps).db.docs[id].tasks[i];
            match LastRequest(steps, id, i)
            case None => t.payload == None && t.state == PENDING
            case Some(b) => t.payload == Some(b.json) && t.state != PENDING && t.publishedAt == b.at / 1000
  {
    LogHasRequests(steps, id, i);
    Ledger.PayloadIsLatest(steps, id, i);
    hide After, IsRun, LastPublish, LastRequest;
  }

  /** In every reachable state a deadline is the clock of that request plus the task's timeout. */
  lemma DeadlineIsRequested(steps: seq<Step>, m: Member)
    requires IsRun(INIT, steps) && m in After(INIT, steps).db.deadlines
    ensures var s := After(INIT, steps);
            && m.TaskMember? && m.id in s.db.docs && m.index < |s.db.docs[m.id].tasks|
            && LastRequest(steps, m.id, m.index).Some?
            && s.db.deadlines[m]
               == LastRequest(steps, m.id, m.index).value.at + s.db.docs[m.id].tasks[m.index].spec.timeout
  {
    Ledger.DeadlinesAreExact(steps, m);
    LogHasRequests(steps, m.id, m.index);
    hide After, IsRun, LastPublish, LastRequest;
  }

  /**
   Every delivery, in every run of the whole engine, carries the body of the last publish request that was
   accepted for its task.
   */
  lemma DeliveredBodyIsRequested(registry: map<string, string>, steps: seq<W.Step>, k: nat)
    requires W.WIsRun(W.WorldInit(registry), steps)
    requires k < |W.WAfter(W.WorldInit(registry), steps).deliveries|
    ensures var d := W.WAfter(W.WorldInit(registry), steps).deliveries[k];
            && d.m.TaskMember?
            && var b := LastRequest(C.ProjectedRun(W.WorldInit(registry), steps), d.m.id, d.m.index);
               b.Some? && d.note.payload == b.value.json
  {
    C.WorkersRefineEngine(W.WorldInit(registry), steps);
    C.DeliveriesCarryLatestPayload(registry, steps, k);
    hide W.WIsRun, W.WAfter, IsRun, After, LastPublish, LastRequest, C.ProjectedRun;
    var d := W.WAfter(W.WorldInit(registry), steps).deliveries[k];
    LogHasRequests(C.ProjectedRun(W.WorldInit(registry), steps), d.m.id, d.m.index);
  }

  /** The requests by ticket, after a run: for each the one that was read last. */
  function AskedBy(asked: map<nat, Request>, steps: seq<Step>): map<nat, Request>
    decreases |steps|
  {
    if steps == [] then asked else AskedBy(Asked(asked, steps[0]), steps[1..])
  }

  lemma {:induction false} RunRemembers(s: Sys, asked: map<nat, Request>, steps: seq<Step>)
    requires Remembers(s, asked) && IsRun(s, steps)
    ensures Remembers(After(s, steps), AskedBy(asked, steps))
    decreases |steps|
  {
    hide Next, Enabled, Remembers;
    if steps != [] {
      StepRemembers(s, asked, steps[0]);
      RunRemembers(Next(s, steps[0]), Asked(asked, steps[0]), steps[1..]);
    }
  }

  /**
   Every report whose script call is run, however long after its targets were read, keeps the promise made to
   the request that was read: answer, tasks, deadlines, instance and jobs.
   */
  lemma TransitionKeepsPromise(steps: seq<Step>, ticket: nat, at: int)
    requires IsRun(INIT, steps) && ticket in After(INIT, steps).pending
    ensures ticket in AskedBy(map[], steps)
    ensures var s := After(INIT, steps);
            var s', req := Next(s, Transition(ticket, at)), AskedBy(map[], steps)[ticket];
            var code := LastCode(s');
            && code.Some? && |s'.log| == |s.log| + 1
            && Contract.Answered(s.db.docs, req, code.value) && Contract.Done(s.db, s'.db, req, at, code.value)
  {
    ReachableInv(steps);
    assert Remembers(INIT, map[]);
    RunRemembers(INIT, map[], steps);
    hide After, IsRun, Contract.Answered, Contract.Done, AskedBy, Inv, Next;
    PendingKeepsPromise(After(INIT, steps), ticket, at);
  }

  lemma PendingKeepsPromise(s: Sys, ticket: nat, at: int)
    requires Inv(s) && ticket in s.pending
    ensures var s', req := Next(s, Transition(ticket, at)), s.pending[ticket].req;
            var code := LastCode(s');
            && code.Some? && |s'.log| == |s.log| + 1
            && Contract.Answered(s.db.docs, req, code.value) && Contract.Done(s.db, s'.db, req, at, code.value)
  {
    hide Contract.Answered, Contract.Done, DeadlinesAgree, LogInv, DocInv, Eval, Next, Resolve;
    var p := s.pending[ticket];
    ScriptIsAtomicReport(s, ticket, at);
    Contract.ReportKeepsPromise(s.db, p.req, at);
    ScriptSteps(s, Transition(ticket, at));
    FireLogs(s.(pending := s.pending - {ticket}), p.req.id, CallOf(p.req, p.idxs, at));
    RunDoc(s.db, p.req.id, CallOf(p.req, p.idxs, at));
  }

  /** A step ends the report of its own ticket and of no other, and a read adds only its own. */
  lemma TicketsAreIndependent(s: Sys, step: Step, k: nat)
    requires Enabled(s, step)
    ensures var own := (step.Transition? || step.Lost?) && step.ticket == k;
            if own then k !in Next(s, step).pending
            else if k in s.pending then k in Next(s, step).pending && Next(s, step).pending[k] == s.pending[k]
            else k in Next(s, step).pending ==> step.Read? && step.ticket == k
  {
    hide Resolve, Fire, Batch, NewDoc;
    match step
    case Tick(now, limit, due) => BatchPending(s, now, due);
    case Transition(t, now) =>
      var p := s.pending[t];
      FirePending(s.(pending := s.pending - {t}), p.req.id, CallOf(p.req, p.idxs, now));
    case _ =>
  }
}
