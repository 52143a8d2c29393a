/** Which jobs the script queues: exactly one per newly terminal instance and per newly FAILED task. */
module Enqueues {
  import opened Types
  import opened Script
  import opened Lifecycle
  import opened Engine
  import Codec

  predicate TerminalIn(docs: map<Id, Doc>, id: Id) {
    id in docs && Terminal(docs[id])
  }

  predicate FailedIn(docs: map<Id, Doc>, m: Member) {
    m.TaskMember? && m.id in docs && m.index < |docs[m.id].tasks| && docs[m.id].tasks[m.index].state == FAILED
  }

  /** From `db` to `db'` the script queued a job for each newly terminal instance and newly FAILED task. */
  ghost predicate Queued(db: Db, db': Db) {
    && (forall id :: id in db'.archive
          <==> id in db.archive || (TerminalIn(db'.docs, id) && !TerminalIn(db.docs, id)))
    && (forall m :: m in db'.webhooks
          <==> m in db.webhooks || (FailedIn(db'.docs, m) && !FailedIn(db.docs, m)))
  }

  lemma FailedStays(docs: map<Id, Doc>, docs': map<Id, Doc>, m: Member)
    requires DocsLater(docs, docs')
    ensures FailedIn(docs, m) ==> FailedIn(docs', m)
  {
    if FailedIn(docs, m) {
      assert |Specs(docs[m.id].tasks)| == |Specs(docs'[m.id].tasks)|;
      assert StateLater(docs[m.id].tasks[m.index].state, docs'[m.id].tasks[m.index].state);
    }
  }

  lemma QueuedNothing(db: Db)
    ensures Queued(db, db)
  {
  }

  lemma QueuedTwice(a: Db, b: Db, c: Db)
    requires Queued(a, b) && Queued(b, c) && DocsLater(a.docs, b.docs) && DocsLater(b.docs, c.docs)
    ensures Queued(a, c)
  {
    forall m ensures m in c.webhooks <==> m in a.webhooks || (FailedIn(c.docs, m) && !FailedIn(a.docs, m)) {
      FailedStays(a.docs, b.docs, m);
      FailedStays(b.docs, c.docs, m);
    }
  }

  /** The tasks a run queues a webhook for are those it made FAILED. */
  lemma EvalFailed(d: Doc, c: Call)
    requires DocInv(d) && WellTargeted(d, c)
    ensures var o := Eval(d, c);
            && |o.doc.tasks| == |d.tasks|
            && forall i: nat :: i in o.failed <==>
                 i < |d.tasks| && o.doc.tasks[i].state == FAILED && d.tasks[i].state != FAILED
  {
    EvalCases(d, c);
    hide Eval, DocInv, WellTargeted;
    if Commits(d, c) {
      assert Commit(d, c).doc.tasks == WriteTasks(d, c);
    }
  }

  lemma ApplyQueued(db: Db, id: Id, o: Outcome, now: int)
    requires id in db.docs && Later(db.docs[id], o.doc) && |o.doc.tasks| == |db.docs[id].tasks|
    requires o.reply.terminalNow <==> Terminal(o.doc) && !Terminal(db.docs[id])
    requires forall i: nat :: i in o.failed <==>
               i < |o.doc.tasks| && o.doc.tasks[i].state == FAILED && db.docs[id].tasks[i].state != FAILED
    ensures Queued(db, Apply(db, id, o, now))
  {
    hide Rearm, Enqueue;
    var db' := Apply(db, id, o, now);
    forall m ensures m in db'.webhooks <==> m in db.webhooks || (FailedIn(db'.docs, m) && !FailedIn(db.docs, m)) {
    }
  }

  lemma FireQueued(s: Sys, id: Id, c: Call)
    requires Engine.Inv(s) && id in s.db.docs && WellTargeted(s.db.docs[id], c)
    ensures Queued(s.db, Fire(s, id, c).db)
  {
    var d := s.db.docs[id];
    assert DocInv(d);
    hide Engine.Inv, Eval, DocInv, WellTargeted, DeadlinesFollow, PublishShown, Queued, Apply, Later;
    EvalFailed(d, c);
    EvalGood(id, d, c);
    ApplyQueued(s.db, id, Eval(d, c), c.now);
  }

  lemma {:induction false} BatchQueued(s: Sys, now: int, due: seq<(Member, int)>)
    requires Engine.Inv(s) && forall k | 0 <= k < |due| :: Addressable(s.db.docs, due[k].0)
    ensures Queued(s.db, Batch(s, now, due).db) && DocsLater(s.db.docs, Batch(s, now, due).db.docs)
    decreases |due|
  {
    hide Engine.Inv, Fire, BatchMember, WellTargeted, DocsLater, Queued;
    if due == [] {
      DocsLaterReflexive(s.db.docs);
      QueuedNothing(s.db);
    } else {
      var m := due[0].0;
      var s1 := BatchMember(s, now, m);
      assert Addressable(s.db.docs, m);
      BatchMemberFires(s, now, m);
      FireKeeps(s, m.id, BatchCall(m.index, now));
      FireQueued(s, m.id, BatchCall(m.index, now));
      forall k | 0 <= k < |due[1..]| ensures Addressable(s1.db.docs, due[1..][k].0) {
        AddressableLater(s.db.docs, s1.db.docs, due[k + 1].0);
      }
      BatchQueued(s1, now, due[1..]);
      QueuedTwice(s.db, s1.db, Batch(s1, now, due[1..]).db);
      DocsLaterTransitive(s.db.docs, s1.db.docs, Batch(s1, now, due[1..]).db.docs);
    }
  }

  lemma StartQueued(s: Sys, id: Id, wf: Workflow, now: int)
    requires id !in s.db.docs
    ensures Queued(s.db, Next(s, Start(id, wf, now)).db)
  {
    hide NewDoc;
    var docs' := s.db.docs[id := NewDoc(wf, now)];
    forall m ensures FailedIn(docs', m) ==> FailedIn(s.db.docs, m) {
    }
    assert NewDoc(wf, now).state == InstPending by { NewDocPending(wf, now); }
  }

  lemma NewDocPending(wf: Workflow, now: int)
    ensures NewDoc(wf, now).state == InstPending
  {
  }

  /** Every step but the workers' own. */
  lemma StepQueued(s: Sys, step: Engine.Step)
    requires Engine.Inv(s) && Enabled(s, step) && !step.Drain?
    ensures Queued(s.db, Next(s, step).db)
  {
    hide Engine.Inv, Next, Fire, Batch, Queued, WellTargeted;
    ScriptSteps(s, step);
    match step
    case Tick(now, limit, due) =>
      DueAddressable(s, now, limit, due);
      BatchQueued(s, now, due);
    case Transition(k, now) =>
      var p := s.pending[k];
      ForgetKeeps(s, k);
      PendingTargeted(s, k, now);
      FireQueued(s.(pending := s.pending - {k}), p.req.id, CallOf(p.req, p.idxs, now));
    case Start(id, wf, now) =>
      StartQueued(s, id, wf, now);
    case _ =>
      QuietStep(s, step);
      QueuedNothing(s.db);
  }

  lemma QuietStep(s: Sys, step: Engine.Step)
    requires step.Read? || step.Lost?
    ensures Next(s, step).db == s.db
  {
    hide Resolve;
  }

  /* ---- when a job is due ---- */

  /** Whatever a step queues is due at once. */
  ghost predicate DueAtOnce<K(!new)>(z: map<K, int>, z': map<K, int>, now: int) {
    forall m | m in z' :: (m in z && z'[m] == z[m]) || z'[m] == now
  }

  ghost predicate BothDueAtOnce(db: Db, db': Db, now: int) {
    DueAtOnce(db.archive, db'.archive, now) && DueAtOnce(db.webhooks, db'.webhooks, now)
  }

  lemma FireDue(s: Sys, id: Id, c: Call)
    ensures BothDueAtOnce(s.db, Fire(s, id, c).db, c.now)
  {
    hide Eval, Rearm, Enqueue;
  }

  lemma BatchMemberDue(s: Sys, now: int, m: Member)
    ensures BothDueAtOnce(s.db, BatchMember(s, now, m).db, now)
  {
    hide Fire, Run, Codec.LuaSplit, Codec.Print;
    match Codec.Locate(m)
    case None =>
    case Some((id, i)) => FireDue(s, id, BatchCall(i, now));
  }

  lemma {:induction false} BatchDue(s: Sys, now: int, due: seq<(Member, int)>)
    ensures BothDueAtOnce(s.db, Batch(s, now, due).db, now)
    decreases |due|
  {
    hide BatchMember;
    if due != [] {
      BatchMemberDue(s, now, due[0].0);
      BatchDue(BatchMember(s, now, due[0].0), now, due[1..]);
    }
  }

  /** A job that a report or a tick queues is due at the clock of that step; other jobs keep their time. */
  lemma StepDue(s: Sys, step: Engine.Step)
    requires Enabled(s, step) && (step.Transition? || step.Tick?)
    ensures BothDueAtOnce(s.db, Next(s, step).db, step.at)
  {
    hide Next, Fire, Batch, BothDueAtOnce;
    ScriptSteps(s, step);
    match step
    case Tick(now, limit, due) => BatchDue(s, now, due);
    case Transition(k, now) =>
      var p := s.pending[k];
      FireDue(s.(pending := s.pending - {k}), p.req.id, CallOf(p.req, p.idxs, now));
  }

  /* ---- what is queued is left alone ---- */

  /** The jobs of terminal instances and FAILED tasks stay queued, each with its time. */
  ghost predicate Unmoved(db: Db, db': Db) {
    && (forall id | id in db.archive && TerminalIn(db.docs, id) ::
          id in db'.archive && db'.archive[id] == db.archive[id])
    && (forall m | m in db.webhooks && FailedIn(db.docs, m) ::
          m in db'.webhooks && db'.webhooks[m] == db.webhooks[m])
  }

  lemma UnmovedTwice(a: Db, b: Db, c: Db)
    requires Unmoved(a, b) && Unmoved(b, c) && DocsLater(a.docs, b.docs)
    ensures Unmoved(a, c)
  {
    forall m | m in a.webhooks && FailedIn(a.docs, m) ensures m in c.webhooks && c.webhooks[m] == a.webhooks[m] {
      FailedStays(a.docs, b.docs, m);
    }
  }

  lemma ApplyUnmoved(db: Db, id: Id, o: Outcome, now: int)
    requires id in db.docs && (o.reply.terminalNow ==> !Terminal(db.docs[id]))
    requires forall i: nat | i in o.failed :: i < |db.docs[id].tasks| && db.docs[id].tasks[i].state != FAILED
    ensures Unmoved(db, Apply(db, id, o, now))
  {
    hide Rearm, Enqueue;
  }

  lemma FireUnmoved(s: Sys, id: Id, c: Call)
    requires Engine.Inv(s) && id in s.db.docs && WellTargeted(s.db.docs[id], c)
    ensures Unmoved(s.db, Fire(s, id, c).db)
  {
    var d := s.db.docs[id];
    assert DocInv(d);
    hide Engine.Inv, Eval, DocInv, WellTargeted, DeadlinesFollow, PublishShown, Unmoved, Apply, Later;
    EvalFailed(d, c);
    EvalGood(id, d, c);
    ApplyUnmoved(s.db, id, Eval(d, c), c.now);
  }

  lemma {:induction false} BatchUnmoved(s: Sys, now: int, due: seq<(Member, int)>)
    requires Engine.Inv(s) && forall k | 0 <= k < |due| :: Addressable(s.db.docs, due[k].0)
    ensures Unmoved(s.db, Batch(s, now, due).db)
    decreases |due|
  {
    hide Engine.Inv, Fire, BatchMember, WellTargeted, DocsLater, Unmoved;
    if due == [] {
      UnmovedAtRest(s.db, s.db);
    } else {
      var m := due[0].0;
      var s1 := BatchMember(s, now, m);
      assert Addressable(s.db.docs, m);
      BatchMemberFires(s, now, m);
      FireKeeps(s, m.id, BatchCall(m.index, now));
      FireUnmoved(s, m.id, BatchCall(m.index, now));
      forall k | 0 <= k < |due[1..]| ensures Addressable(s1.db.docs, due[1..][k].0) {
        AddressableLater(s.db.docs, s1.db.docs, due[k + 1].0);
      }
      BatchUnmoved(s1, now, due[1..]);
      UnmovedTwice(s.db, s1.db, Batch(s1, now, due[1..]).db);
    }
  }

  lemma UnmovedAtRest(db: Db, db': Db)
    requires db'.archive == db.archive && db'.webhooks == db.webhooks
    ensures Unmoved(db, db')
  {
  }

  lemma StepUnmoved(s: Sys, step: Engine.Step)
    requires Engine.Inv(s) && Enabled(s, step) && !step.Drain?
    ensures Unmoved(s.db, Next(s, step).db)
  {
    hide Engine.Inv, Next, Fire, Batch, Unmoved, WellTargeted;
    ScriptSteps(s, step);
    match step
    case Tick(now, limit, due) =>
      DueAddressable(s, now, limit, due);
      BatchUnmoved(s, now, due);
    case Transition(k, now) =>
      var p := s.pending[k];
      ForgetKeeps(s, k);
      PendingTargeted(s, k, now);
      FireUnmoved(s.(pending := s.pending - {k}), p.req.id, CallOf(p.req, p.idxs, now));
    case Start(id, wf, now) =>
      StartQueuesNothing(s, id, wf, now);
      UnmovedAtRest(s.db, Next(s, step).db);
    case _ =>
      QuietStep(s, step);
      UnmovedAtRest(s.db, Next(s, step).db);
  }

  lemma StartQueuesNothing(s: Sys, id: Id, wf: Workflow, now: int)
    ensures var db' := Next(s, Start(id, wf, now)).db; db'.archive == s.db.archive && db'.webhooks == s.db.webhooks
  {
    hide NewDoc;
  }
}
