/** What holds in every reachable state of the engine, whatever the interleaving. */
module Ledger {
  import opened Json
  import opened Types
  import opened Script
  import opened Lifecycle
  import opened Engine

  /**
   A deadline exists exactly for the PUBLISHED tasks of live instances; its score is the
   clock of the last effective publish plus the timeout, which is at most 999 ms more
   than the document's own stamp says.
   */
  lemma DeadlinesAreExact(steps: seq<Step>, m: Member)
    requires IsRun(INIT, steps)
    ensures var s := After(INIT, steps);
            m in s.db.deadlines <==>
              m.TaskMember? && m.id in s.db.docs && m.index < |s.db.docs[m.id].tasks|
              && s.db.docs[m.id].state == InstPending && s.db.docs[m.id].tasks[m.index].state == PUBLISHED
    ensures var s := After(INIT, steps);
            m in s.db.deadlines ==>
              var t := s.db.docs[m.id].tasks[m.index];
              var p := LastPublish(s.log, m.id, m.index);
              && p.Some? && s.db.deadlines[m] == p.value.now + t.spec.timeout
              && 0 <= s.db.deadlines[m] - (t.publishedAt * 1000 + t.spec.timeout) <= 999
  {
    ReachableInv(steps);
    hide After, LastPublish, IsRun;
    var s := After(INIT, steps);
    assert m in s.db.deadlines <==> Armed(s.db.docs, m);
    if m in s.db.deadlines {
      assert DocMatchesLog(s.db.docs[m.id], m.id, s.log);
      assert PublishedBy(s.db.docs[m.id].tasks[m.index], LastPublish(s.log, m.id, m.index));
    }
  }

  /**
   A task's payload is the body of its latest effective publish, whole; it has one
   exactly when the task has left PENDING.
   */
  lemma PayloadIsLatest(steps: seq<Step>, id: Id, i: nat)
    requires IsRun(INIT, steps)
    requires id in After(INIT, steps).db.docs && i < |After(INIT, steps).db.docs[id].tasks|
    ensures var s := After(INIT, steps);
            var t := s.db.docs[id].tasks[i];
            match LastPublish(s.log, id, i)
            case None => t.payload == None && t.state == PENDING
            case Some(c) => t.payload == Some(c.payload) && t.state != PENDING && t.publishedAt == Seconds(c.now)
  {
    ReachableInv(steps);
    hide After, LastPublish, IsRun;
    var s := After(INIT, steps);
    assert DocMatchesLog(s.db.docs[id], id, s.log);
    assert PublishedBy(s.db.docs[id].tasks[i], LastPublish(s.log, id, i));
  }

  /** FAILED iff some task is, COMPLETED iff all tasks are; and at most 2n reports are ever answered OK. */
  lemma InstanceStateIsExact(steps: seq<Step>, id: Id)
    requires IsRun(INIT, steps) && id in After(INIT, steps).db.docs
    ensures var s := After(INIT, steps);
            var d := s.db.docs[id];
            && (d.state == InstFailed <==> exists i :: 0 <= i < |d.tasks| && d.tasks[i].state == FAILED)
            && (d.state == InstCompleted <==> forall i | 0 <= i < |d.tasks| :: d.tasks[i].state == COMPLETED)
            && Tally(s.log, id).oks <= 2 * |d.tasks|
  {
    ReachableInv(steps);
    hide After, Tally, IsRun, LastPublish;
    var s := After(INIT, steps);
    assert DocInv(s.db.docs[id]);
    assert DocMatchesLog(s.db.docs[id], id, s.log);
  }

  /**
   At most one task of an instance ever fails, the script queues one webhook for a FAILED
   instance and none otherwise, and one archive job for a terminal instance and none otherwise.
   */
  lemma OneFailureOneWebhook(steps: seq<Step>, id: Id, i: nat, j: nat)
    requires IsRun(INIT, steps) && id in After(INIT, steps).db.docs
    ensures var s := After(INIT, steps);
            var d := s.db.docs[id];
            && (i < |d.tasks| && j < |d.tasks| && d.tasks[i].state == FAILED && d.tasks[j].state == FAILED ==> i == j)
            && Tally(s.log, id).hooks == (if d.state == InstFailed then 1 else 0)
            && Tally(s.log, id).archives == (if d.state == InstPending then 0 else 1)
  {
    ReachableInv(steps);
    hide After, Tally, IsRun, LastPublish;
    var s := After(INIT, steps);
    assert DocInv(s.db.docs[id]);
    assert DocMatchesLog(s.db.docs[id], id, s.log);
  }

  /** The uniqueness that validation enforces is needed: without it one fail report fails two tasks. */
  lemma AmbiguousTasksFailTwice(spec: TaskSpec, now: int)
    ensures var t := Task(spec, PUBLISHED, 1, 0, 0, Some(JObj(map[])));
            var d := Doc("w", "1", "1", InstPending, 1, 0, 0, [t, t]);
            var req := Request(Fail, false, "a", spec.topic, spec.consumer, JNull);
            var o := Eval(d, CallOf(req, Resolve(Specs(d.tasks), req), now));
            !ValidSpecs(Specs(d.tasks)) && o.reply.code == OK && o.failed == {0, 1} && !OneFailure(o.doc.tasks)
  {
    var t := Task(spec, PUBLISHED, 1, 0, 0, Some(JObj(map[])));
    var d := Doc("w", "1", "1", InstPending, 1, 0, 0, [t, t]);
    var req := Request(Fail, false, "a", spec.topic, spec.consumer, JNull);
    assert Specs(d.tasks) == [spec, spec];
    ResolveBoth(spec, req);
    var c := CallOf(req, [0, 1], now);
    hide Resolve, Eval;
    TwoFailAtOnce(d, c);
  }

  lemma ResolveBoth(spec: TaskSpec, req: Request)
    requires Matches(spec, req)
    ensures Resolve([spec, spec], req) == [0, 1]
  {
    assert [spec, spec][..1] == [spec] && [spec][..0] == [];
    assert Resolve([spec], req) == [0];
  }

  lemma TwoFailAtOnce(d: Doc, c: Call)
    requires |d.tasks| == 2 && d.tasks[0].state == PUBLISHED && d.tasks[1].state == PUBLISHED
    requires !Terminal(d) && c.action.Fail? && c.idxs == [0, 1]
    ensures var o := Eval(d, c); o.reply.code == OK && o.failed == {0, 1} && !OneFailure(o.doc.tasks)
  {
    assert DecideAt(d, c, 0) == OK && DecideAt(d, c, 1) == OK;
    EvalCases(d, c);
    assert Commits(d, c);
    hide Eval;
    var o := Commit(d, c);
    assert Written(d, c) == {0, 1};
    assert o.doc.tasks[0].state == FAILED && o.doc.tasks[1].state == FAILED;
  }

  /**
   Documents only move forward: an instance never disappears, its tasks keep their number,
   topics, consumers and timeouts, and once terminal no field of it changes again.
   */
  lemma TerminalIsFrozen(steps: seq<Step>, more: seq<Step>, id: Id)
    requires IsRun(INIT, steps) && IsRun(After(INIT, steps), more)
    requires id in After(INIT, steps).db.docs
    ensures var d := After(INIT, steps).db.docs[id];
            var docs' := After(After(INIT, steps), more).db.docs;
            && id in docs' && Specs(docs'[id].tasks) == Specs(d.tasks)
            && (d.state != InstPending ==> docs'[id] == d)
  {
    ReachableInv(steps);
    hide After, IsRun, Inv;
    RunKeeps(After(INIT, steps), more);
  }
}
