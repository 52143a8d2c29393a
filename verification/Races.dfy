/** Competing calls: one winner on one task, and no interference between instances. */
module Races {
  import opened Types
  import opened Script
  import opened Lifecycle
  import opened Engine
  import Codec

  /** Callers that want to end a task's PUBLISHED state: consume, fail, and both forms of the reaper. */
  predicate Ends(action: Action) {
    !action.Publish?
  }

  function LoserCode(winner: Action, loser: Action): Code {
    if loser.Reap? then STALE
    else TASK_ALREADY(if winner.Consume? then COMPLETED else FAILED)
  }

  /** The first of two competing calls wins and settles the task. */
  lemma WinnerSettles(d: Doc, c: Call)
    requires DocInv(d) && Ends(c.action) && |c.idxs| == 1 && c.idxs[0] >= 0 && Ticking(d, c.idxs[0])
    ensures var o := Eval(d, c);
            && o.reply.code == OK && |o.doc.tasks| == |d.tasks|
            && o.doc.tasks[c.idxs[0]].state == (if c.action.Consume? then COMPLETED else FAILED)
  {
    var i := c.idxs[0];
    assert WellTargeted(d, c);
    assert DecideAt(d, c, 0) == OK;
    EvalCases(d, c);
    assert FirstRefusal(d, c) == 1;
    hide Eval, DocInv, Settle, WellTargeted;
    assert Eval(d, c).doc.tasks == WriteTasks(d, c);
    assert i in c.idxs && i in Written(d, c);
  }

  /** The second is refused by the task gate, which runs before the instance gate. */
  lemma LoserRefused(d: Doc, c: Call, winner: Action)
    requires Ends(c.action) && !c.retry && |c.idxs| == 1 && 0 <= c.idxs[0] < |d.tasks|
    requires d.tasks[c.idxs[0]].state == (if winner.Consume? then COMPLETED else FAILED)
    ensures var o := Eval(d, c);
            && o.reply.code == LoserCode(winner, c.action)
            && o.doc == d && o.armed == map[] && o.failed == {} && !o.reply.terminalNow
            && (forall i | i in o.disarmed :: i == c.idxs[0])
  {
    var bad := FirstBadIndex(d, c.idxs);
    assert c.idxs[..bad] == c.idxs;
    assert !Accepted(DecideAt(d, c, 0));
    assert FirstRefusal(d, c) == 0;
  }

  /**
   Of two non-retry actions among consume, fail and reap on one PUBLISHED task of a live
   instance, in either order, the first is answered OK and the second is refused with the
   code that the winner's state implies, and changes nothing at all.
   */
  lemma OneWinner(steps: seq<Step>, id: Id, first: Call, second: Call)
    requires IsRun(INIT, steps)
    requires Ends(first.action) && Ends(second.action) && !first.retry && !second.retry
    requires |first.idxs| == 1 && first.idxs[0] >= 0 && second.idxs == first.idxs
    requires id in After(INIT, steps).db.docs && Ticking(After(INIT, steps).db.docs[id], first.idxs[0])
    ensures var (db1, reply1) := Run(After(INIT, steps).db, id, first);
            var (db2, reply2) := Run(db1, id, second);
            reply1.code == OK && reply2.code == LoserCode(first.action, second.action) && db2 == db1
  {
    ReachableInv(steps);
    hide After, IsRun;
    var s := After(INIT, steps);
    var d := s.db.docs[id];
    assert DocInv(d);
    var (db1, reply1) := Run(s.db, id, first);
    WinnerSettles(d, first);
    RunDoc(s.db, id, first);
    FireKeepsDeadlines(s, id, first);
    LoserRefused(db1.docs[id], second, first.action);
    RunDoc(db1, id, second);
    hide Run, Eval, DocInv, Ticking, DocsInv, LogInv, PendingInv;
    NoDeadlineLeft(db1, id, second.idxs[0]);
    LoserChangesNothing(db1, id, second);
  }

  lemma FireKeepsDeadlines(s: Sys, id: Id, c: Call)
    requires Inv(s) && id in s.db.docs && |c.idxs| == 1 && Ends(c.action)
    requires 0 <= c.idxs[0] < |s.db.docs[id].tasks|
    ensures DeadlinesAgree(Run(s.db, id, c).0)
  {
    assert WellTargeted(s.db.docs[id], c);
    FireKeeps(s, id, c);
    FireRuns(s, id, c);
    hide Fire, Run, DocsInv, LogInv, PendingInv;
  }

  lemma NoDeadlineLeft(db: Db, id: Id, i: nat)
    requires DeadlinesAgree(db) && id in db.docs && i < |db.docs[id].tasks|
    requires db.docs[id].tasks[i].state != PUBLISHED
    ensures TaskMember(id, i) !in db.deadlines
  {
    assert TaskMember(id, i) in db.deadlines <==> Armed(db.docs, TaskMember(id, i));
  }

  lemma LoserChangesNothing(db: Db, id: Id, c: Call)
    requires id in db.docs && |c.idxs| == 1 && c.idxs[0] >= 0 && TaskMember(id, c.idxs[0]) !in db.deadlines
    requires var o := Eval(db.docs[id], c);
             && o.doc == db.docs[id] && o.armed == map[] && o.failed == {} && !o.reply.terminalNow
             && (forall i | i in o.disarmed :: i == c.idxs[0])
    ensures Run(db, id, c).0 == db
  {
    hide Eval, Rearm, Enqueue;
    var o := Eval(db.docs[id], c);
    assert Rearm(db.deadlines, id, o.armed, o.disarmed) == db.deadlines;
    assert Enqueue(db.webhooks, id, o.failed, c.now) == db.webhooks;
    assert db.docs[id := o.doc] == db.docs;
  }

  /* ---- siblings ---- */

  lemma FailureEnds(d: Doc, c: Call, j: nat)
    requires DocInv(d) && Ends(c.action) && !c.action.Consume? && |c.idxs| == 1 && c.idxs[0] >= 0
    requires Ticking(d, c.idxs[0]) && j != c.idxs[0] && j < |d.tasks|
    ensures var o := Eval(d, c);
            && o.reply.code == OK && o.reply.terminalNow && o.reply.inst == Some(InstFailed)
            && o.doc.state == InstFailed && |o.doc.tasks| == |d.tasks| && o.doc.tasks[j] == d.tasks[j]
  {
    var i := c.idxs[0];
    assert DecideAt(d, c, 0) == OK;
    EvalCases(d, c);
    assert FirstRefusal(d, c) == 1;
    hide Eval, DocInv;
    assert i in c.idxs && i in Written(d, c) && j !in c.idxs;
    assert WriteTasks(d, c)[i].state == FAILED;
  }

  /** What a call on a PUBLISHED task of a terminal instance is told. */
  lemma FrozenRefused(d: Doc, c: Call)
    requires Ends(c.action) && |c.idxs| == 1 && 0 <= c.idxs[0] < |d.tasks|
    requires Terminal(d) && d.tasks[c.idxs[0]].state == PUBLISHED
    ensures var o := Eval(d, c);
            && o.reply.code == (if c.action.Reap? then STALE else INSTANCE_TERMINAL)
            && o.doc == d && o.armed == map[] && o.failed == {} && !o.reply.terminalNow
            && (forall i | i in o.disarmed :: i == c.idxs[0])
  {
    var bad := FirstBadIndex(d, c.idxs);
    assert c.idxs[..bad] == c.idxs;
    assert DecideAt(d, c, 0) == OK;
    assert FirstRefusal(d, c) == 1;
  }

  lemma FrozenNoDeadline(db: Db, id: Id, i: nat)
    requires DeadlinesAgree(db) && id in db.docs && Terminal(db.docs[id])
    ensures TaskMember(id, i) !in db.deadlines
  {
    assert TaskMember(id, i) in db.deadlines <==> Armed(db.docs, TaskMember(id, i));
  }

  /**
   Siblings freeze. When two PUBLISHED tasks of one instance race to an end and the first one fails,
   the instance turns FAILED in that step; the second call, whatever it is, changes nothing at all,
   and its task stays as it was.
   */
  lemma SiblingsFreeze(steps: seq<Step>, id: Id, first: Call, second: Call)
    requires IsRun(INIT, steps) && Ends(first.action) && !first.action.Consume? && Ends(second.action)
    requires |first.idxs| == 1 && first.idxs[0] >= 0 && |second.idxs| == 1 && second.idxs[0] >= 0
    requires first.idxs[0] != second.idxs[0] && id in After(INIT, steps).db.docs
    requires Ticking(After(INIT, steps).db.docs[id], first.idxs[0])
    requires Ticking(After(INIT, steps).db.docs[id], second.idxs[0])
    ensures var db := After(INIT, steps).db;
            var (db1, reply1) := Run(db, id, first);
            var (db2, reply2) := Run(db1, id, second);
            && reply1.code == OK && reply1.terminalNow && reply1.inst == Some(InstFailed)
            && reply2.code == (if second.action.Reap? then STALE else INSTANCE_TERMINAL)
            && db2 == db1 && id in db2.docs && |db2.docs[id].tasks| == |db.docs[id].tasks|
            && db2.docs[id].tasks[second.idxs[0]] == db.docs[id].tasks[second.idxs[0]]
  {
    ReachableInv(steps);
    hide After, IsRun;
    var s := After(INIT, steps);
    var d := s.db.docs[id];
    assert DocInv(d);
    var (db1, reply1) := Run(s.db, id, first);
    FailureEnds(d, first, second.idxs[0]);
    RunDoc(s.db, id, first);
    FireKeepsDeadlines(s, id, first);
    FrozenRefused(db1.docs[id], second);
    RunDoc(db1, id, second);
    hide Run, Eval, DocInv, Ticking, DocsInv, LogInv, PendingInv;
    FrozenNoDeadline(db1, id, second.idxs[0]);
    LoserChangesNothing(db1, id, second);
  }

  /* ---- different instances ---- */

  lemma RearmCommutes(z: map<Member, int>, id1: Id, a1: map<nat, int>, d1: set<nat>,
                      id2: Id, a2: map<nat, int>, d2: set<nat>)
    requires id1 != id2
    ensures Rearm(Rearm(z, id1, a1, d1), id2, a2, d2) == Rearm(Rearm(z, id2, a2, d2), id1, a1, d1)
  {
    hide Rearm;
    var left, right := Rearm(Rearm(z, id1, a1, d1), id2, a2, d2), Rearm(Rearm(z, id2, a2, d2), id1, a1, d1);
    forall m ensures m in left <==> m in right {
    }
    forall m | m in left ensures left[m] == right[m] {
    }
  }

  lemma EnqueueCommutes(z: map<Member, int>, id1: Id, f1: set<nat>, t1: int, id2: Id, f2: set<nat>, t2: int)
    requires id1 != id2
    ensures Enqueue(Enqueue(z, id1, f1, t1), id2, f2, t2) == Enqueue(Enqueue(z, id2, f2, t2), id1, f1, t1)
  {
    hide Enqueue;
    var left, right := Enqueue(Enqueue(z, id1, f1, t1), id2, f2, t2), Enqueue(Enqueue(z, id2, f2, t2), id1, f1, t1);
    forall m ensures m in left <==> m in right {
    }
    forall m | m in left ensures left[m] == right[m] {
    }
  }

  lemma UpdatesCommute<V>(m: map<Id, V>, k1: Id, v1: V, k2: Id, v2: V)
    requires k1 != k2
    ensures m[k1 := v1][k2 := v2] == m[k2 := v2][k1 := v1]
  {
  }

  lemma ApplyCommutes(db: Db, id1: Id, o1: Outcome, t1: int, id2: Id, o2: Outcome, t2: int)
    requires id1 != id2
    ensures Apply(Apply(db, id1, o1, t1), id2, o2, t2) == Apply(Apply(db, id2, o2, t2), id1, o1, t1)
  {
    RearmCommutes(db.deadlines, id1, o1.armed, o1.disarmed, id2, o2.armed, o2.disarmed);
    EnqueueCommutes(db.webhooks, id1, o1.failed, t1, id2, o2.failed, t2);
    UpdatesCommute(db.docs, id1, o1.doc, id2, o2.doc);
    UpdatesCommute(db.archive, id1, t1, id2, t2);
    hide Rearm, Enqueue;
  }

  /**
   Calls on different instances commute: state and both answers are the same in either
   order. Queue members of different instances are different texts.
   */
  lemma InstancesCommute(db: Db, id1: Id, c1: Call, id2: Id, c2: Call, i: nat, j: nat)
    requires id1 != id2
    ensures var (db1, r1) := Run(db, id1, c1);
            var (db12, r2) := Run(db1, id2, c2);
            var (db2, r2') := Run(db, id2, c2);
            var (db21, r1') := Run(db2, id1, c1);
            db12 == db21 && r1 == r1' && r2 == r2'
    ensures Codec.Print(TaskMember(id1, i)) != Codec.Print(TaskMember(id2, j))
  {
    Codec.MemberRoundTrip(id1, i);
    Codec.MemberRoundTrip(id2, j);
    hide Eval, Codec.Print, Codec.LuaSplit, Codec.GoSplit, Rearm, Enqueue;
    if id1 in db.docs && id2 in db.docs {
      ApplyCommutes(db, id1, Eval(db.docs[id1], c1), c1.now, id2, Eval(db.docs[id2], c2), c2.now);
    }
  }
}
