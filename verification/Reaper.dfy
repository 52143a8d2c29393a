/**
 The batched reaper: one script call that reaps every overdue task, against the simple
 form that runs the single-member `reap` once per overdue member.
 */
module Reaper {
  import opened Types
  import opened Script
  import opened Lifecycle
  import opened Engine
  import Codec
  import ZSet

  /* ---- the simple form ---- */

  function LoopMember(db: Db, now: int, m: Member): Db {
    match Codec.Locate(m)
    case None => db
    case Some((id, i)) => Run(db, id, ReapCall(i, now)).0
  }

  /** One single-member `reap` transition for every member of the list, in order. */
  function Loop(db: Db, now: int, due: seq<(Member, int)>): Db
    decreases |due|
  {
    if due == [] then db else Loop(LoopMember(db, now, due[0].0), now, due[1..])
  }

  /* ---- one member ---- */

  /** An examined member: its task exists and is PUBLISHED, perhaps in an instance that just failed. */
  ghost predicate Examined(docs: map<Id, Doc>, m: Member) {
    Addressable(docs, m) && docs[m.id].tasks[m.index].state == PUBLISHED
  }

  lemma ReapCommits(d: Doc, c: Call, i: nat)
    requires i < |d.tasks| && Ticking(d, i) && c.idxs == [i] && (c.action.Reap? || c.action.ReapBatch?)
    ensures Commits(d, c) && AnyOk(d, c)
    ensures Written(d, c) == {i}
  {
    assert DecideAt(d, c, 0) == OK;
    assert FirstRefusal(d, c) == 1;
  }

  /** Reaping a ticking task: both forms do the same, and the instance fails. */
  lemma ReapLive(d: Doc, i: nat, now: int)
    requires Ticking(d, i)
    ensures var o := Eval(d, BatchCall(i, now));
            && o == Eval(d, ReapCall(i, now))
            && o.reply.code == OK && o.reply.terminalNow && o.reply.webhookQueued
            && Terminal(o.doc) && |o.doc.tasks| == |d.tasks|
            && (forall j: nat | j < |d.tasks| && j != i :: o.doc.tasks[j] == d.tasks[j])
            && o.armed == map[] && o.disarmed == Below(|d.tasks|)
  {
    var b, r := BatchCall(i, now), ReapCall(i, now);
    ReapCommits(d, b, i);
    ReapCommits(d, r, i);
    EvalCases(d, b);
    EvalCases(d, r);
    hide Eval, Below, Commits, AnyOk, DecideAt, Decide, Written;
    assert WriteTasks(d, b) == WriteTasks(d, r);
    assert WriteTasks(d, b)[i].state == FAILED;
  }

  /** A sibling whose instance failed earlier in the same batch: nothing happens, in either form. */
  lemma ReapFrozen(d: Doc, i: nat, now: int)
    requires Terminal(d) && i < |d.tasks| && d.tasks[i].state == PUBLISHED
    ensures var o := Eval(d, BatchCall(i, now));
            && o.reply.code == INSTANCE_TERMINAL && !o.reply.terminalNow
            && o.doc == d && o.armed == map[] && o.disarmed == {} && o.failed == {}
    ensures var o := Eval(d, ReapCall(i, now));
            && o.reply.code == STALE && !o.reply.terminalNow
            && o.doc == d && o.armed == map[] && o.disarmed == {i} && o.failed == {}
  {
    var b, r := BatchCall(i, now), ReapCall(i, now);
    assert b.idxs == r.idxs == [i] && b.idxs[0] == i;
    assert FirstBadIndex(d, b.idxs) == 1;
    assert b.idxs[..1] == b.idxs;
    assert DecideAt(d, b, 0) == OK;
    assert FirstRefusal(d, b) == 1;
  }

  /** What one member of a batch does to the documents and deadlines. */
  ghost predicate Reaped(db: Db, db': Db, m: Member) {
    && m.TaskMember? && m.id in db.docs
    && db'.docs.Keys == db.docs.Keys
    && (forall id | id in db.docs && id != m.id :: db'.docs[id] == db.docs[id])
    && Terminal(db'.docs[m.id])
    && (forall x | Examined(db.docs, x) && x != m :: Examined(db'.docs, x))
    && (forall x | x in db'.deadlines :: x in db.deadlines && db'.deadlines[x] == db.deadlines[x] && x != m)
  }

  lemma ApplyFrozen(db: Db, id: Id, o: Outcome, now: int)
    requires id in db.docs && o.doc == db.docs[id] && !o.reply.terminalNow && o.armed == map[] && o.failed == {}
    requires forall i | i in o.disarmed :: TaskMember(id, i) !in db.deadlines
    ensures Apply(db, id, o, now) == db
  {
    hide Rearm, Enqueue;
    assert Rearm(db.deadlines, id, o.armed, o.disarmed) == db.deadlines;
    assert Enqueue(db.webhooks, id, o.failed, now) == db.webhooks;
    assert db.docs[id := o.doc] == db.docs;
  }

  lemma MemberFrozen(s: Sys, now: int, m: Member)
    requires Inv(s) && Examined(s.db.docs, m) && Terminal(s.db.docs[m.id])
    ensures Fire(s, m.id, BatchCall(m.index, now)).db == s.db == Run(s.db, m.id, ReapCall(m.index, now)).0
    ensures Run(s.db, m.id, BatchCall(m.index, now)).1.code == INSTANCE_TERMINAL
    ensures Reaped(s.db, s.db, m)
  {
    var d := s.db.docs[m.id];
    ReapFrozen(d, m.index, now);
    assert m in s.db.deadlines <==> Armed(s.db.docs, m);
    FireRuns(s, m.id, BatchCall(m.index, now));
    hide Eval, Fire, Apply, DocsInv, LogInv, PendingInv;
    ApplyFrozen(s.db, m.id, Eval(d, BatchCall(m.index, now)), now);
    ApplyFrozen(s.db, m.id, Eval(d, ReapCall(m.index, now)), now);
  }

  lemma ApplyReaped(db: Db, m: Member, o: Outcome, now: int)
    requires DeadlinesAgree(db) && m.TaskMember? && m.id in db.docs && m.index < |db.docs[m.id].tasks|
    requires Terminal(o.doc) && |o.doc.tasks| == |db.docs[m.id].tasks|
    requires forall j: nat | j < |o.doc.tasks| && j != m.index :: o.doc.tasks[j] == db.docs[m.id].tasks[j]
    requires o.armed == map[] && o.disarmed == Below(|db.docs[m.id].tasks|)
    ensures Reaped(db, Apply(db, m.id, o, now), m)
  {
    hide Rearm, Enqueue, Below;
    var db' := Apply(db, m.id, o, now);
    forall x | Examined(db.docs, x) && x != m ensures Examined(db'.docs, x) {
      if x.id == m.id { assert o.doc.tasks[x.index] == db.docs[m.id].tasks[x.index]; }
    }
    forall x | x in db'.deadlines ensures x != m {
    }
  }

  lemma MemberLive(s: Sys, now: int, m: Member)
    requires Inv(s) && Examined(s.db.docs, m) && !Terminal(s.db.docs[m.id])
    ensures Fire(s, m.id, BatchCall(m.index, now)).db == Run(s.db, m.id, ReapCall(m.index, now)).0
    ensures var r := Run(s.db, m.id, BatchCall(m.index, now)).1;
            r.code == OK && r.terminalNow && r.webhookQueued
    ensures Reaped(s.db, Fire(s, m.id, BatchCall(m.index, now)).db, m)
  {
    var d := s.db.docs[m.id];
    assert DocInv(d);
    ReapLive(d, m.index, now);
    FireRuns(s, m.id, BatchCall(m.index, now));
    hide Eval, Fire, Apply, DocsInv, LogInv, PendingInv, Reaped, DocInv;
    ApplyReaped(s.db, m, Eval(d, BatchCall(m.index, now)), now);
  }

  /** One member: the batch and the simple form agree; the instance is terminal and the member gone. */
  lemma MemberAgrees(s: Sys, now: int, m: Member)
    requires Inv(s) && Examined(s.db.docs, m)
    ensures var s1 := BatchMember(s, now, m);
            && s1.db == LoopMember(s.db, now, m) && Inv(s1) && Reaped(s.db, s1.db, m)
    ensures var r := Run(s.db, m.id, BatchCall(m.index, now)).1;
            if Terminal(s.db.docs[m.id]) then r.code == INSTANCE_TERMINAL
            else r.code == OK && r.terminalNow && r.webhookQueued
  {
    BatchMemberFires(s, now, m);
    FireKeeps(s, m.id, BatchCall(m.index, now));
    hide BatchMember, Fire, Run, Inv, Reaped;
    if Terminal(s.db.docs[m.id]) { MemberFrozen(s, now, m); } else { MemberLive(s, now, m); }
  }

  /* ---- the whole batch ---- */

  ghost predicate AllExamined(docs: map<Id, Doc>, due: seq<(Member, int)>) {
    forall k | 0 <= k < |due| :: Examined(docs, due[k].0)
  }

  lemma RestExamined(db: Db, db': Db, due: seq<(Member, int)>)
    requires due != [] && ZSet.DistinctKeys(due) && AllExamined(db.docs, due) && Reaped(db, db', due[0].0)
    ensures AllExamined(db'.docs, due[1..]) && ZSet.DistinctKeys(due[1..])
  {
    hide Examined;
    var rest := due[1..];
    forall k | 0 <= k < |rest| ensures Examined(db'.docs, rest[k].0) {
      assert rest[k] == due[k + 1];
      assert Examined(db.docs, due[k + 1].0) && due[k + 1].0 != due[0].0;
    }
  }

  lemma {:induction false} BatchAgrees(s: Sys, now: int, due: seq<(Member, int)>)
    requires Inv(s) && ZSet.DistinctKeys(due) && AllExamined(s.db.docs, due)
    ensures Batch(s, now, due).db == Loop(s.db, now, due)
    ensures var z := Batch(s, now, due).db.deadlines;
            forall x | x in z :: x in s.db.deadlines && z[x] == s.db.deadlines[x] && !ZSet.HasKey(due, x)
    decreases |due|
  {
    if due != [] {
      var s1 := BatchMember(s, now, due[0].0);
      assert Examined(s.db.docs, due[0].0);
      MemberAgrees(s, now, due[0].0);
      RestExamined(s.db, s1.db, due);
      hide Inv, BatchMember, LoopMember, AllExamined, ZSet.DistinctKeys;
      BatchAgrees(s1, now, due[1..]);
      var z := Batch(s1, now, due[1..]).db.deadlines;
      hide ZSet.HasKey, Examined;
      forall x | x in z ensures x in s.db.deadlines && z[x] == s.db.deadlines[x] && !ZSet.HasKey(due, x) {
        ZSet.HasKeySplit(due, x);
      }
    }
  }

  lemma DueExamined(s: Sys, now: int, limit: nat, due: seq<(Member, int)>)
    requires Inv(s) && ZSet.IsRange(s.db.deadlines, now, limit, due)
    ensures AllExamined(s.db.docs, due) && ZSet.DistinctKeys(due)
  {
    DueAddressable(s, now, limit, due);
  }

  /**
   In every reachable state one reap_batch call leaves documents, deadlines and both
   queues exactly as running single `reap` transitions over the due members would.
   */
  lemma BatchIsLoop(steps: seq<Step>, now: int, limit: nat, due: seq<(Member, int)>)
    requires IsRun(INIT, steps) && ZSet.IsRange(After(INIT, steps).db.deadlines, now, limit, due)
    ensures var s := After(INIT, steps);
            Next(s, Tick(now, limit, due)).db == Loop(s.db, now, due)
  {
    ReachableInv(steps);
    hide After, IsRun;
    DueExamined(After(INIT, steps), now, limit, due);
    ScriptSteps(After(INIT, steps), Tick(now, limit, due));
    hide Inv, ZSet.IsRange, AllExamined, ZSet.DistinctKeys, Batch, Loop, Next;
    BatchAgrees(After(INIT, steps), now, due);
  }

  /* ---- arbitrary stores ---- */

  /** The member names a task that exists. */
  ghost predicate Exists(docs: map<Id, Doc>, id: Id, i: nat) {
    id in docs && i < |docs[id].tasks|
  }

  lemma StaleEval(d: Doc, i: nat, now: int)
    requires i < |d.tasks| && !Ticking(d, i)
    ensures var o := Eval(d, BatchCall(i, now));
            && o.doc == d && o.armed == map[] && o.failed == {} && !o.reply.terminalNow
            && o.disarmed == {} && !Unresolvable(o.reply.code)
    ensures var o := Eval(d, ReapCall(i, now));
            o.doc == d && o.armed == map[] && o.failed == {} && !o.reply.terminalNow && o.disarmed == {i}
  {
    var b, r := BatchCall(i, now), ReapCall(i, now);
    assert b.idxs == r.idxs == [i] && b.idxs[0] == i;
    assert FirstBadIndex(d, b.idxs) == 1;
    assert b.idxs[..1] == b.idxs;
    if d.tasks[i].state == PUBLISHED {
      assert DecideAt(d, b, 0) == OK;
      assert FirstRefusal(d, b) == 1;
    } else {
      assert !Accepted(DecideAt(d, b, 0)) && !Accepted(DecideAt(d, r, 0));
      assert FirstRefusal(d, b) == 0 && FirstRefusal(d, r) == 0;
    }
  }

  lemma UnresolvableEval(d: Doc, c: Call)
    requires |c.idxs| == 1 && !(0 <= c.idxs[0] < |d.tasks|)
    ensures var o := Eval(d, c);
            && Unresolvable(o.reply.code) && !o.reply.terminalNow
            && o.doc == d && o.armed == map[] && o.failed == {} && o.disarmed == {}
  {
    assert FirstBadIndex(d, c.idxs) == 0;
  }

  lemma ApplyDisarm(db: Db, id: Id, o: Outcome, now: int, i: nat)
    requires id in db.docs && o.doc == db.docs[id] && !o.reply.terminalNow && o.armed == map[] && o.failed == {}
    requires o.disarmed == {i}
    ensures Apply(db, id, o, now) == db.(deadlines := db.deadlines - {TaskMember(id, i)})
  {
    hide Rearm, Enqueue;
    assert Rearm(db.deadlines, id, map[], {i}) == db.deadlines - {TaskMember(id, i)};
    assert Enqueue(db.webhooks, id, {}, now) == db.webhooks;
    assert db.docs[id := o.doc] == db.docs;
  }

  /** What the two forms do to a store for one member, wherever the store comes from. */
  ghost predicate Effect(db: Db, b: Db, l: Db, m: Member, id: Id, i: nat) {
    if !Exists(db.docs, id, i) then b == db.(deadlines := db.deadlines - {m}) && l == db
    else if Ticking(db.docs[id], i) then
      && b == l && l.docs.Keys == db.docs.Keys && (forall x | x in db.docs && x != id :: l.docs[x] == db.docs[x])
      && Terminal(l.docs[id]) && |l.docs[id].tasks| == |db.docs[id].tasks|
      && l.deadlines == Rearm(db.deadlines, id, map[], Below(|db.docs[id].tasks|))
    else b == db && l == db.(deadlines := db.deadlines - {TaskMember(id, i)})
  }

  ghost predicate EffectOf(s: Sys, now: int, m: Member, id: Id, i: nat) {
    Effect(s.db, BatchMember(s, now, m).db, LoopMember(s.db, now, m), m, id, i)
  }

  lemma MissingEffect(s: Sys, now: int, m: Member, id: Id, i: nat)
    requires Codec.Locate(m) == Some((id, i)) && !Exists(s.db.docs, id, i)
    ensures EffectOf(s, now, m, id, i)
  {
    hide Eval, Apply, Rearm, Codec.LuaSplit, Codec.Print;
    if id in s.db.docs {
      var d := s.db.docs[id];
      UnresolvableEval(d, BatchCall(i, now));
      UnresolvableEval(d, ReapCall(i, now));
      ApplyFrozen(s.db, id, Eval(d, BatchCall(i, now)), now);
      ApplyFrozen(s.db, id, Eval(d, ReapCall(i, now)), now);
    }
  }

  lemma StaleEffect(s: Sys, now: int, m: Member, id: Id, i: nat)
    requires Codec.Locate(m) == Some((id, i)) && Exists(s.db.docs, id, i) && !Ticking(s.db.docs[id], i)
    ensures EffectOf(s, now, m, id, i)
  {
    hide Eval, Apply, Rearm, Codec.LuaSplit, Codec.Print;
    var d := s.db.docs[id];
    StaleEval(d, i, now);
    ApplyFrozen(s.db, id, Eval(d, BatchCall(i, now)), now);
    ApplyDisarm(s.db, id, Eval(d, ReapCall(i, now)), now, i);
  }

  lemma TickingEffect(s: Sys, now: int, m: Member, id: Id, i: nat)
    requires Codec.Locate(m) == Some((id, i)) && Exists(s.db.docs, id, i) && Ticking(s.db.docs[id], i)
    ensures EffectOf(s, now, m, id, i)
  {
    hide Eval, Rearm, Enqueue, Below, Codec.LuaSplit, Codec.Print, Ticking;
    ReapLive(s.db.docs[id], i, now);
  }

  lemma MemberEffect(s: Sys, now: int, m: Member, id: Id, i: nat)
    requires Codec.Locate(m) == Some((id, i))
    ensures EffectOf(s, now, m, id, i)
  {
    hide EffectOf, Codec.LuaSplit, Codec.Print;
    if !Exists(s.db.docs, id, i) { MissingEffect(s, now, m, id, i); }
    else if Ticking(s.db.docs[id], i) { TickingEffect(s, now, m, id, i); }
    else { StaleEffect(s, now, m, id, i); }
  }

  /**
   On an arbitrary store, for any member of the deadlines, the two forms agree exactly when the member
   names an existing task that ticks (its instance live, the task PUBLISHED) or has no deadline in
   canonical text. A stale deadline is dropped by `reap` and kept by the batch; one that names no task, or is
   malformed, is kept by `reap` and dropped by the batch.
   */
  lemma MemberAgreesIff(s: Sys, now: int, m: Member)
    requires m in s.db.deadlines
    ensures BatchMember(s, now, m).db == LoopMember(s.db, now, m) <==>
              match Codec.Locate(m)
              case None => false
              case Some((id, i)) =>
                Exists(s.db.docs, id, i) && (Ticking(s.db.docs[id], i) || TaskMember(id, i) !in s.db.deadlines)
  {
    hide Fire, Run, Codec.LuaSplit, Codec.Print, Rearm, Below, Ticking;
    match Codec.Locate(m) {
      case None =>
        assert m !in BatchMember(s, now, m).db.deadlines;
      case Some((id, i)) =>
        MemberEffect(s, now, m, id, i);
        hide BatchMember, LoopMember;
        assert m !in s.db.deadlines - {m};
        assert TaskMember(id, i) !in s.db.deadlines ==> s.db.deadlines - {TaskMember(id, i)} == s.db.deadlines;
    }
  }

  /* ---- whole batches on arbitrary stores ---- */

  ghost predicate SameElse(a: Db, b: Db) {
    a.docs == b.docs && a.archive == b.archive && a.webhooks == b.webhooks
  }

  /** Deadlines play no part in what a reap does to the rest. */
  lemma LoopMemberElse(a: Db, b: Db, now: int, m: Member)
    requires SameElse(a, b)
    ensures SameElse(LoopMember(a, now, m), LoopMember(b, now, m))
  {
    hide Eval, Rearm, Enqueue, Codec.LuaSplit, Codec.Print;
  }

  lemma TaskEffect(s: Sys, now: int, m: Member)
    requires m.TaskMember?
    ensures Effect(s.db, BatchMember(s, now, m).db, LoopMember(s.db, now, m), m, m.id, m.index)
  {
    hide Effect, BatchMember, LoopMember, Codec.LuaSplit, Codec.Print;
    MemberEffect(s, now, m, m.id, m.index);
  }

  lemma MemberElse(s: Sys, l: Db, now: int, m: Member)
    requires m.TaskMember? && SameElse(s.db, l)
    ensures SameElse(BatchMember(s, now, m).db, LoopMember(l, now, m))
  {
    hide BatchMember, LoopMember, Rearm, Ticking, Below;
    TaskEffect(s, now, m);
    LoopMemberElse(s.db, l, now, m);
  }

  ghost predicate AllTasks(due: seq<(Member, int)>) {
    forall k | 0 <= k < |due| :: due[k].0.TaskMember?
  }

  lemma {:induction false} BatchElse(s: Sys, l: Db, now: int, due: seq<(Member, int)>)
    requires AllTasks(due) && SameElse(s.db, l)
    ensures SameElse(Batch(s, now, due).db, Loop(l, now, due))
    decreases |due|
  {
    hide BatchMember, LoopMember, SameElse;
    if due != [] {
      assert forall k | 0 <= k < |due| - 1 :: due[1..][k] == due[k + 1];
      MemberElse(s, l, now, due[0].0);
      BatchElse(BatchMember(s, now, due[0].0), LoopMember(l, now, due[0].0), now, due[1..]);
    }
  }

  /** One of the members ticks in this instance, so that the batch ends it. */
  ghost predicate Hit(docs: map<Id, Doc>, due: seq<(Member, int)>, id: Id) {
    exists k :: 0 <= k < |due| && TicksIn(docs, due[k].0, id)
  }

  ghost predicate TicksIn(docs: map<Id, Doc>, m: Member, id: Id) {
    m.TaskMember? && m.id == id && Exists(docs, id, m.index) && Ticking(docs[id], m.index)
  }

  /** The deadline goes with its instance. */
  ghost predicate Swept(docs: map<Id, Doc>, due: seq<(Member, int)>, x: Member) {
    x.TaskMember? && Exists(docs, x.id, x.index) && Hit(docs, due, x.id)
  }

  ghost predicate Named(docs: map<Id, Doc>, x: Member) {
    x.TaskMember? && Exists(docs, x.id, x.index)
  }

  /** The documents after the first member: the same tasks, and no task of an instance it ended ticks. */
  ghost predicate Shifted(docs: map<Id, Doc>, docs': map<Id, Doc>, m: Member) {
    && docs'.Keys == docs.Keys
    && (forall id | id in docs :: |docs'[id].tasks| == |docs[id].tasks|)
    && (forall id | id in docs && !TicksIn(docs, m, id) :: docs'[id] == docs[id])
    && (forall id | id in docs && TicksIn(docs, m, id) :: Terminal(docs'[id]))
  }

  lemma EffectShifts(db: Db, b: Db, l: Db, m: Member)
    requires m.TaskMember? && Effect(db, b, l, m, m.id, m.index)
    ensures Shifted(db.docs, l.docs, m) && SameElse(b, l)
  {
    hide Rearm, Ticking, Below;
  }

  lemma MemberShifts(s: Sys, now: int, m: Member)
    requires m.TaskMember?
    ensures Shifted(s.db.docs, LoopMember(s.db, now, m).docs, m)
    ensures SameElse(BatchMember(s, now, m).db, LoopMember(s.db, now, m))
  {
    hide BatchMember, LoopMember, Effect, Shifted, SameElse;
    TaskEffect(s, now, m);
    EffectShifts(s.db, BatchMember(s, now, m).db, LoopMember(s.db, now, m), m);
  }

  lemma ShiftKeeps(docs: map<Id, Doc>, docs': map<Id, Doc>, due: seq<(Member, int)>, x: Member)
    requires due != [] && due[0].0.TaskMember? && Shifted(docs, docs', due[0].0)
    ensures Named(docs', x) <==> Named(docs, x)
    ensures Swept(docs, due, x)
            <==> (x.TaskMember? && Named(docs, x) && TicksIn(docs, due[0].0, x.id)) || Swept(docs', due[1..], x)
  {
    if x.TaskMember? && Named(docs, x) {
      var id := x.id;
      assert docs'[id] == docs[id] || Terminal(docs'[id]);
      if Hit(docs, due, id) {
        var k :| 0 <= k < |due| && TicksIn(docs, due[k].0, id);
        if k > 0 { assert due[1..][k - 1] == due[k]; }
      }
      if Hit(docs', due[1..], id) {
        var k :| 0 <= k < |due| - 1 && TicksIn(docs', due[1..][k].0, id);
        assert due[1..][k] == due[k + 1];
      }
    }
  }

  /** What one member does to one deadline, in both forms. */
  ghost predicate Drops(db: Db, b: Db, l: Db, m: Member, x: Member) {
    var swept := Named(db.docs, x) && TicksIn(db.docs, m, x.id);
    && (x in b.deadlines <==> (x in db.deadlines && !swept && !(x == m && !Named(db.docs, x))))
    && (x in l.deadlines <==> (x in db.deadlines && !swept && !(x == m && Named(db.docs, x))))
    && (x in b.deadlines ==> b.deadlines[x] == db.deadlines[x])
    && (x in l.deadlines ==> l.deadlines[x] == db.deadlines[x])
  }

  lemma EffectDrops(db: Db, b: Db, l: Db, m: Member, x: Member)
    requires m.TaskMember? && Effect(db, b, l, m, m.id, m.index)
    ensures Drops(db, b, l, m, x)
  {
    hide Ticking, Rearm, Below;
  }

  lemma MemberDrops(s: Sys, now: int, m: Member, x: Member)
    requires m.TaskMember?
    ensures Drops(s.db, BatchMember(s, now, m).db, LoopMember(s.db, now, m), m, x)
  {
    hide BatchMember, LoopMember, Effect, Drops;
    TaskEffect(s, now, m);
    EffectDrops(s.db, BatchMember(s, now, m).db, LoopMember(s.db, now, m), m, x);
  }

  lemma {:induction false} BatchDrops(s: Sys, now: int, due: seq<(Member, int)>, x: Member)
    requires AllTasks(due)
    ensures var z := Batch(s, now, due).db.deadlines;
            && (x in z <==> x in s.db.deadlines && !Swept(s.db.docs, due, x)
                            && !(ZSet.HasKey(due, x) && !Named(s.db.docs, x)))
            && (x in z ==> z[x] == s.db.deadlines[x])
    decreases |due|
  {
    hide BatchMember, LoopMember, Swept, Named, TicksIn, ZSet.HasKey, Shifted;
    if due == [] {
      NothingSwept(s.db.docs, x);
    } else {
      var m, s1 := due[0].0, BatchMember(s, now, due[0].0);
      assert forall k | 0 <= k < |due| - 1 :: due[1..][k] == due[k + 1];
      MemberShifts(s, now, m);
      MemberDrops(s, now, m, x);
      ShiftKeeps(s.db.docs, s1.db.docs, due, x);
      ZSet.HasKeySplit(due, x);
      BatchDrops(s1, now, due[1..], x);
      NamedTask(s.db.docs, x);
    }
  }

  lemma {:induction false} LoopDrops(s: Sys, now: int, due: seq<(Member, int)>, x: Member)
    requires AllTasks(due)
    ensures var z := Loop(s.db, now, due).deadlines;
            && (x in z <==> x in s.db.deadlines && !Swept(s.db.docs, due, x)
                            && !(ZSet.HasKey(due, x) && Named(s.db.docs, x)))
            && (x in z ==> z[x] == s.db.deadlines[x])
    decreases |due|
  {
    hide BatchMember, LoopMember, Swept, Named, TicksIn, ZSet.HasKey, Shifted;
    if due == [] {
      NothingSwept(s.db.docs, x);
    } else {
      var m, s1 := due[0].0, s.(db := LoopMember(s.db, now, due[0].0));
      assert forall k | 0 <= k < |due| - 1 :: due[1..][k] == due[k + 1];
      MemberShifts(s, now, m);
      MemberDrops(s, now, m, x);
      ShiftKeeps(s.db.docs, s1.db.docs, due, x);
      ZSet.HasKeySplit(due, x);
      LoopDrops(s1, now, due[1..], x);
      NamedTask(s.db.docs, x);
    }
  }

  lemma NamedTask(docs: map<Id, Doc>, x: Member)
    ensures Named(docs, x) ==> x.TaskMember?
  {
  }

  lemma NothingSwept(docs: map<Id, Doc>, x: Member)
    ensures !Swept(docs, [], x) && !ZSet.HasKey([], x)
  {
  }

  /**
   On an arbitrary store, a batch over task members that have deadlines leaves what the loop of single reaps
   leaves if and only if every one of them names an existing task of an instance that some member of the
   batch ends. So a stale deadline makes no difference when another member of its instance ticks.
   */
  lemma BatchAgreesIff(s: Sys, now: int, due: seq<(Member, int)>)
    requires AllTasks(due) && forall k | 0 <= k < |due| :: due[k].0 in s.db.deadlines
    ensures Batch(s, now, due).db == Loop(s.db, now, due)
            <==> forall k | 0 <= k < |due| :: Swept(s.db.docs, due, due[k].0)
  {
    hide Batch, Loop, Swept, Named;
    BatchElse(s, s.db, now, due);
    var b, l := Batch(s, now, due).db, Loop(s.db, now, due);
    forall x
      ensures x in b.deadlines <==> (x in s.db.deadlines && !Swept(s.db.docs, due, x)
                                     && !(ZSet.HasKey(due, x) && !Named(s.db.docs, x)))
      ensures x in b.deadlines ==> b.deadlines[x] == s.db.deadlines[x]
    {
      BatchDrops(s, now, due, x);
    }
    forall x
      ensures x in l.deadlines <==> (x in s.db.deadlines && !Swept(s.db.docs, due, x)
                                     && !(ZSet.HasKey(due, x) && Named(s.db.docs, x)))
      ensures x in l.deadlines ==> l.deadlines[x] == s.db.deadlines[x]
    {
      LoopDrops(s, now, due, x);
    }
    if forall k | 0 <= k < |due| :: Swept(s.db.docs, due, due[k].0) {
      assert forall x | ZSet.HasKey(due, x) :: Swept(s.db.docs, due, x);
      assert b.deadlines == l.deadlines;
    } else {
      var k :| 0 <= k < |due| && !Swept(s.db.docs, due, due[k].0);
      assert ZSet.HasKey(due, due[k].0);
      assert due[k].0 in b.deadlines <==> due[k].0 !in l.deadlines;
    }
  }
}
