/**
 The transition script as it runs: Redis keys updated in place, command by command, with the
 script's own loops. Every operation is proved equal to its mathematical form.
 */
module Store {
  import opened Json
  import opened Types
  import opened Script
  import opened Lifecycle
  import E = Engine
  import A = Accounting
  import R = Reaper
  import Contract
  import Codec
  import ZSet

  /* ---- the script's phases as functions of how far a loop has got ---- */

  /** The call restricted to its first n targets. */
  function Upto(c: Call, n: nat): Call
    requires n <= |c.idxs|
  {
    c.(idxs := c.idxs[..n])
  }

  /** The store after the write phase. */
  function WroteAll(db: Db, id: Id, c: Call): Db
    requires id in db.docs
  {
    var d := db.docs[id];
    Db(db.docs[id := d.(tasks := WriteTasks(d, c))],
       Rearm(db.deadlines, id, ArmedBy(d, c), DisarmedBy(d, c)),
       db.archive,
       Enqueue(db.webhooks, id, FailedBy(d, c), c.now))
  }

  /** The commands that write one target. */
  function WriteOne(db: Db, id: Id, c: Call, i: nat, spec: TaskSpec): Db
    requires id in db.docs && i < |db.docs[id].tasks|
  {
    var d := db.docs[id];
    var m := TaskMember(id, i);
    var docs := db.docs[id := d.(tasks := d.tasks[i := Stamp(d.tasks[i], c)])];
    if c.action.Publish? then db.(docs := docs, deadlines := db.deadlines[m := c.now + spec.timeout])
    else if c.action.Consume? then db.(docs := docs, deadlines := db.deadlines - {m})
    else db.(docs := docs, deadlines := db.deadlines - {m}, webhooks := db.webhooks[m := c.now])
  }

  lemma WrittenStep(d: Doc, c: Call, n: nat)
    requires InRange(d, c.idxs) && n < |c.idxs|
    ensures var i := c.idxs[n];
            Written(d, Upto(c, n + 1))
            == if Writes(c.action, d.tasks[i].state) then Written(d, Upto(c, n)) + {i} else Written(d, Upto(c, n))
  {
    assert c.idxs[..n + 1] == c.idxs[..n] + [c.idxs[n]];
  }

  lemma RearmNone(z: map<Member, int>, id: Id)
    ensures Rearm(z, id, map[], {}) == z
  {
    hide Rearm;
  }

  lemma EnqueueNone(z: map<Member, int>, id: Id, now: int)
    ensures Enqueue(z, id, {}, now) == z
  {
    hide Enqueue;
  }

  lemma WrittenNone(d: Doc, c: Call)
    ensures Written(d, Upto(c, 0)) == {} && WriteTasks(d, Upto(c, 0)) == d.tasks
    ensures ArmedBy(d, Upto(c, 0)) == map[]
  {
  }

  lemma WriteNone(db: Db, id: Id, c: Call)
    requires id in db.docs
    ensures WroteAll(db, id, Upto(c, 0)) == db
  {
    hide Written, WriteTasks, ArmedBy, Rearm, Enqueue;
    WrittenNone(db.docs[id], c);
    RearmNone(db.deadlines, id);
    EnqueueNone(db.webhooks, id, c.now);
    assert db.docs[id := db.docs[id]] == db.docs;
  }

  lemma TasksStep(d: Doc, c: Call, n: nat)
    requires InRange(d, c.idxs) && n < |c.idxs|
    ensures var i := c.idxs[n];
            var tasks := WriteTasks(d, Upto(c, n));
            WriteTasks(d, Upto(c, n + 1))
            == if Writes(c.action, d.tasks[i].state) then tasks[i := Stamp(tasks[i], c)] else tasks
  {
    WrittenStep(d, c, n);
    hide Written;
    assert Stamp(Stamp(d.tasks[c.idxs[n]], c), c) == Stamp(d.tasks[c.idxs[n]], c);
  }

  lemma RearmMore(z: map<Member, int>, id: Id, armed: map<nat, int>, i: nat, score: int)
    ensures Rearm(z, id, armed[i := score], {}) == Rearm(z, id, armed, {})[TaskMember(id, i) := score]
  {
    hide Rearm;
  }

  lemma DisarmMore(z: map<Member, int>, id: Id, disarmed: set<nat>, i: nat)
    ensures Rearm(z, id, map[], disarmed + {i}) == Rearm(z, id, map[], disarmed) - {TaskMember(id, i)}
  {
    hide Rearm;
  }

  lemma EnqueueMore(z: map<Member, int>, id: Id, tasks: set<nat>, i: nat, now: int)
    ensures Enqueue(z, id, tasks + {i}, now) == Enqueue(z, id, tasks, now)[TaskMember(id, i) := now]
  {
    hide Enqueue;
  }

  lemma ArmedStep(d: Doc, c: Call, n: nat)
    requires InRange(d, c.idxs) && n < |c.idxs| && Writes(c.action, d.tasks[c.idxs[n]].state)
    ensures var i, before, after := c.idxs[n], Upto(c, n), Upto(c, n + 1);
            if c.action.Publish? then
              && ArmedBy(d, after) == ArmedBy(d, before)[i := c.now + d.tasks[i].spec.timeout]
              && DisarmedBy(d, after) == DisarmedBy(d, before) == {}
            else
              && ArmedBy(d, after) == ArmedBy(d, before) == map[]
              && DisarmedBy(d, after) == DisarmedBy(d, before) + {i}
  {
    hide Written, Writes;
    WrittenStep(d, c, n);
  }

  lemma DeadlinesStep(z: map<Member, int>, id: Id, d: Doc, c: Call, n: nat)
    requires InRange(d, c.idxs) && n < |c.idxs| && Writes(c.action, d.tasks[c.idxs[n]].state)
    ensures var i := c.idxs[n];
            var m := TaskMember(id, i);
            var before := Rearm(z, id, ArmedBy(d, Upto(c, n)), DisarmedBy(d, Upto(c, n)));
            Rearm(z, id, ArmedBy(d, Upto(c, n + 1)), DisarmedBy(d, Upto(c, n + 1)))
            == if c.action.Publish? then before[m := c.now + d.tasks[i].spec.timeout] else before - {m}
  {
    hide Rearm, ArmedBy, DisarmedBy, Writes;
    var i := c.idxs[n];
    ArmedStep(d, c, n);
    RearmMore(z, id, ArmedBy(d, Upto(c, n)), i, c.now + d.tasks[i].spec.timeout);
    DisarmMore(z, id, DisarmedBy(d, Upto(c, n)), i);
  }

  lemma WebhooksStep(z: map<Member, int>, id: Id, d: Doc, c: Call, n: nat)
    requires InRange(d, c.idxs) && n < |c.idxs| && Writes(c.action, d.tasks[c.idxs[n]].state)
    ensures var before := Enqueue(z, id, FailedBy(d, Upto(c, n)), c.now);
            Enqueue(z, id, FailedBy(d, Upto(c, n + 1)), c.now)
            == if c.action.Publish? || c.action.Consume? then before else before[TaskMember(id, c.idxs[n]) := c.now]
  {
    WrittenStep(d, c, n);
    hide Written, Enqueue, Writes;
    EnqueueMore(z, id, Written(d, Upto(c, n)), c.idxs[n], c.now);
  }

  lemma SameWritten(d: Doc, c: Call, n: nat)
    requires InRange(d, c.idxs) && n < |c.idxs| && !Writes(c.action, d.tasks[c.idxs[n]].state)
    ensures ArmedBy(d, Upto(c, n + 1)) == ArmedBy(d, Upto(c, n))
    ensures DisarmedBy(d, Upto(c, n + 1)) == DisarmedBy(d, Upto(c, n))
    ensures FailedBy(d, Upto(c, n + 1)) == FailedBy(d, Upto(c, n))
  {
    WrittenStep(d, c, n);
    hide Written;
  }

  /** One turn of the write loop. */
  lemma WriteStep(db: Db, id: Id, c: Call, n: nat)
    requires id in db.docs && InRange(db.docs[id], c.idxs) && n < |c.idxs|
    ensures var d := db.docs[id];
            var i := c.idxs[n];
            var before := WroteAll(db, id, Upto(c, n));
            WroteAll(db, id, Upto(c, n + 1))
            == if Writes(c.action, d.tasks[i].state) then WriteOne(before, id, c, i, d.tasks[i].spec) else before
  {
    hide Rearm, Enqueue, WriteTasks, ArmedBy, DisarmedBy, FailedBy, Stamp, Writes;
    var d := db.docs[id];
    TasksStep(d, c, n);
    if Writes(c.action, d.tasks[c.idxs[n]].state) {
      DeadlinesStep(db.deadlines, id, d, c, n);
      WebhooksStep(db.webhooks, id, d, c, n);
    } else {
      SameWritten(d, c, n);
    }
  }

  /** Setting deadlines, removing some, and then removing those of all tasks. */
  lemma DisarmAll(z: map<Member, int>, id: Id, armed: map<nat, int>, disarmed: set<nat>, n: nat)
    requires forall i | i in armed || i in disarmed :: i < n
    ensures Rearm(Rearm(z, id, armed, disarmed), id, map[], Below(n)) == Rearm(z, id, armed, Below(n))
  {
    hide Rearm;
  }

  /** Refusals drop at most one member. */
  lemma ApplyRefusal(db: Db, id: Id, o: Outcome, now: int)
    requires id in db.docs && o.doc == db.docs[id] && o.armed == map[] && o.failed == {} && !o.reply.terminalNow
    ensures o.disarmed == {} ==> Apply(db, id, o, now) == db
    ensures forall i | o.disarmed == {i} ::
              Apply(db, id, o, now) == db.(deadlines := db.deadlines - {TaskMember(id, i)})
  {
    hide Rearm, Enqueue;
    assert Enqueue(db.webhooks, id, {}, now) == db.webhooks;
    assert db.docs[id := o.doc] == db.docs;
    assert Rearm(db.deadlines, id, map[], {}) == db.deadlines;
    forall i | o.disarmed == {i} ensures Rearm(db.deadlines, id, map[], {i}) == db.deadlines - {TaskMember(id, i)} {
    }
  }

  /** An accepted target is written exactly on the script's conditions. */
  lemma WriteCondition(action: Action, retry: bool, state: TaskState)
    requires Accepted(Decide(action, retry, state))
    ensures Writes(action, state) <==>
              if action.Publish? then Decide(action, retry, state) == OK || state == PUBLISHED
              else Decide(action, retry, state) == OK
  {
  }

  /** The script's local `states` table. */
  predicate StatesOf(states: seq<TaskState>, tasks: seq<Task>) {
    |states| == |tasks| && forall i | 0 <= i < |tasks| :: states[i] == tasks[i].state
  }

  lemma FailedNone(d: Doc, c: Call)
    ensures FailedBy(d, Upto(c, 0)) == {}
  {
  }

  /** What a written document keeps. */
  lemma WroteDoc(db: Db, id: Id, c: Call)
    requires id in db.docs
    ensures var after := WroteAll(db, id, c);
            && after.docs == db.docs[id := db.docs[id].(tasks := WriteTasks(db.docs[id], c))]
            && id in after.docs && |after.docs[id].tasks| == |db.docs[id].tasks|
            && forall i | 0 <= i < |db.docs[id].tasks| :: after.docs[id].tasks[i].spec == db.docs[id].tasks[i].spec
  {
    hide Rearm, Enqueue;
  }

  /**
   The script's test for writing a target, made on its current `states`, is the test on the document
   as it was before the loop; and the `states` follow the document.
   */
  lemma StatesStep(d: Doc, c: Call, n: nat, states: seq<TaskState>, decision: Code)
    requires InRange(d, c.idxs) && n < |c.idxs| && StatesOf(states, WriteTasks(d, Upto(c, n)))
    requires decision == Decide(c.action, c.retry, d.tasks[c.idxs[n]].state) && Accepted(decision)
    ensures var i := c.idxs[n];
            var writes := Writes(c.action, d.tasks[i].state);
            && (writes <==> if c.action.Publish? then decision == OK || states[i] == PUBLISHED else decision == OK)
            && StatesOf(if writes then states[i := Goal(c.action)] else states, WriteTasks(d, Upto(c, n + 1)))
            && FailedBy(d, Upto(c, n + 1))
               == if writes && !c.action.Publish? && !c.action.Consume? then FailedBy(d, Upto(c, n)) + {i}
                  else FailedBy(d, Upto(c, n))
  {
    TasksStep(d, c, n);
    WrittenStep(d, c, n);
    WriteCondition(c.action, c.retry, d.tasks[c.idxs[n]].state);
    hide Decide;
  }

  /** The store after the instance transition that follows a task transition. */
  function Settled(db: Db, id: Id, now: int): Db
    requires id in db.docs
  {
    var d := db.docs[id];
    var after := Settle(d, now);
    Db(db.docs[id := after],
       if AnyFailed(d.tasks) then Rearm(db.deadlines, id, map[], Below(|d.tasks|)) else db.deadlines,
       if Terminal(after) then db.archive[id := now] else db.archive,
       db.webhooks)
  }

  lemma WrittenBelow(d: Doc, c: Call)
    ensures forall i | i in ArmedBy(d, c) || i in DisarmedBy(d, c) :: i < |d.tasks|
  {
  }

  lemma LastUpdateWins<V>(docs: map<Id, V>, id: Id, a: V, b: V)
    ensures docs[id := a][id := b] == docs[id := b]
  {
  }

  lemma CommitDeadlinesInPhases(z: map<Member, int>, id: Id, d: Doc, c: Call)
    requires Commits(d, c)
    ensures var o := Commit(d, c);
            var w := Rearm(z, id, ArmedBy(d, c), DisarmedBy(d, c));
            Rearm(z, id, o.armed, o.disarmed)
            == if AnyOk(d, c) && AnyFailed(WriteTasks(d, c)) then Rearm(w, id, map[], Below(|d.tasks|)) else w
  {
    CommitParts(d, c);
    WrittenBelow(d, c);
    DisarmAll(z, id, ArmedBy(d, c), DisarmedBy(d, c), |d.tasks|);
    hide Commit, Commits, Rearm, WriteTasks, ArmedBy, DisarmedBy, AnyOk, AnyFailed, Below;
  }

  /** The write phase, and then the instance transition, do what an accepted call does. */
  lemma CommitInPhases(db: Db, id: Id, c: Call)
    requires id in db.docs && Commits(db.docs[id], c)
    ensures var w := WroteAll(db, id, c);
            Apply(db, id, Commit(db.docs[id], c), c.now) == if AnyOk(db.docs[id], c) then Settled(w, id, c.now) else w
  {
    hide Commit, Commits, Rearm, Enqueue, WriteTasks, ArmedBy, DisarmedBy, FailedBy,
         AnyOk, AnyFailed, AllCompleted, Below;
    var d := db.docs[id];
    var wrote := d.(tasks := WriteTasks(d, c));
    CommitParts(d, c);
    CommitDeadlinesInPhases(db.deadlines, id, d, c);
    LastUpdateWins(db.docs, id, wrote, Settle(wrote, c.now));
    CommitLive(d, c);
  }

  lemma CommitReply(d: Doc, c: Call)
    requires Commits(d, c)
    ensures var after := Commit(d, c).doc;
            Commit(d, c).reply
            == Reply(if AnyOk(d, c) then OK else IDEMPOTENT, TargetStates(after, c.idxs), Some(after.state),
                     Terminal(after), FailedBy(d, c) != {}, -1)
    ensures Commit(d, c).doc == if AnyOk(d, c) then Settle(d.(tasks := WriteTasks(d, c)), c.now)
                                    else d.(tasks := WriteTasks(d, c))
    ensures Commit(d, c).doc.tasks == WriteTasks(d, c) && !Terminal(d)
  {
    hide Written, WriteTasks, AnyFailed, AllCompleted, FirstRefusal;
  }

  lemma CommitLive(d: Doc, c: Call)
    requires Commits(d, c)
    ensures !Terminal(d)
  {
  }

  /** Reading ARGV[3]: the indexes, up to the first that names no task. */
  method ParseIndexes(csv: string, count: nat) returns (idxs: seq<int>, bad: Option<int>)
    ensures var all := Codec.Indexes(csv);
            && |idxs| <= |all| && idxs == all[..|idxs|]
            && (forall n | 0 <= n < |idxs| :: 0 <= idxs[n] < count)
            && match bad
               case None => |idxs| == |all|
               case Some(i) => |idxs| < |all| && all[|idxs|] == i && !(0 <= i < count)
  {
    hide Codec.Tokens;
    idxs := [];
    var tokens := Codec.Tokens(csv);
    for n := 0 to |tokens|
      invariant |idxs| == n && idxs == Codec.Indexes(csv)[..n]
      invariant forall k | 0 <= k < n :: 0 <= idxs[k] < count
    {
      var i := Codec.ToNumber(tokens[n]);
      if i == None { return idxs, Some(-1); }
      if i.value >= count { return idxs, Some(i.value); }
      idxs := idxs + [i.value];
    }
    return idxs, None;
  }

  /** The states of the targets, for the reply. */
  method CurrentStates(idxs: seq<int>, states: seq<TaskState>) returns (out: seq<TaskState>)
    requires forall n | 0 <= n < |idxs| :: 0 <= idxs[n] < |states|
    ensures |out| == |idxs| && forall n | 0 <= n < |idxs| :: out[n] == states[idxs[n]]
  {
    out := [];
    for n := 0 to |idxs|
      invariant |out| == n && forall k | 0 <= k < n :: out[k] == states[idxs[k]]
    {
      out := out + [states[idxs[n]]];
    }
  }

  lemma PlusAssociates(a: A.BatchReply, b: A.BatchReply, c: A.BatchReply)
    ensures A.Plus(A.Plus(a, b), c) == A.Plus(a, A.Plus(b, c))
    ensures A.Plus(A.EMPTY_REPLY, a) == a && A.Plus(a, A.EMPTY_REPLY) == a
  {
    assert (a.list + b.list) + c.list == a.list + (b.list + c.list);
  }

  /** What one turn of the batch loop does, in terms of the script. */
  lemma BatchTurn(s: E.Sys, now: int, entry: (Member, int))
    ensures var s1 := E.BatchMember(s, now, entry.0);
            match Codec.LuaSplit(Codec.Print(entry.0))
            case None =>
              && s1.db == s.db.(deadlines := s.db.deadlines - {entry.0})
              && A.MemberReply(s.db, now, entry) == A.BatchReply(0, 0, 0, 1, [])
            case Some((id, i)) =>
              var (db1, r) := Script.Run(s.db, id, E.BatchCall(i, now));
              && s1.db == (if Unresolvable(r.code) then db1.(deadlines := db1.deadlines - {entry.0}) else db1)
              && A.MemberReply(s.db, now, entry)
                 == if r.code == OK then
                      A.BatchReply(1, if r.webhookQueued then 1 else 0, if r.terminalNow then 1 else 0, 0, [entry])
                    else if Unresolvable(r.code) then A.BatchReply(0, 0, 0, 1, [])
                    else A.EMPTY_REPLY
  {
    hide Codec.LuaSplit, Codec.Print, E.Fire, Script.Run;
    match Codec.Locate(entry.0) {
      case None =>
      case Some((id, i)) => E.FireRuns(s, id, E.BatchCall(i, now));
    }
  }

  /** reaperBatch: what one tick may examine. */
  const REAPER_BATCH: nat := 1000

  /** After a batch that examined fewer members than it might, nothing is overdue. */
  lemma OverdueGone(s: E.Sys, now: int, due: seq<(Member, int)>)
    requires E.Inv(s) && ZSet.IsRange(s.db.deadlines, now, REAPER_BATCH, due)
    ensures |due| <= 1000
    ensures var z := E.Batch(s, now, due).db.deadlines; |due| < 1000 ==> forall m | m in z :: z[m] > now
  {
    hide E.Inv, E.Batch, R.Loop, R.AllExamined;
    R.DueExamined(s, now, REAPER_BATCH, due);
    R.BatchAgrees(s, now, due);
  }

  class Keyspace {
    var docs: map<Id, Doc>
    var deadlines: map<Member, int>
    var archive: map<Id, int>
    var webhooks: map<Member, int>

    function View(): Db
      reads this
    {
      Db(docs, deadlines, archive, webhooks)
    }

    constructor ()
      ensures View() == E.INIT.db
    {
      docs, deadlines, archive, webhooks := map[], map[], map[], map[];
    }

    /** The commands for one target of an accepted call. */
    method WriteTarget(id: Id, c: Call, i: nat)
      requires id in docs && i < |docs[id].tasks|
      modifies this
      ensures View() == WriteOne(old(View()), id, c, i, old(docs)[id].tasks[i].spec)
    {
      var t, m := docs[id].tasks[i], TaskMember(id, i);
      docs := docs[id := docs[id].(tasks := docs[id].tasks[i := Stamp(t, c)])];
      if c.action.Publish? {
        deadlines := deadlines[m := c.now + t.spec.timeout];
      } else {
        deadlines := deadlines - {m};
        if !c.action.Consume? { webhooks := webhooks[m := c.now]; }
      }
    }

    /** The write phase: a loop over the targets that keeps the local `states` in step. */
    method WriteTargets(id: Id, c: Call, decisions: seq<Code>, states: seq<TaskState>)
      returns (states': seq<TaskState>, queued: bool)
      requires id in docs && InRange(docs[id], c.idxs) && StatesOf(states, docs[id].tasks)
      requires |decisions| == |c.idxs|
      requires forall n | 0 <= n < |c.idxs| :: decisions[n] == DecideAt(docs[id], c, n) && Accepted(decisions[n])
      modifies this
      ensures View() == WroteAll(old(View()), id, c)
      ensures StatesOf(states', WriteTasks(old(docs)[id], c))
      ensures queued <==> FailedBy(old(docs)[id], c) != {}
    {
      hide WroteAll, WriteOne, FailedBy, WriteTasks, Accepted, Writes, Decide;
      states', queued := states, false;
      ghost var db, d := View(), docs[id];
      assert View() == WroteAll(db, id, Upto(c, 0)) by { WriteNone(db, id, c); }
      WrittenNone(d, c);
      assert FailedBy(d, Upto(c, 0)) == {} by { FailedNone(d, c); }
      for n := 0 to |c.idxs|
        invariant View() == WroteAll(db, id, Upto(c, n))
        invariant StatesOf(states', WriteTasks(d, Upto(c, n)))
        invariant queued <==> FailedBy(d, Upto(c, n)) != {}
      {
        var i := c.idxs[n];
        assert decisions[n] == Decide(c.action, c.retry, d.tasks[i].state) && Accepted(decisions[n]);
        WriteStep(db, id, c, n);
        StatesStep(d, c, n, states', decisions[n]);
        WroteDoc(db, id, Upto(c, n));
        if c.action.Publish? && (decisions[n] == OK || states'[i] == PUBLISHED) {
          WriteTarget(id, c, i);
          states' := states'[i := PUBLISHED];
        } else if decisions[n] == OK && c.action.Consume? {
          WriteTarget(id, c, i);
          states' := states'[i := COMPLETED];
        } else if decisions[n] == OK && !c.action.Publish? {
          WriteTarget(id, c, i);
          states' := states'[i := FAILED];
          queued := true;
        }
      }
      assert Upto(c, |c.idxs|) == c;
    }

    /** The instance transition: count the states, write the instance, drop all its deadlines, queue the archive job. */
    method SettleInstance(id: Id, now: int, states: seq<TaskState>) returns (terminalNow: bool)
      requires id in docs && StatesOf(states, docs[id].tasks) && !Terminal(docs[id])
      modifies this
      ensures View() == Settled(old(View()), id, now)
      ensures terminalNow <==> Terminal(docs[id])
    {
      hide Rearm, Below;
      var failed, completed := false, 0;
      for n := 0 to |states|
        invariant failed <==> exists i :: 0 <= i < n && states[i] == FAILED
        invariant completed <= n && (completed == n <==> forall i | 0 <= i < n :: states[i] == COMPLETED)
      {
        if states[n] == FAILED { failed := true; }
        if states[n] == COMPLETED { completed := completed + 1; }
      }
      assert failed <==> AnyFailed(docs[id].tasks);
      assert completed == |states| <==> AllCompleted(docs[id].tasks);
      terminalNow := false;
      var s := Seconds(now);
      if failed {
        docs := docs[id := docs[id].(state := InstFailed, completedAt := s, failedAt := s)];
        DropAll(id, |states|);
        terminalNow := true;
      } else if completed == |states| {
        docs := docs[id := docs[id].(state := InstCompleted, completedAt := s)];
        terminalNow := true;
      }
      if terminalNow { archive := archive[id := now]; }
    }

    /** ZREM for every task of the instance. */
    method DropAll(id: Id, count: nat)
      modifies this`deadlines
      ensures deadlines == Rearm(old(deadlines), id, map[], Below(count))
    {
      RearmNone(deadlines, id);
      hide Rearm;
      for i := 0 to count
        invariant deadlines == Rearm(old(deadlines), id, map[], Below(i))
      {
        DisarmMore(old(deadlines), id, Below(i), i);
        deadlines := deadlines - {TaskMember(id, i)};
      }
    }

    /**
     The evaluation phase: decide for every target, stop at the first refusal; under `reap` the
     refused target's deadline is stale and dropped.
     */
    method Judge(id: Id, c: Call, states: seq<TaskState>)
      returns (decisions: seq<Code>, anyOk: bool, refused: Option<nat>)
      requires id in docs && StatesOf(states, docs[id].tasks) && InRange(docs[id], c.idxs)
      modifies this`deadlines
      ensures refused.None? ==>
                && |decisions| == |c.idxs| && deadlines == old(deadlines) && (anyOk <==> AnyOk(docs[id], c))
                && forall n | 0 <= n < |c.idxs| :: decisions[n] == DecideAt(docs[id], c, n) && Accepted(decisions[n])
      ensures refused.Some? ==>
                var k := refused.value;
                && k < |c.idxs| && !Accepted(DecideAt(docs[id], c, k))
                && (forall n | 0 <= n < k :: Accepted(DecideAt(docs[id], c, n)))
                && deadlines == if c.action.Reap? then old(deadlines) - {TaskMember(id, c.idxs[k])} else old(deadlines)
    {
      hide Decide;
      decisions, anyOk := [], false;
      for n := 0 to |c.idxs|
        invariant |decisions| == n && deadlines == old(deadlines)
        invariant forall k | 0 <= k < n :: decisions[k] == DecideAt(docs[id], c, k) && Accepted(decisions[k])
        invariant anyOk <==> OK in decisions
      {
        var code := Decide(c.action, c.retry, states[c.idxs[n]]);
        decisions := decisions + [code];
        if code == OK {
          anyOk := true;
        } else if code != IDEMPOTENT {
          if c.action.Reap? { deadlines := deadlines - {TaskMember(id, c.idxs[n])}; }
          return decisions, anyOk, Some(n);
        }
      }
      assert anyOk <==> AnyOk(docs[id], c) by {
        if anyOk { var k :| 0 <= k < |c.idxs| && decisions[k] == OK; assert DecideAt(docs[id], c, k) == OK; }
      }
      refused := None;
    }

    /** `run`: one transition against one instance. */
    method Run(id: Id, action: Action, retry: bool, csv: string, now: int, payload: Json) returns (reply: Reply)
      modifies this
      ensures (View(), reply) == Script.Run(old(View()), id, Call(action, retry, Codec.Indexes(csv), now, payload))
      ensures reply.code == NOT_FOUND <==> id !in old(docs)
      ensures reply.code == BAD_SCHEMA <==> id in old(docs) && old(docs)[id].tasks == []
      ensures reply.code == TASK_NOT_FOUND
              <==> id in old(docs) && old(docs)[id].tasks != [] && !InRange(old(docs)[id], Codec.Indexes(csv))
    {
      Unresolved(View(), id, Call(action, retry, Codec.Indexes(csv), now, payload));
      hide Eval, Apply, Commit, Commits, WroteAll, Settled, Codec.Indexes, Decide, Accepted, AnyOk;
      if id !in docs { return MISSING_INSTANCE; }
      ghost var db, c := View(), Call(action, retry, Codec.Indexes(csv), now, payload);
      ghost var o := Eval(docs[id], c);
      var d, inst := docs[id], docs[id].state;
      var states := seq(|d.tasks|, i requires 0 <= i < |d.tasks| => d.tasks[i].state);
      if |states| == 0 {
        ExitBadSchema(d, c);
        ApplyRefusal(db, id, o, now);
        return Reply(BAD_SCHEMA, [], None, false, false, -1);
      }
      var idxs, bad := ParseIndexes(csv, |states|);
      if bad.Some? {
        ExitBadIndex(d, c, |idxs|);
        ApplyRefusal(db, id, o, now);
        return Reply(TASK_NOT_FOUND, [], Some(inst), false, false, bad.value);
      }
      assert idxs == c.idxs;
      var call := Call(action, retry, idxs, now, payload);
      var current := CurrentStates(idxs, states);
      assert current == TargetStates(d, idxs);
      if action.Reap? && Terminal(d) {
        ExitStale(d, c);
        ApplyRefusal(db, id, o, now);
        if |idxs| > 0 { deadlines := deadlines - {TaskMember(id, idxs[0])}; }
        return Reply(STALE, current, Some(inst), false, false, -1);
      }
      var decisions, anyOk, refused := Judge(id, call, states);
      if refused.Some? {
        var k := refused.value;
        ExitRefused(d, c, k);
        ApplyRefusal(db, id, o, now);
        return Reply(Decide(action, retry, states[idxs[k]]), current, Some(inst), false, false, idxs[k]);
      }
      ExitAccepted(d, c);
      if Terminal(d) {
        ApplyRefusal(db, id, o, now);
        if anyOk { return Reply(INSTANCE_TERMINAL, current, Some(inst), false, false, idxs[0]); }
        return Reply(IDEMPOTENT, current, Some(inst), false, false, -1);
      }
      CommitInPhases(db, id, c);
      reply := Accept(id, call, decisions, states, anyOk);
    }

    /** The rest of an accepted run on a live instance. */
    method Accept(id: Id, c: Call, decisions: seq<Code>, states: seq<TaskState>, anyOk: bool) returns (reply: Reply)
      requires id in docs && Commits(docs[id], c) && StatesOf(states, docs[id].tasks) && |decisions| == |c.idxs|
      requires anyOk == AnyOk(docs[id], c)
      requires forall n | 0 <= n < |c.idxs| :: decisions[n] == DecideAt(docs[id], c, n) && Accepted(decisions[n])
      modifies this
      ensures View() == if anyOk then Settled(WroteAll(old(View()), id, c), id, c.now) else WroteAll(old(View()), id, c)
      ensures reply == Commit(old(docs)[id], c).reply
    {
      hide WroteAll, Commit, Decide, DecideAt, Accepted, AnyOk, FailedBy, Rearm, Enqueue,
           WriteTasks, Settle, Below, AnyFailed;
      ghost var db, d := View(), docs[id];
      CommitReply(d, c);
      var states', queued := WriteTargets(id, c, decisions, states);
      WroteDoc(db, id, c);
      var terminalNow := false;
      if anyOk { terminalNow := SettleInstance(id, c.now, states'); }
      var current := CurrentStates(c.idxs, states');
      assert current == TargetStates(Commit(d, c).doc, c.idxs);
      reply := Reply(if anyOk then OK else IDEMPOTENT, current, Some(docs[id].state), terminalNow, queued, -1);
    }

    /** One member of a batch. `s` is the state of the engine that this store belongs to. */
    method ReapMember(now: int, entry: (Member, int), ghost s: E.Sys) returns (r: A.BatchReply)
      requires s.db == View()
      modifies this
      ensures View() == E.BatchMember(s, now, entry.0).db
      ensures r == A.MemberReply(s.db, now, entry)
    {
      hide Script.Run, E.BatchMember, A.MemberReply, Codec.ToNumber, Codec.Print, Codec.FindLastField, Codec.Indexes;
      BatchTurn(s, now, entry);
      var text := Codec.Print(entry.0);
      var sep := Codec.FindLastField(text, 0);
      if sep < 0 || Codec.ToNumber(text[sep + 1..]) == None {
        deadlines := deadlines - {entry.0};
        return A.BatchReply(0, 0, 0, 1, []);
      }
      Codec.IndexesOfNumber(text[sep + 1..]);
      var reply := Run(text[..sep], Action.ReapBatch, false, text[sep + 1..], now, JStr(""));
      r := A.EMPTY_REPLY;
      if reply.code == OK {
        r := r.(reaped := 1, list := [entry]);
        if reply.webhookQueued { r := r.(hooks := 1); }
        if reply.terminalNow { r := r.(archives := 1); }
      } else if reply.code == NOT_FOUND || reply.code == BAD_SCHEMA || reply.code == TASK_NOT_FOUND {
        deadlines := deadlines - {entry.0};
        r := r.(dropped := 1);
      }
    }

    /** `reap_batch`: read the overdue deadlines and reap each. */
    method ReapBatch(now: int, limit: nat, ghost s: E.Sys) returns (reply: A.BatchReply, due: seq<(Member, int)>)
      requires s.db == View()
      modifies this
      ensures ZSet.IsRange(old(deadlines), now, limit, due)
      ensures View() == E.Batch(s, now, due).db
      ensures reply == A.ReplyOf(s, now, due)
    {
      hide ZSet.IsRange, E.BatchMember, A.MemberReply, A.Plus;
      due := ZSet.RangeByScore(deadlines, now, limit);
      reply := A.EMPTY_REPLY;
      ghost var cur := s;
      PlusAssociates(A.ReplyOf(s, now, due), A.EMPTY_REPLY, A.EMPTY_REPLY);
      assert due[0..] == due;
      for n := 0 to |due|
        invariant View() == cur.db
        invariant E.Batch(cur, now, due[n..]) == E.Batch(s, now, due)
        invariant A.Plus(reply, A.ReplyOf(cur, now, due[n..])) == A.ReplyOf(s, now, due)
      {
        assert due[n..][0] == due[n] && due[n..][1..] == due[n + 1..];
        var r := ReapMember(now, due[n], cur);
        PlusAssociates(reply, r, A.ReplyOf(E.BatchMember(cur, now, due[n].0), now, due[n + 1..]));
        reply := A.Plus(reply, r);
        cur := E.BatchMember(cur, now, due[n].0);
      }
      PlusAssociates(reply, A.EMPTY_REPLY, A.EMPTY_REPLY);
    }

    /**
     A reaper tick on the store of an engine that has run `steps`: the batch, and the decoding of
     its reply, which never fails and reports only deadlines that have passed.
     */
    method ReapTick(now: int, ghost steps: seq<E.Step>) returns (res: A.Decoded, ghost due: seq<(Member, int)>)
      requires E.IsRun(E.INIT, steps) && E.After(E.INIT, steps).db == View()
      modifies this
      ensures ZSet.IsRange(old(deadlines), now, REAPER_BATCH, due)
      ensures View() == E.Next(E.After(E.INIT, steps), E.Tick(now, REAPER_BATCH, due)).db
      ensures |res.members| == |res.lags| == res.reaped == res.webhooks == res.archives && res.dropped == 0
      ensures forall k | 0 <= k < res.reaped :: res.lags[k] >= 0.0
      ensures |due| <= 1000 && (|due| < 1000 ==> forall m | m in deadlines :: deadlines[m] > now)
    {
      hide E.IsRun, E.After, E.Batch, ZSet.IsRange, A.ReplyOf, A.LiveIds;
      ghost var s := E.After(E.INIT, steps);
      E.ReachableInv(steps);
      var reply, range := ReapBatch(now, REAPER_BATCH, s);
      due := range;
      E.ScriptSteps(s, E.Tick(now, REAPER_BATCH, due));
      OverdueGone(s, now, due);
      A.BatchAccounting(steps, now, REAPER_BATCH, due);
      A.ReplyDecodes(steps, now, REAPER_BATCH, due);
      var raw := A.Encode(reply);
      hide A.Encode, A.Flatten, A.GoodPair, A.LagSeconds;
      forall k | 0 <= k < |raw.items[4].items| / 2 ensures A.GoodPair(raw.items[4].items, k) {
        assert A.Survives(reply.list[k], A.Flatten(reply.list), k, now);
      }
      var decoded := A.DecodeReply(raw, now);
      res := decoded.value;
      forall k | 0 <= k < res.reaped ensures res.lags[k] >= 0.0 {
        A.LagNotNegative(now, Codec.Integer(res.deadlines[k]).value);
      }
    }

    /** A report: resolve the tasks it names, encode their indexes, run the script. */
    method UpdateInstance(req: E.Request, now: int) returns (reply: Reply)
      modifies this
      ensures (View(), reply) == E.AtomicReport(old(View()), req, now)
      ensures E.IsReport(req.action) ==> Contract.Found(old(docs), req, reply.code)
      ensures E.IsReport(req.action) && E.DocsInv(old(docs)) ==>
                && Contract.Answered(old(docs), req, reply.code)
                && Contract.Done(old(View()), View(), req, now, reply.code)
    {
      if E.IsReport(req.action) {
        Contract.FoundExactly(View(), req, now);
        if E.DocsInv(docs) { Contract.ReportKeepsPromise(View(), req, now); }
      }
      hide Contract.Found, Contract.Answered, Contract.Done, E.AtomicReport, E.DocsInv;
      reply := Update(req, now);
    }

    /** The report itself: resolve, encode, run. */
    method Update(req: E.Request, now: int) returns (reply: Reply)
      modifies this
      ensures (View(), reply) == E.AtomicReport(old(View()), req, now)
    {
      hide Script.Run, E.Resolve, Codec.Indexes, Codec.Join;
      if req.id !in docs { return MISSING_INSTANCE; }
      var tasks := docs[req.id].tasks;
      if |tasks| == 0 { return Reply(BAD_SCHEMA, [], None, false, false, -1); }
      var idxs := ResolveIndexes(tasks, req);
      if |idxs| == 0 { return Reply(TASK_NOT_FOUND, [], None, false, false, -1); }
      var csv := Codec.EncodeIndexes(idxs);
      Codec.IndexesRoundTrip(idxs);
      reply := Run(req.id, req.action, req.retry, csv, now, req.payload);
    }

    /** A new instance from a stored template. */
    method StartInstance(templates: map<string, Workflow>, name: string, id: Id, now: int) returns (found: bool)
      modifies this
      ensures found <==> name in templates
      ensures found ==>
                && id in docs && var d, wf := docs[id], templates[name];
                && d.name == name && d.version == wf.version && d.schemaVersion == wf.schemaVersion
                && d.state == InstPending && d.startedAt == now / 1000 && d.completedAt == 0 && d.failedAt == 0
                && |d.tasks| == |wf.tasks|
                && forall i | 0 <= i < |d.tasks| :: d.tasks[i] == Task(wf.tasks[i], PENDING, 0, 0, 0, None)
      ensures View() == if found
                        then old(View()).(docs := old(docs)[id := E.NewDoc(templates[name].(name := name), now)])
                        else old(View())
    {
      if name !in templates { return false; }
      var wf := templates[name];
      var tasks: seq<Task> := [];
      for i := 0 to |wf.tasks|
        invariant |tasks| == i && forall k | 0 <= k < i :: tasks[k] == Task(wf.tasks[k], PENDING, 0, 0, 0, None)
      {
        tasks := tasks + [Task(wf.tasks[i], PENDING, 0, 0, 0, None)];
      }
      assert tasks == E.NewDoc(wf, now).tasks;
      docs := docs[id := Doc(name, wf.version, wf.schemaVersion, InstPending, Seconds(now), 0, 0, tasks)];
      return true;
    }
  }

  /** The loop over the task identities that a report reads. */
  method ResolveIndexes(tasks: seq<Task>, req: E.Request) returns (idxs: seq<nat>)
    ensures idxs == E.Resolve(Specs(tasks), req)
  {
    idxs := [];
    ghost var specs := Specs(tasks);
    for i := 0 to |tasks|
      invariant idxs == E.Resolve(specs[..i], req)
    {
      assert specs[..i + 1][..i] == specs[..i];
      if tasks[i].spec.topic == req.topic && (req.action.Publish? || tasks[i].spec.consumer == req.service) {
        idxs := idxs + [i];
      }
    }
    assert specs[..|tasks|] == specs;
  }
}
