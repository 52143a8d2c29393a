/** What one run of the script keeps true of the document it runs on. */
module Lifecycle {
  import opened Types
  import opened Script

  /**
   The part of a workflow that the protocol relies on: tasks exist, their names are
   non-empty, timeouts are positive and no two tasks share (topic, consumer).
   */
  ghost predicate ValidSpecs(specs: seq<TaskSpec>) {
    && specs != []
    && (forall i | 0 <= i < |specs| ::
          specs[i].topic != "" && specs[i].publisher != "" && specs[i].consumer != "" && specs[i].timeout > 0)
    && (forall i, j | 0 <= i < j < |specs| ::
          specs[i].topic != specs[j].topic || specs[i].consumer != specs[j].consumer)
  }

  function Specs(tasks: seq<Task>): (specs: seq<TaskSpec>)
    ensures |specs| == |tasks| && forall i | 0 <= i < |tasks| :: specs[i] == tasks[i].spec
  {
    seq(|tasks|, i requires 0 <= i < |tasks| => tasks[i].spec)
  }

  /** Tasks sharing a topic leave PENDING together. */
  ghost predicate TopicsTogether(tasks: seq<Task>) {
    forall i, j | 0 <= i < |tasks| && 0 <= j < |tasks| && tasks[i].spec.topic == tasks[j].spec.topic ::
      tasks[i].state == PENDING <==> tasks[j].state == PENDING
  }

  ghost predicate OneFailure(tasks: seq<Task>) {
    forall i, j | 0 <= i < |tasks| && 0 <= j < |tasks| && tasks[i].state == FAILED && tasks[j].state == FAILED ::
      i == j
  }

  /** The instance state is the one its task states imply. */
  ghost predicate Agrees(d: Doc) {
    && (d.state == InstFailed <==> AnyFailed(d.tasks))
    && (d.state == InstCompleted <==> AllCompleted(d.tasks))
  }

  ghost predicate DocInv(d: Doc) {
    && ValidSpecs(Specs(d.tasks))
    && Agrees(d)
    && OneFailure(d.tasks)
    && TopicsTogether(d.tasks)
  }

  predicate StateLater(a: TaskState, b: TaskState) {
    a == b || a == PENDING || (a == PUBLISHED && b != PENDING)
  }

  /** `d'` may be the document `d` at a later time; a terminal document is frozen in every field. */
  ghost predicate Later(d: Doc, d': Doc) {
    && Specs(d'.tasks) == Specs(d.tasks)
    && d'.name == d.name && d'.version == d.version && d'.schemaVersion == d.schemaVersion
    && d'.startedAt == d.startedAt
    && (forall i | 0 <= i < |d.tasks| && i < |d'.tasks| :: StateLater(d.tasks[i].state, d'.tasks[i].state))
    && (Terminal(d) ==> d' == d)
  }

  lemma LaterReflexive(d: Doc)
    ensures Later(d, d)
  {
  }

  lemma LaterTransitive(a: Doc, b: Doc, c: Doc)
    requires Later(a, b) && Later(b, c)
    ensures Later(a, c)
  {
    assert |Specs(a.tasks)| == |Specs(b.tasks)| == |Specs(c.tasks)|;
    forall i | 0 <= i < |a.tasks| ensures StateLater(a.tasks[i].state, c.tasks[i].state) {
      assert StateLater(a.tasks[i].state, b.tasks[i].state) && StateLater(b.tasks[i].state, c.tasks[i].state);
    }
  }

  /**
   A call whose targets are resolved the way the engine resolves them: a publish
   names every task of one topic, everything else names one task.
   */
  ghost predicate WellTargeted(d: Doc, c: Call) {
    && InRange(d, c.idxs)
    && c.idxs != []
    && if c.action.Publish? then
         forall i: nat, n | i < |d.tasks| && 0 <= n < |c.idxs| ::
           i in c.idxs <==> d.tasks[i].spec.topic == d.tasks[c.idxs[n]].spec.topic
       else forall n | 0 <= n < |c.idxs| :: c.idxs[n] == c.idxs[0]
  }

  /** The call passes every gate and writes. */
  predicate Commits(d: Doc, c: Call) {
    && d.tasks != [] && InRange(d, c.idxs)
    && !Terminal(d)
    && FirstRefusal(d, c) == |c.idxs|
  }

  /* ---- the exits of a run ---- */

  lemma {:induction false} BadIndexIs(d: Doc, idxs: seq<int>, k: nat)
    requires k < |idxs| && InRange(d, idxs[..k]) && !(0 <= idxs[k] < |d.tasks|)
    ensures FirstBadIndex(d, idxs) == k
  {
    if k > 0 {
      var rest := idxs[1..];
      assert idxs[..k][0] == idxs[0];
      var front := rest[..k - 1];
      assert front == idxs[..k][1..];
      forall n | 0 <= n < |front| ensures 0 <= front[n] < |d.tasks| {
      }
      BadIndexIs(d, rest, k - 1);
    }
  }

  lemma NoBadIndex(d: Doc, idxs: seq<int>)
    requires InRange(d, idxs)
    ensures FirstBadIndex(d, idxs) == |idxs|
  {
  }

  lemma RefusalIs(d: Doc, c: Call, k: nat)
    requires InRange(d, c.idxs) && k <= |c.idxs|
    requires forall n | 0 <= n < k :: Accepted(DecideAt(d, c, n))
    requires k < |c.idxs| ==> !Accepted(DecideAt(d, c, k))
    ensures FirstRefusal(d, c) == k
  {
  }

  lemma ExitBadSchema(d: Doc, c: Call)
    requires d.tasks == []
    ensures Eval(d, c) == Refuse(d, BAD_SCHEMA, [], None, -1, {})
  {
  }

  lemma ExitBadIndex(d: Doc, c: Call, k: nat)
    requires d.tasks != [] && k < |c.idxs| && InRange(d, c.idxs[..k]) && !(0 <= c.idxs[k] < |d.tasks|)
    ensures Eval(d, c) == Refuse(d, TASK_NOT_FOUND, [], Some(d.state), c.idxs[k], {})
  {
    BadIndexIs(d, c.idxs, k);
  }

  lemma ExitStale(d: Doc, c: Call)
    requires d.tasks != [] && InRange(d, c.idxs) && c.action.Reap? && Terminal(d)
    ensures Eval(d, c) == Refuse(d, STALE, TargetStates(d, c.idxs), Some(d.state), -1,
                                   if c.idxs == [] then {} else {c.idxs[0]})
  {
    NoBadIndex(d, c.idxs);
  }

  lemma ExitRefused(d: Doc, c: Call, k: nat)
    requires d.tasks != [] && InRange(d, c.idxs) && !(c.action.Reap? && Terminal(d))
    requires k < |c.idxs| && !Accepted(DecideAt(d, c, k)) && forall n | 0 <= n < k :: Accepted(DecideAt(d, c, n))
    ensures Eval(d, c) == Refuse(d, DecideAt(d, c, k), TargetStates(d, c.idxs), Some(d.state), c.idxs[k],
                                 if c.action.Reap? then {c.idxs[k]} else {})
  {
    NoBadIndex(d, c.idxs);
    RefusalIs(d, c, k);
    hide FirstRefusal;
  }

  lemma ExitAccepted(d: Doc, c: Call)
    requires d.tasks != [] && InRange(d, c.idxs) && !(c.action.Reap? && Terminal(d))
    requires forall n | 0 <= n < |c.idxs| :: Accepted(DecideAt(d, c, n))
    ensures Terminal(d) ==>
              Eval(d, c) == if AnyOk(d, c)
                                then Refuse(d, INSTANCE_TERMINAL, TargetStates(d, c.idxs), Some(d.state), c.idxs[0], {})
                            else Refuse(d, IDEMPOTENT, TargetStates(d, c.idxs), Some(d.state), -1, {})
    ensures !Terminal(d) ==> Commits(d, c) && Eval(d, c) == Commit(d, c)
    ensures AnyOk(d, c) ==> c.idxs != []
  {
    NoBadIndex(d, c.idxs);
    RefusalIs(d, c, |c.idxs|);
    hide FirstRefusal;
  }

  /** Either a call commits, or it leaves the document alone and at most drops a stale deadline. */
  lemma EvalCases(d: Doc, c: Call)
    ensures Commits(d, c) ==> Eval(d, c) == Commit(d, c)
    ensures !Commits(d, c) ==>
              var o := Eval(d, c);
              && o.doc == d && o.armed == map[] && o.failed == {}
              && !o.reply.terminalNow && !o.reply.webhookQueued && o.reply.code != OK
              && (o.reply.code == IDEMPOTENT ==> Terminal(d) && !c.action.Reap?)
              && (o.disarmed != {} ==> c.action.Reap?)
              && forall i | i in o.disarmed :: i < |d.tasks| && (Terminal(d) || d.tasks[i].state != PUBLISHED)
  {
    var bad := FirstBadIndex(d, c.idxs);
    if bad == |c.idxs| {
      assert c.idxs[..bad] == c.idxs;
    } else {
      assert !InRange(d, c.idxs);
    }
  }

  /** A call on tasks that exist is never answered as unresolvable. */
  lemma EvalFound(d: Doc, c: Call)
    requires d.tasks != [] && InRange(d, c.idxs)
    ensures !Unresolvable(Eval(d, c).reply.code)
  {
    var bad := FirstBadIndex(d, c.idxs);
    assert bad == |c.idxs|;
    assert c.idxs[..bad] == c.idxs;
  }

  /** The deadlines an accepted call sets and, before the instance transition, removes; the webhooks it queues. */
  function ArmedBy(d: Doc, c: Call): map<nat, int> {
    if c.action.Publish? then map i | i in Written(d, c) :: c.now + d.tasks[i].spec.timeout else map[]
  }

  function DisarmedBy(d: Doc, c: Call): set<nat> {
    if c.action.Publish? then {} else Written(d, c)
  }

  function FailedBy(d: Doc, c: Call): set<nat> {
    if c.action.Publish? || c.action.Consume? then {} else Written(d, c)
  }

  lemma CommitParts(d: Doc, c: Call)
    requires Commits(d, c)
    ensures var o := Commit(d, c);
            var wrote := d.(tasks := WriteTasks(d, c));
            && o.doc == (if AnyOk(d, c) then Settle(wrote, c.now) else wrote)
            && o.armed == ArmedBy(d, c) && o.failed == FailedBy(d, c)
            && o.disarmed == (if AnyOk(d, c) && AnyFailed(wrote.tasks) then Below(|d.tasks|) else DisarmedBy(d, c))
            && (o.reply.terminalNow <==> Terminal(o.doc))
  {
    hide Written, WriteTasks, AnyFailed, AllCompleted, FirstRefusal;
  }

  lemma AllInRange(d: Doc, idxs: seq<int>)
    ensures FirstBadIndex(d, idxs) == |idxs| ==> InRange(d, idxs)
  {
    assert idxs[..|idxs|] == idxs;
  }

  /** The three codes on which a call finds nothing to act on. */
  lemma Unresolved(db: Db, id: Id, c: Call)
    ensures var code := Run(db, id, c).1.code;
            && (code == NOT_FOUND <==> id !in db.docs)
            && (code == BAD_SCHEMA <==> id in db.docs && db.docs[id].tasks == [])
            && (code == TASK_NOT_FOUND <==> id in db.docs && db.docs[id].tasks != [] && !InRange(db.docs[id], c.idxs))
  {
    if id in db.docs {
      var d := db.docs[id];
      RunDoc(db, id, c);
      if d.tasks != [] && InRange(d, c.idxs) {
        EvalFound(d, c);
      } else if d.tasks != [] {
        AllInRange(d, c.idxs);
        ExitBadIndex(d, c, FirstBadIndex(d, c.idxs));
      } else {
        ExitBadSchema(d, c);
      }
      hide Run, Eval;
    }
  }

  /** What "no target refuses" means for a well-targeted call. */
  lemma CommitTargets(d: Doc, c: Call)
    requires DocInv(d) && WellTargeted(d, c) && Commits(d, c)
    ensures AnyOk(d, c) <==> forall n | 0 <= n < |c.idxs| :: DecideAt(d, c, n) == OK
    ensures forall n | 0 <= n < |c.idxs| :: Accepted(DecideAt(d, c, n))
    ensures !c.action.Publish? ==> AnyOk(d, c) == (d.tasks[c.idxs[0]].state == PUBLISHED)
  {
    assert forall n | 0 <= n < |c.idxs| :: Accepted(DecideAt(d, c, n));
    if AnyOk(d, c) {
      var k :| 0 <= k < |c.idxs| && DecideAt(d, c, k) == OK;
      forall n | 0 <= n < |c.idxs| ensures DecideAt(d, c, n) == OK {
        if c.action.Publish? {
          assert c.idxs[n] in c.idxs;
          assert d.tasks[c.idxs[n]].spec.topic == d.tasks[c.idxs[k]].spec.topic;
        }
      }
    } else {
      assert DecideAt(d, c, 0) != OK;
    }
    if !c.action.Publish? {
      assert Accepted(DecideAt(d, c, 0));
    }
  }

  lemma TargetMoves(d: Doc, c: Call, i: nat)
    requires DocInv(d) && WellTargeted(d, c) && Commits(d, c) && i < |d.tasks| && i in c.idxs
    ensures var state, state' := d.tasks[i].state, WriteTasks(d, c)[i].state;
            if AnyOk(d, c) then i in Written(d, c) && state != state' && StateLater(state, state') else state' == state
  {
    hide DocInv, WellTargeted, FirstRefusal;
    CommitTargets(d, c);
    var n :| 0 <= n < |c.idxs| && c.idxs[n] == i;
    assert Accepted(DecideAt(d, c, n));
  }

  /** A committed call moves task states only forward, and either all its targets or none. */
  lemma CommitStates(d: Doc, c: Call)
    requires DocInv(d) && WellTargeted(d, c) && Commits(d, c)
    ensures var tasks := WriteTasks(d, c);
            && Specs(tasks) == Specs(d.tasks)
            && (forall i | 0 <= i < |d.tasks| :: StateLater(d.tasks[i].state, tasks[i].state))
            && (forall i: nat | i < |d.tasks| ::
                  if AnyOk(d, c) && i in c.idxs then i in Written(d, c) && d.tasks[i].state != tasks[i].state
                  else d.tasks[i].state == tasks[i].state)
  {
    assert InRange(d, c.idxs);
    hide DocInv, WellTargeted, Commits, AnyOk, StateLater;
    assert forall state :: StateLater(state, state) by { ReflexiveStates(); }
    forall i: nat | i < |d.tasks| && i in c.idxs
      ensures var state, state' := d.tasks[i].state, WriteTasks(d, c)[i].state;
              if AnyOk(d, c) then i in Written(d, c) && state != state' && StateLater(state, state')
              else state' == state
    {
      TargetMoves(d, c, i);
    }
  }

  lemma ReflexiveStates()
    ensures forall state :: StateLater(state, state)
  {
  }

  lemma CommitTopicsTogether(d: Doc, c: Call)
    requires DocInv(d) && WellTargeted(d, c) && Commits(d, c)
    ensures TopicsTogether(WriteTasks(d, c))
  {
    var tasks := WriteTasks(d, c);
    CommitStates(d, c);
    forall i, j | 0 <= i < |tasks| && 0 <= j < |tasks| && tasks[i].spec.topic == tasks[j].spec.topic
      ensures tasks[i].state == PENDING <==> tasks[j].state == PENDING
    {
      if c.action.Publish? {
        assert i in c.idxs <==> d.tasks[i].spec.topic == d.tasks[c.idxs[0]].spec.topic;
        assert j in c.idxs <==> d.tasks[j].spec.topic == d.tasks[c.idxs[0]].spec.topic;
      }
    }
  }

  lemma CommitOneFailure(d: Doc, c: Call)
    requires DocInv(d) && WellTargeted(d, c) && Commits(d, c)
    ensures OneFailure(WriteTasks(d, c))
  {
    var tasks := WriteTasks(d, c);
    forall i | 0 <= i < |tasks| && tasks[i].state == FAILED ensures i in c.idxs && !c.action.Publish? {
      assert d.tasks[i].state != FAILED by { assert !AnyFailed(d.tasks); }
    }
  }

  /** The document invariant survives a committed call, and the document only moves forward. */
  lemma CommitKeeps(d: Doc, c: Call)
    requires DocInv(d) && WellTargeted(d, c) && Commits(d, c)
    ensures DocInv(Commit(d, c).doc) && Later(d, Commit(d, c).doc)
  {
    CommitStates(d, c);
    CommitTopicsTogether(d, c);
    CommitOneFailure(d, c);
    var tasks := WriteTasks(d, c);
    if !AnyOk(d, c) {
      assert AnyFailed(tasks) == AnyFailed(d.tasks);
      assert AllCompleted(tasks) == AllCompleted(d.tasks);
    }
    assert Commit(d, c).doc.tasks == tasks;
    assert AllCompleted(tasks) ==> tasks[0].state == COMPLETED;
  }

  lemma EvalKeeps(d: Doc, c: Call)
    requires DocInv(d) && WellTargeted(d, c)
    ensures DocInv(Eval(d, c).doc) && Later(d, Eval(d, c).doc)
  {
    EvalCases(d, c);
    if Commits(d, c) {
      CommitKeeps(d, c);
    }
  }

  /** Does task `i` carry a deadline? */
  predicate Ticking(d: Doc, i: nat) {
    i < |d.tasks| && !Terminal(d) && d.tasks[i].state == PUBLISHED
  }

  /** The deadlines a run sets and removes turn those of the old document into those of the new one. */
  ghost predicate DeadlinesFollow(d: Doc, o: Outcome) {
    forall i: nat ::
      Ticking(o.doc, i) <==> if i in o.disarmed then false else if i in o.armed then true else Ticking(d, i)
  }

  /** When an accepted call ends its instance. */
  lemma CommitEnds(d: Doc, c: Call)
    requires DocInv(d) && WellTargeted(d, c) && Commits(d, c)
    ensures var tasks := WriteTasks(d, c);
            && !Terminal(d) && Commit(d, c).doc.tasks == tasks
            && (Terminal(Commit(d, c).doc) <==> AnyOk(d, c) && (AnyFailed(tasks) || AllCompleted(tasks)))
            && (AnyFailed(tasks) ==> AnyOk(d, c))
            && (c.action.Publish? && AnyOk(d, c) ==> !AllCompleted(tasks))
  {
    CommitStates(d, c);
    CommitParts(d, c);
    assert !AnyFailed(d.tasks);
    assert c.idxs[0] in c.idxs;
    hide DocInv, WellTargeted, FirstRefusal, AnyOk, Commit;
    var tasks := WriteTasks(d, c);
    if c.action.Publish? && AnyOk(d, c) { assert tasks[c.idxs[0]].state == PUBLISHED; }
  }

  lemma CommitDeadline(d: Doc, c: Call, i: nat)
    requires DocInv(d) && WellTargeted(d, c) && Commits(d, c)
    ensures var o := Commit(d, c);
            Ticking(o.doc, i) <==> if i in o.disarmed then false else if i in o.armed then true else Ticking(d, i)
  {
    CommitEnds(d, c);
    CommitParts(d, c);
    hide DocInv, WellTargeted, FirstRefusal, AnyOk, AnyFailed, Commit, Commits, Settle, Below;
  }

  lemma CommitDeadlines(d: Doc, c: Call)
    requires DocInv(d) && WellTargeted(d, c) && Commits(d, c)
    ensures DeadlinesFollow(d, Commit(d, c))
  {
    assert InRange(d, c.idxs);
    hide DocInv, WellTargeted, Commits, Commit, Ticking;
    forall i: nat
      ensures var o := Commit(d, c);
              Ticking(o.doc, i) <==> if i in o.disarmed then false else if i in o.armed then true else Ticking(d, i)
    {
      CommitDeadline(d, c, i);
    }
  }

  lemma EvalDeadlines(d: Doc, c: Call)
    requires DocInv(d) && WellTargeted(d, c)
    ensures DeadlinesFollow(d, Eval(d, c))
  {
    EvalCases(d, c);
    if Commits(d, c) {
      CommitDeadlines(d, c);
    }
  }

  /** Rank 2 for PENDING, 1 for PUBLISHED, 0 for a settled task; `Rank` sums over a document. */
  function StateRank(s: TaskState): nat {
    match s
    case PENDING => 2
    case PUBLISHED => 1
    case _ => 0
  }

  function Rank(tasks: seq<Task>): nat {
    if tasks == [] then 0 else Rank(tasks[..|tasks| - 1]) + StateRank(tasks[|tasks| - 1].state)
  }

  lemma {:induction false} RankMonotone(a: seq<Task>, b: seq<Task>)
    requires |a| == |b| && forall i | 0 <= i < |a| :: StateLater(a[i].state, b[i].state)
    ensures Rank(b) <= Rank(a)
    ensures (exists i :: 0 <= i < |a| && a[i].state != b[i].state) ==> Rank(b) < Rank(a)
  {
    if a != [] {
      var n := |a| - 1;
      RankMonotone(a[..n], b[..n]);
      if i :| 0 <= i < |a| && a[i].state != b[i].state {
        if i < n { assert a[..n][i].state != b[..n][i].state; }
      }
    }
  }

  lemma {:induction false} RankFresh(tasks: seq<Task>)
    requires forall i | 0 <= i < |tasks| :: tasks[i].state == PENDING
    ensures Rank(tasks) == 2 * |tasks|
  {
    if tasks != [] { RankFresh(tasks[..|tasks| - 1]); }
  }
}
