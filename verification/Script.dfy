/**
 The transition script as a mathematical function: what one call of `run` answers and
 what it leaves behind. Module Store holds the script's own loops and proves them
 against these definitions.
 */
module Script {
  import opened Json
  import opened Types

  /** `ReapBatch` is the action each member of a batch runs under, `Reap` the single-member form. */
  datatype Action = Publish | Consume | Fail | Reap | ReapBatch

  datatype Code =
    | OK
    | IDEMPOTENT
    | INSTANCE_TERMINAL
    | TASK_NOT_PUBLISHED
    | TASK_ALREADY(state: TaskState)
    | STALE
    | NOT_FOUND
    | TASK_NOT_FOUND
    | BAD_SCHEMA

  /** One invocation: `now` is the engine clock, from which both script clocks are computed. */
  datatype Call = Call(action: Action, retry: bool, idxs: seq<int>, now: int, payload: Json)

  datatype Reply = Reply(
    code: Code,
    states: seq<TaskState>,
    inst: Option<InstanceState>,
    terminalNow: bool,
    webhookQueued: bool,
    refused: int)

  /**
   What one run does to its instance: the reply, the document afterwards, the task
   indexes whose deadline is set (with the score) or removed, and the tasks for which a
   webhook is queued. The archive job is queued exactly when `reply.terminalNow`.
   */
  datatype Outcome = Outcome(
    reply: Reply,
    doc: Doc,
    armed: map<nat, int>,
    disarmed: set<nat>,
    failed: set<nat>)

  /** The refusal code for one task, OK for a transition, IDEMPOTENT for an accepted duplicate. */
  function Decide(action: Action, retry: bool, state: TaskState): Code {
    match action
    case Reap => if state == PUBLISHED then OK else STALE
    case Publish =>
      if state == PENDING then OK else if retry then IDEMPOTENT else TASK_ALREADY(state)
    case Consume =>
      if state == PENDING then TASK_NOT_PUBLISHED
      else if state == PUBLISHED then OK
      else if state == COMPLETED && retry then IDEMPOTENT
      else TASK_ALREADY(state)
    case _ => // Fail and, because the script tests for 'reap' literally, ReapBatch
      if state == PENDING then TASK_NOT_PUBLISHED
      else if state == PUBLISHED then OK
      else if state == FAILED && retry then IDEMPOTENT
      else TASK_ALREADY(state)
  }

  predicate Accepted(code: Code) {
    code == OK || code == IDEMPOTENT
  }

  /** The codes on which the batch gives a deadline up for good. */
  predicate Unresolvable(code: Code) {
    code == NOT_FOUND || code == BAD_SCHEMA || code == TASK_NOT_FOUND
  }

  predicate InRange(d: Doc, idxs: seq<int>) {
    forall n | 0 <= n < |idxs| :: 0 <= idxs[n] < |d.tasks|
  }

  function DecideAt(d: Doc, c: Call, n: nat): Code
    requires InRange(d, c.idxs) && n < |c.idxs|
  {
    Decide(c.action, c.retry, d.tasks[c.idxs[n]].state)
  }

  function TargetStates(d: Doc, idxs: seq<int>): (states: seq<TaskState>)
    requires InRange(d, idxs)
    ensures |states| == |idxs| && forall n | 0 <= n < |idxs| :: states[n] == d.tasks[idxs[n]].state
  {
    seq(|idxs|, n requires 0 <= n < |idxs| => d.tasks[idxs[n]].state)
  }

  /** The position of the first index outside the document, or |idxs|. */
  function FirstBadIndex(d: Doc, idxs: seq<int>): (k: nat)
    ensures k <= |idxs| && InRange(d, idxs[..k])
    ensures k < |idxs| ==> !(0 <= idxs[k] < |d.tasks|)
  {
    if idxs == [] || !(0 <= idxs[0] < |d.tasks|) then 0
    else
      var k := 1 + FirstBadIndex(d, idxs[1..]);
      assert forall n | 0 <= n < k :: n > 0 ==> idxs[..k][n] == idxs[1..][..k - 1][n - 1];
      k
  }

  /** The position of the first target that refuses the call, or |c.idxs|. */
  function FirstRefusal(d: Doc, c: Call): (k: nat)
    requires InRange(d, c.idxs)
    ensures k <= |c.idxs|
    ensures forall n | 0 <= n < k :: Accepted(DecideAt(d, c, n))
    ensures k < |c.idxs| ==> !Accepted(DecideAt(d, c, k))
    decreases |c.idxs|
  {
    if c.idxs == [] || !Accepted(DecideAt(d, c, 0)) then 0
    else
      var rest := c.(idxs := c.idxs[1..]);
      var k := 1 + FirstRefusal(d, rest);
      assert forall n | 0 <= n < k :: n > 0 ==> DecideAt(d, c, n) == DecideAt(d, rest, n - 1);
      k
  }

  predicate AnyOk(d: Doc, c: Call)
    requires InRange(d, c.idxs)
  {
    exists n :: 0 <= n < |c.idxs| && DecideAt(d, c, n) == OK
  }

  predicate AnyFailed(tasks: seq<Task>) {
    exists i :: 0 <= i < |tasks| && tasks[i].state == FAILED
  }

  predicate AllCompleted(tasks: seq<Task>) {
    forall i | 0 <= i < |tasks| :: tasks[i].state == COMPLETED
  }

  /** Does an accepted call write a target that is in this state? */
  predicate Writes(action: Action, state: TaskState) {
    state == PUBLISHED || (action == Publish && state == PENDING)
  }

  /** The state a task must be in for an action, and the one it is in afterwards. */
  function Origin(action: Action): TaskState {
    if action.Publish? then PENDING else PUBLISHED
  }

  function Goal(action: Action): TaskState {
    if action.Publish? then PUBLISHED else if action.Consume? then COMPLETED else FAILED
  }

  /** The task after a write. */
  function Stamp(t: Task, c: Call): Task {
    match c.action
    case Publish => t.(state := PUBLISHED, publishedAt := Seconds(c.now), payload := Some(c.payload))
    case Consume => t.(state := COMPLETED, consumedAt := Seconds(c.now))
    case _ => t.(state := FAILED, failedAt := Seconds(c.now))
  }

  /** The targets that an accepted call writes. */
  function Written(d: Doc, c: Call): (s: set<nat>)
    ensures forall i: nat :: i in s <==> i < |d.tasks| && i in c.idxs && Writes(c.action, d.tasks[i].state)
  {
    set i: nat | i < |d.tasks| && i in c.idxs && Writes(c.action, d.tasks[i].state)
  }

  function WriteTasks(d: Doc, c: Call): (tasks: seq<Task>)
    ensures |tasks| == |d.tasks|
    ensures forall i: nat | i < |tasks| ::
              tasks[i] == if i in Written(d, c) then Stamp(d.tasks[i], c) else d.tasks[i]
  {
    seq(|d.tasks|, i requires 0 <= i < |d.tasks| =>
      if i in Written(d, c) then Stamp(d.tasks[i], c) else d.tasks[i])
  }

  /** The instance transition that follows a task transition. */
  function Settle(d: Doc, now: int): Doc {
    if AnyFailed(d.tasks) then d.(state := InstFailed, completedAt := Seconds(now), failedAt := Seconds(now))
    else if AllCompleted(d.tasks) then d.(state := InstCompleted, completedAt := Seconds(now))
    else d
  }

  function Below(n: nat): (s: set<nat>)
    ensures forall i: nat :: i in s <==> i < n
  {
    if n == 0 then {} else Below(n - 1) + {n - 1}
  }

  /** An outcome that writes nothing but perhaps drops deadlines. */
  function Refuse(d: Doc, code: Code, states: seq<TaskState>, inst: Option<InstanceState>,
                  refused: int, dropped: set<nat>): Outcome
  {
    Outcome(Reply(code, states, inst, false, false, refused), d, map[], dropped, {})
  }

  /** An accepted call on a live instance. */
  function Commit(d: Doc, c: Call): Outcome
    requires InRange(d, c.idxs)
  {
    var written := Written(d, c);
    var wrote := d.(tasks := WriteTasks(d, c));
    var ok := AnyOk(d, c);
    var after := if ok then Settle(wrote, c.now) else wrote;
    var failed := if c.action.Publish? || c.action.Consume? then {} else written;
    Outcome(
      Reply(if ok then OK else IDEMPOTENT, TargetStates(after, c.idxs), Some(after.state),
            after.state != d.state, failed != {}, -1),
      after,
      if c.action.Publish? then map i | i in written :: c.now + d.tasks[i].spec.timeout else map[],
      if ok && AnyFailed(wrote.tasks) then Below(|d.tasks|) else if c.action.Publish? then {} else written,
      failed)
  }

  /** One run of the script against an existing document. */
  function Eval(d: Doc, c: Call): Outcome {
    var bad := FirstBadIndex(d, c.idxs);
    if d.tasks == [] then Refuse(d, BAD_SCHEMA, [], None, -1, {})
    else if bad < |c.idxs| then Refuse(d, TASK_NOT_FOUND, [], Some(d.state), c.idxs[bad], {})
    else
      assert c.idxs[..bad] == c.idxs;
      var states := TargetStates(d, c.idxs);
      var inst := Some(d.state);
      if c.action.Reap? && Terminal(d) then
        Refuse(d, STALE, states, inst, -1, if c.idxs == [] then {} else {c.idxs[0]})
      else
        var k := FirstRefusal(d, c);
        if k < |c.idxs| then
          Refuse(d, DecideAt(d, c, k), states, inst, c.idxs[k], if c.action.Reap? then {c.idxs[k]} else {})
        else if Terminal(d) then
          if AnyOk(d, c) then Refuse(d, INSTANCE_TERMINAL, states, inst, c.idxs[0], {})
          else Refuse(d, IDEMPOTENT, states, inst, -1, {})
        else Commit(d, c)
  }

  /** `task_deadlines` after some deadlines of one instance are set and then some removed. */
  function Rearm(z: map<Member, int>, id: Id, armed: map<nat, int>, disarmed: set<nat>): (r: map<Member, int>)
    ensures forall m :: m in r <==>
              if m.TaskMember? && m.id == id && m.index in disarmed then false
              else if m.TaskMember? && m.id == id && m.index in armed then true
              else m in z
    ensures forall m | m in r ::
              r[m] == if m.TaskMember? && m.id == id && m.index in armed then armed[m.index] else z[m]
  {
    (z + (map i | i in armed :: TaskMember(id, i) := armed[i])) - (set i | i in disarmed :: TaskMember(id, i))
  }

  /** `webhook_pending` after jobs for some tasks of one instance are queued. */
  function Enqueue(z: map<Member, int>, id: Id, tasks: set<nat>, now: int): (r: map<Member, int>)
    ensures forall m :: m in r <==> m in z || (m.TaskMember? && m.id == id && m.index in tasks)
    ensures forall m | m in r ::
              r[m] == if m.TaskMember? && m.id == id && m.index in tasks then now else z[m]
  {
    z + (map i | i in tasks :: TaskMember(id, i) := now)
  }

  function Apply(db: Db, id: Id, o: Outcome, now: int): Db {
    Db(db.docs[id := o.doc],
       Rearm(db.deadlines, id, o.armed, o.disarmed),
       if o.reply.terminalNow then db.archive[id := now] else db.archive,
       Enqueue(db.webhooks, id, o.failed, now))
  }

  const MISSING_INSTANCE := Reply(NOT_FOUND, [], None, false, false, -1)

  /** `run(key, id, indexes)`: the state and the reply. */
  function Run(db: Db, id: Id, c: Call): (Db, Reply) {
    if id !in db.docs then (db, MISSING_INSTANCE)
    else var o := Eval(db.docs[id], c); (Apply(db, id, o, c.now), o.reply)
  }

  /** The part of a run that concerns its own document. */
  lemma RunDoc(db: Db, id: Id, c: Call)
    requires id in db.docs
    ensures Run(db, id, c).0.docs == db.docs[id := Eval(db.docs[id], c).doc]
    ensures Run(db, id, c).1 == Eval(db.docs[id], c).reply
  {
    hide Eval, Rearm, Enqueue;
  }
}
