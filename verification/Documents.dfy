/**
 Instance documents as RedisJSON holds them: the fields, the two write commands of the transition
 script, and a proof that the sequence of commands it issues has the effect that module Script gives it.
 */
module Documents {
  import opened Json
  import opened Types
  import opened Script
  import opened Lifecycle
  import S = Store

  function StateText(s: TaskState): string {
    match s
    case PENDING => "PENDING"
    case PUBLISHED => "PUBLISHED"
    case COMPLETED => "COMPLETED"
    case FAILED => "FAILED"
  }

  function InstText(s: InstanceState): string {
    match s
    case InstPending => "PENDING"
    case InstCompleted => "COMPLETED"
    case InstFailed => "FAILED"
  }

  /** The fields of a task object. */
  datatype Field = Topic | From | To | Timeout | State | PublishedAt | ConsumedAt | FailedAt | Payload

  function Name(f: Field): string {
    match f
    case Topic => "topic"
    case From => "from"
    case To => "to"
    case Timeout => "timeout"
    case State => "state"
    case PublishedAt => "publishedAt"
    case ConsumedAt => "consumedAt"
    case FailedAt => "failedAt"
    case Payload => "payload"
  }

  /** The field a name stands for. */
  function FieldOf(name: string): (r: Option<Field>)
    ensures forall f :: r == Some(f) <==> name == Name(f)
  {
    FieldOfName(name);
    if name == "topic" then Some(Topic)
    else if name == "from" then Some(From)
    else if name == "to" then Some(To)
    else if name == "timeout" then Some(Timeout)
    else if name == "state" then Some(State)
    else if name == "publishedAt" then Some(PublishedAt)
    else if name == "consumedAt" then Some(ConsumedAt)
    else if name == "failedAt" then Some(FailedAt)
    else if name == "payload" then Some(Payload)
    else None
  }

  function Names(): (names: set<string>)
    ensures forall k :: k in names <==> FieldOf(k).Some?
  {
    hide FieldOf, Name;
    assert forall k | FieldOf(k).Some? :: k == Name(FieldOf(k).value);
    set f: Field :: Name(f)
  }

  lemma FieldOfName(name: string)
    ensures forall f, g | name == Name(f) && name == Name(g) :: f == g
  {
    forall f, g | name == Name(f) && name == Name(g) ensures f == g {
      assert |Name(f)| == |Name(g)| && Name(f)[0] == Name(g)[0] ==> f == g;
    }
  }

  function Value(t: Task, f: Field): Json
    requires Has(t, f)
  {
    match f
    case Topic => JStr(t.spec.topic)
    case From => JStr(t.spec.publisher)
    case To => JStr(t.spec.consumer)
    case Timeout => JNum(t.spec.timeout)
    case State => JStr(StateText(t.state))
    case PublishedAt => JNum(t.publishedAt)
    case ConsumedAt => JNum(t.consumedAt)
    case FailedAt => JNum(t.failedAt)
    case Payload => t.payload.value
  }

  predicate Has(t: Task, f: Field) {
    f.Payload? ==> t.payload.Some?
  }

  /** The task object; `payload` is left out when there is none. */
  function TaskFields(t: Task): (fields: map<string, Json>)
    ensures forall k :: k in fields <==> FieldOf(k).Some? && Has(t, FieldOf(k).value)
    ensures forall k | k in fields :: fields[k] == Value(t, FieldOf(k).value)
  {
    hide FieldOf, Value, Name;
    map k | k in Names() && Has(t, FieldOf(k).value) :: Value(t, FieldOf(k).value)
  }

  lemma HasField(t: Task, f: Field)
    requires Has(t, f)
    ensures Name(f) in TaskFields(t) && TaskFields(t)[Name(f)] == Value(t, f)
  {
    hide TaskFields, Name, Value;
  }

  function TasksJson(tasks: seq<Task>): (items: seq<Json>)
    ensures |items| == |tasks| && forall i | 0 <= i < |items| :: items[i] == JObj(TaskFields(tasks[i]))
  {
    seq(|tasks|, i requires 0 <= i < |tasks| => JObj(TaskFields(tasks[i])))
  }

  function DocFields(d: Doc): map<string, Json> {
    map["schema" := JNum(2), "name" := JStr(d.name), "version" := JStr(d.version),
        "schema_version" := JStr(d.schemaVersion), "state" := JStr(InstText(d.state)),
        "startedAt" := JNum(d.startedAt), "completedAt" := JNum(d.completedAt), "failedAt" := JNum(d.failedAt),
        "tasks" := JArr(TasksJson(d.tasks))]
  }

  function DocJson(d: Doc): Json {
    JObj(DocFields(d))
  }

  lemma TaskFieldsInjective(t: Task, t': Task)
    requires TaskFields(t) == TaskFields(t')
    ensures t == t'
  {
    hide Name, StateText, TaskFields, FieldOf, Value;
    forall f | Has(t, f) && Has(t', f) ensures Value(t, f) == Value(t', f) {
      HasField(t, f);
      HasField(t', f);
    }
    assert Has(t, Payload) <==> Has(t', Payload) by {
      assert FieldOf(Name(Payload)) == Some(Payload);
    }
    SameValues(t, t');
  }

  lemma SameValues(t: Task, t': Task)
    requires forall f :: (Has(t, f) <==> Has(t', f)) && (Has(t, f) ==> Value(t, f) == Value(t', f))
    ensures t == t'
  {
    hide StateText;
    assert Value(t, Topic) == Value(t', Topic) && Value(t, From) == Value(t', From) && Value(t, To) == Value(t', To);
    assert Value(t, Timeout) == Value(t', Timeout) && Value(t, State) == Value(t', State);
    assert Value(t, PublishedAt) == Value(t', PublishedAt) && Value(t, ConsumedAt) == Value(t', ConsumedAt);
    assert Value(t, FailedAt) == Value(t', FailedAt);
    assert Has(t, Payload) <==> Has(t', Payload);
    assert Has(t, Payload) ==> Value(t, Payload) == Value(t', Payload);
    StateTextInjective(t.state, t'.state);
  }

  lemma StateTextInjective(s: TaskState, s': TaskState)
    ensures StateText(s) == StateText(s') ==> s == s'
  {
    assert StateText(s)[0] == StateText(s')[0] && StateText(s)[1] == StateText(s')[1] ==> s == s';
  }

  lemma InstTextInjective(s: InstanceState, s': InstanceState)
    ensures InstText(s) == InstText(s') ==> s == s'
  {
    assert InstText(s)[0] == InstText(s')[0] ==> s == s';
  }

  /** The stored JSON determines the document: two documents with the same JSON are the same. */
  lemma DocJsonInjective(d: Doc, d': Doc)
    requires DocJson(d) == DocJson(d')
    ensures d == d'
  {
    hide TaskFields;
    var f, f' := DocFields(d), DocFields(d');
    assert f["name"] == f'["name"] && f["version"] == f'["version"] && f["schema_version"] == f'["schema_version"];
    assert f["state"] == f'["state"];
    assert f["startedAt"] == f'["startedAt"] && f["completedAt"] == f'["completedAt"]
           && f["failedAt"] == f'["failedAt"];
    assert f["tasks"] == f'["tasks"];
    InstTextInjective(d.state, d'.state);
    forall i | 0 <= i < |d.tasks| ensures d.tasks[i] == d'.tasks[i] {
      assert TasksJson(d.tasks)[i] == TasksJson(d'.tasks)[i];
      TaskFieldsInjective(d.tasks[i], d'.tasks[i]);
    }
  }

  /* ---- the write commands ---- */

  datatype Command = SetPayload(i: nat, value: Json) | MergeTask(i: nat, patch: Json) | MergeRoot(patch: Json)

  predicate HasTask(j: Json, i: nat) {
    && j.JObj? && "tasks" in j.fields && j.fields["tasks"].JArr?
    && i < |j.fields["tasks"].items| && j.fields["tasks"].items[i].JObj?
  }

  function SetTask(j: Json, i: nat, task: Json): Json
    requires HasTask(j, i)
  {
    JObj(j.fields["tasks" := JArr(j.fields["tasks"].items[i := task])])
  }

  /** JSON.SET on a task's payload, JSON.MERGE on a task or on the root; a path that matches nothing changes nothing. */
  function Execute(j: Json, cmd: Command): Json {
    match cmd
    case SetPayload(i, value) =>
      if HasTask(j, i) then SetTask(j, i, SetField(j.fields["tasks"].items[i], "payload", value)) else j
    case MergeTask(i, patch) =>
      if HasTask(j, i) then SetTask(j, i, MergePatch(j.fields["tasks"].items[i], patch)) else j
    case MergeRoot(patch) => MergePatch(j, patch)
  }

  function ExecuteAll(j: Json, cmds: seq<Command>): Json {
    if cmds == [] then j else Execute(ExecuteAll(j, cmds[..|cmds| - 1]), cmds[|cmds| - 1])
  }

  lemma {:induction false} ExecuteInTurn(j: Json, a: seq<Command>, b: seq<Command>)
    ensures ExecuteAll(j, a + b) == ExecuteAll(ExecuteAll(j, a), b)
  {
    if b == [] {
      assert a + b == a;
    } else {
      var last := |b| - 1;
      assert (a + b)[..|a + b| - 1] == a + b[..last];
      ExecuteInTurn(j, a, b[..last]);
    }
  }

  /** The commands for one target. */
  function TargetCommands(c: Call, i: nat): seq<Command> {
    (if c.action.Publish? then [SetPayload(i, c.payload)] else []) + [MergeTask(i, TaskPatch(c))]
  }

  /** The commands of the write loop for the first n targets. */
  function LoopCommands(d: Doc, c: Call, n: nat): seq<Command>
    requires InRange(d, c.idxs) && n <= |c.idxs|
  {
    if n == 0 then []
    else
      var i := c.idxs[n - 1];
      LoopCommands(d, c, n - 1) + if Writes(c.action, d.tasks[i].state) then TargetCommands(c, i) else []
  }

  /** The command that settles the instance, if any. */
  function RootCommands(wrote: Doc, now: int): seq<Command> {
    var s := JNum(Seconds(now));
    if AnyFailed(wrote.tasks) then
      [MergeRoot(JObj(map["state" := JStr("FAILED"), "completedAt" := s, "failedAt" := s]))]
    else if AllCompleted(wrote.tasks) then [MergeRoot(JObj(map["state" := JStr("COMPLETED"), "completedAt" := s]))]
    else []
  }

  /** All JSON commands of one run; a run that does not commit issues none. */
  function Commands(d: Doc, c: Call): seq<Command> {
    if Commits(d, c) then
      LoopCommands(d, c, |c.idxs|)
      + if AnyOk(d, c) then RootCommands(d.(tasks := WriteTasks(d, c)), c.now) else []
    else []
  }

  /** The stamp that an action leaves on its targets. */
  function StampField(action: Action): Field {
    if action.Publish? then PublishedAt else if action.Consume? then ConsumedAt else FailedAt
  }

  /** The patch that moves a task. */
  function TaskPatch(c: Call): Json {
    JObj(map[Name(State) := JStr(StateText(Goal(c.action))), Name(StampField(c.action)) := JNum(Seconds(c.now))])
  }

  lemma StampMerges(t: Task, c: Call)
    ensures var base := if c.action.Publish? then TaskFields(t)[Name(Payload) := c.payload] else TaskFields(t);
            MergePatch(JObj(base), TaskPatch(c)) == JObj(TaskFields(Stamp(t, c)))
  {
    hide Name, TaskFields, StateText, MergePatch, FieldOf, Value, Stamp, Has;
    var base := if c.action.Publish? then TaskFields(t)[Name(Payload) := c.payload] else TaskFields(t);
    var merged, fields := base + TaskPatch(c).fields, TaskFields(Stamp(t, c));
    FlatMergeIsOverwrite(JObj(base), TaskPatch(c));
    forall k ensures (k in merged <==> k in fields) && (k in merged ==> merged[k] == fields[k]) {
      assert forall f :: FieldOf(k) == Some(f) <==> k == Name(f);
      if FieldOf(k).Some? { StampedField(t, c, FieldOf(k).value); }
    }
    assert merged == fields;
  }

  /** A stamp changes the state, one stamp, and in a publish the payload. */
  lemma StampedField(t: Task, c: Call, f: Field)
    ensures var t' := Stamp(t, c);
            var written := f == State || f == StampField(c.action) || (c.action.Publish? && f == Payload);
            && (Has(t', f) <==> Has(t, f) || written)
            && (Has(t', f) ==>
                  Value(t', f) == if f == State then JStr(StateText(Goal(c.action)))
                                  else if f == StampField(c.action) then JNum(Seconds(c.now))
                                  else if c.action.Publish? && f == Payload then c.payload
                                  else Value(t, f))
  {
    hide StateText;
  }

  lemma MergeCommand(d: Doc, i: nat, fields: map<string, Json>, patch: Json, t: Task)
    requires i < |d.tasks| && MergePatch(JObj(fields), patch) == JObj(TaskFields(t))
    ensures var j := SetTask(DocJson(d), i, JObj(fields));
            Execute(j, MergeTask(i, patch)) == DocJson(d.(tasks := d.tasks[i := t]))
  {
    hide MergePatch, TaskFields;
    var d' := d.(tasks := d.tasks[i := t]);
    var items := TasksJson(d.tasks);
    assert items[i := JObj(fields)][i := JObj(TaskFields(t))] == items[i := JObj(TaskFields(t))];
    assert TasksJson(d'.tasks) == TasksJson(d.tasks)[i := JObj(TaskFields(t))];
    assert DocFields(d') == DocFields(d)["tasks" := JArr(TasksJson(d'.tasks))];
  }

  lemma TargetWrites(d: Doc, c: Call, i: nat)
    requires i < |d.tasks|
    ensures ExecuteAll(DocJson(d), TargetCommands(c, i)) == DocJson(d.(tasks := d.tasks[i := Stamp(d.tasks[i], c)]))
  {
    var j, t := DocJson(d), d.tasks[i];
    StampMerges(t, c);
    hide MergePatch, TaskFields, TaskPatch, Stamp, Name;
    var base := if c.action.Publish? then TaskFields(t)[Name(Payload) := c.payload] else TaskFields(t);
    MergeCommand(d, i, base, TaskPatch(c), Stamp(t, c));
    hide DocJson;
    SetNothing(d, i);
    SetPayloadField(d, i, c.payload);
    var cmds := TargetCommands(c, i);
    var merge := MergeTask(i, TaskPatch(c));
    if c.action.Publish? {
      var first := SetPayload(i, c.payload);
      assert cmds[..1] == [first] && cmds[1] == merge && [first][..0] == [];
      assert ExecuteAll(j, [first]) == Execute(j, first);
    } else {
      assert cmds[..0] == [] && cmds[0] == merge;
    }
  }

  lemma SetNothing(d: Doc, i: nat)
    requires i < |d.tasks|
    ensures HasTask(DocJson(d), i) && SetTask(DocJson(d), i, JObj(TaskFields(d.tasks[i]))) == DocJson(d)
  {
    hide TaskFields;
    var items := TasksJson(d.tasks);
    assert items[i := JObj(TaskFields(d.tasks[i]))] == items;
    assert DocFields(d)["tasks" := JArr(items)] == DocFields(d);
  }

  lemma SetPayloadField(d: Doc, i: nat, value: Json)
    requires i < |d.tasks|
    ensures HasTask(DocJson(d), i)
    ensures Execute(DocJson(d), SetPayload(i, value))
            == SetTask(DocJson(d), i, JObj(TaskFields(d.tasks[i])[Name(Payload) := value]))
  {
    hide TaskFields;
    assert Name(Payload) == "payload";
  }

  lemma {:induction false} LoopWrites(d: Doc, c: Call, n: nat)
    requires InRange(d, c.idxs) && n <= |c.idxs|
    ensures ExecuteAll(DocJson(d), LoopCommands(d, c, n)) == DocJson(d.(tasks := WriteTasks(d, S.Upto(c, n))))
  {
    hide DocJson, ExecuteAll, WriteTasks, Stamp, TargetCommands, S.Upto;
    if n == 0 {
      S.WrittenNone(d, c);
      NoCommands(DocJson(d));
      assert d.(tasks := d.tasks) == d;
    } else {
      var i := c.idxs[n - 1];
      var before := d.(tasks := WriteTasks(d, S.Upto(c, n - 1)));
      LoopWrites(d, c, n - 1);
      S.TasksStep(d, c, n - 1);
      var turn := if Writes(c.action, d.tasks[i].state) then TargetCommands(c, i) else [];
      ExecuteInTurn(DocJson(d), LoopCommands(d, c, n - 1), turn);
      NoCommands(DocJson(before));
      TargetWrites(before, c, i);
    }
  }

  lemma NoCommands(j: Json)
    ensures ExecuteAll(j, []) == j
  {
  }

  /** The merge at the root touches only state and stamps. */
  lemma RootMerges(d: Doc, patch: map<string, Json>, d': Doc)
    requires d' == d.(state := d'.state, completedAt := d'.completedAt, failedAt := d'.failedAt)
    requires patch.Keys <= {"state", "completedAt", "failedAt"}
    requires if "state" in patch then patch["state"] == JStr(InstText(d'.state)) else d'.state == d.state
    requires if "completedAt" in patch then patch["completedAt"] == JNum(d'.completedAt)
             else d'.completedAt == d.completedAt
    requires if "failedAt" in patch then patch["failedAt"] == JNum(d'.failedAt) else d'.failedAt == d.failedAt
    ensures MergePatch(DocJson(d), JObj(patch)) == DocJson(d')
  {
    hide InstText, TasksJson, MergePatch;
    assert FlatPatch(JObj(patch));
    FlatMergeIsOverwrite(DocJson(d), JObj(patch));
    var merged := DocFields(d) + patch;
    forall k ensures (k in merged <==> k in DocFields(d')) && (k in merged ==> merged[k] == DocFields(d')[k]) {
    }
    assert merged == DocFields(d');
  }

  lemma RootWrites(wrote: Doc, now: int)
    ensures ExecuteAll(DocJson(wrote), RootCommands(wrote, now)) == DocJson(Settle(wrote, now))
  {
    hide DocJson, InstText, MergePatch, AnyFailed, AllCompleted;
    var j, s := DocJson(wrote), JNum(Seconds(now));
    var failed := map["state" := JStr("FAILED"), "completedAt" := s, "failedAt" := s];
    var completed := map["state" := JStr("COMPLETED"), "completedAt" := s];
    OneCommand(j, MergeRoot(JObj(failed)));
    OneCommand(j, MergeRoot(JObj(completed)));
    NoCommands(j);
    InstTexts();
    hide ExecuteAll;
    if AnyFailed(wrote.tasks) {
      RootMerges(wrote, failed, Settle(wrote, now));
    } else if AllCompleted(wrote.tasks) {
      RootMerges(wrote, completed, Settle(wrote, now));
    }
  }

  lemma InstTexts()
    ensures InstText(InstFailed) == "FAILED" && InstText(InstCompleted) == "COMPLETED"
  {
  }

  lemma OneCommand(j: Json, cmd: Command)
    ensures ExecuteAll(j, [cmd]) == Execute(j, cmd)
  {
    assert [cmd][..0] == [];
  }

  /**
   The JSON.SET and JSON.MERGE commands of one run, executed in order on the stored document, leave
   exactly the document that module Script says the run leaves.
   */
  lemma CommandsWriteOutcome(d: Doc, c: Call)
    ensures ExecuteAll(DocJson(d), Commands(d, c)) == DocJson(Eval(d, c).doc)
  {
    EvalCases(d, c);
    NoCommands(DocJson(d));
    hide Eval, DocJson, ExecuteAll, WriteTasks, AnyOk, RootCommands, Settle, FirstRefusal, LoopCommands;
    if Commits(d, c) {
      var wrote := d.(tasks := WriteTasks(d, c));
      assert S.Upto(c, |c.idxs|) == c;
      LoopWrites(d, c, |c.idxs|);
      var root := if AnyOk(d, c) then RootCommands(wrote, c.now) else [];
      ExecuteInTurn(DocJson(d), LoopCommands(d, c, |c.idxs|), root);
      RootWrites(wrote, c.now);
      NoCommands(DocJson(wrote));
    }
  }

  /**
   What a republish would store if the payload were merged like the other fields: the body it sent,
   exactly when that body absorbs the one stored before.
   */
  lemma MergedPayloadIff(d: Doc, i: nat, body: Json)
    requires i < |d.tasks| && d.tasks[i].payload.Some? && d.tasks[i].payload.value.JObj? && body.JObj?
    ensures var merged := MergePatch(JObj(TaskFields(d.tasks[i])), JObj(map[Name(Payload) := body]));
            && Name(Payload) in merged.fields
            && (merged.fields[Name(Payload)] == body <==> Absorbs(d.tasks[i].payload.value, body))
  {
    hide TaskFields, Name, Absorbs, MergePatch, FieldOf, Has, Value;
    PayloadField(d.tasks[i]);
    MergedFieldIff(JObj(TaskFields(d.tasks[i])), Name(Payload), body);
  }

  lemma PayloadField(t: Task)
    requires t.payload.Some?
    ensures Name(Payload) in TaskFields(t) && TaskFields(t)[Name(Payload)] == t.payload.value
  {
    hide Name, TaskFields, FieldOf;
    HasField(t, Payload);
  }

  /** What the stored JSON of a document says, field by field and word for word. */
  lemma StoredTexts(d: Doc, i: nat)
    requires i < |d.tasks|
    ensures var root, t := DocJson(d).fields, d.tasks[i];
            && root.Keys == {"schema", "name", "version", "schema_version", "state", "startedAt", "completedAt",
                             "failedAt", "tasks"}
            && root["schema"] == JNum(2) && root["name"] == JStr(d.name) && root["version"] == JStr(d.version)
            && root["schema_version"] == JStr(d.schemaVersion)
            && root["state"] == JStr(match d.state
                                     case InstPending => "PENDING"
                                     case InstCompleted => "COMPLETED"
                                     case InstFailed => "FAILED")
            && root["startedAt"] == JNum(d.startedAt) && root["completedAt"] == JNum(d.completedAt)
            && root["failedAt"] == JNum(d.failedAt)
            && root["tasks"].JArr? && |root["tasks"].items| == |d.tasks| && root["tasks"].items[i].JObj?
            && TaskTexts(root["tasks"].items[i].fields, t)
  {
    hide TaskFields, TaskTexts;
    TaskTextsHold(d.tasks[i]);
  }

  predicate TaskTexts(fields: map<string, Json>, t: Task) {
    && fields.Keys == {"topic", "from", "to", "timeout", "state", "publishedAt", "consumedAt", "failedAt"}
                      + (if t.payload.Some? then {"payload"} else {})
    && fields["topic"] == JStr(t.spec.topic) && fields["from"] == JStr(t.spec.publisher)
    && fields["to"] == JStr(t.spec.consumer) && fields["timeout"] == JNum(t.spec.timeout)
    && fields["state"] == JStr(match t.state
                               case PENDING => "PENDING"
                               case PUBLISHED => "PUBLISHED"
                               case COMPLETED => "COMPLETED"
                               case FAILED => "FAILED")
    && fields["publishedAt"] == JNum(t.publishedAt) && fields["consumedAt"] == JNum(t.consumedAt)
    && fields["failedAt"] == JNum(t.failedAt)
    && (t.payload.Some? ==> fields["payload"] == t.payload.value)
  }

  lemma TaskTextsHold(t: Task)
    ensures TaskTexts(TaskFields(t), t)
  {
    TaskKeys(t);
    FieldText(t, Topic);
    FieldText(t, From);
    FieldText(t, To);
    FieldText(t, Timeout);
    FieldText(t, State);
    FieldText(t, PublishedAt);
    FieldText(t, ConsumedAt);
    FieldText(t, FailedAt);
    if t.payload.Some? { FieldText(t, Payload); }
    hide TaskFields, FieldOf;
  }

  lemma FieldText(t: Task, f: Field)
    requires Has(t, f)
    ensures Name(f) in TaskFields(t) && TaskFields(t)[Name(f)] == Value(t, f)
  {
    hide TaskFields, FieldOf, Name, Value;
    HasField(t, f);
  }

  lemma TaskKeys(t: Task)
    ensures TaskFields(t).Keys
            == {"topic", "from", "to", "timeout", "state", "publishedAt", "consumedAt", "failedAt"}
               + (if t.payload.Some? then {"payload"} else {})
  {
    hide TaskFields, Value, Name;
    forall k
      ensures k in TaskFields(t) <==>
                k in {"topic", "from", "to", "timeout", "state", "publishedAt", "consumedAt", "failedAt"}
                || (t.payload.Some? && k == "payload")
    {
    }
  }
}
