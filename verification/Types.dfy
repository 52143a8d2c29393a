/** The engine's records, as they are stored in Redis and passed to the transition script. */
module Types {
  import opened Json

  type Id = string

  datatype Option<+T> = None | Some(value: T)

  /** The state of one task. */
  datatype TaskState = PENDING | PUBLISHED | COMPLETED | FAILED

  /** The state of an instance; the two last are terminal. */
  datatype InstanceState = InstPending | InstCompleted | InstFailed

  /** One hop of a workflow template: `publisher` is the DSL's `from`, `consumer` its `to`. */
  datatype TaskSpec = TaskSpec(topic: string, publisher: string, consumer: string, timeout: int)

  datatype Workflow = Workflow(name: string, version: string, schemaVersion: string, tasks: seq<TaskSpec>)

  /** One element of `$.tasks` of an instance document. Stamps are unix seconds, 0 when unset. */
  datatype Task = Task(
    spec: TaskSpec,
    state: TaskState,
    publishedAt: int,
    consumedAt: int,
    failedAt: int,
    payload: Option<Json>)

  datatype Doc = Doc(
    name: string,
    version: string,
    schemaVersion: string,
    state: InstanceState,
    startedAt: int,
    completedAt: int,
    failedAt: int,
    tasks: seq<Task>)

  /**
   A member of `task_deadlines` or `webhook_pending`. `TaskMember(id, i)` stands for
   the text `id:i` with `i` in canonical decimal, `RawMember` for any other text. Module
   Codec says which values are normal in this sense and proves those a bijection with strings.
   */
  datatype Member = TaskMember(id: Id, index: nat) | RawMember(text: string)

  /** What the transition script reads and writes: the documents and three sorted sets. */
  datatype Db = Db(
    docs: map<Id, Doc>,
    deadlines: map<Member, int>,
    archive: map<Id, int>,
    webhooks: map<Member, int>)

  predicate Terminal(d: Doc) {
    d.state != InstPending
  }

  /** Every number in the model is a unix time in milliseconds unless said otherwise. */
  function Seconds(now: int): int {
    now / 1000
  }
}
