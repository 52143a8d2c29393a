/** The reply of a batch, what its counters mean, and the Go code that decodes it. */
module Accounting {
  import opened Types
  import opened Script
  import opened Lifecycle
  import opened Engine
  import opened Reaper
  import Codec
  import ZSet

  datatype BatchReply = BatchReply(reaped: nat, hooks: nat, archives: nat, dropped: nat, list: seq<(Member, int)>)

  const EMPTY_REPLY := BatchReply(0, 0, 0, 0, [])

  function Plus(a: BatchReply, b: BatchReply): BatchReply {
    BatchReply(a.reaped + b.reaped, a.hooks + b.hooks, a.archives + b.archives, a.dropped + b.dropped, a.list + b.list)
  }

  /** What one member adds to the counters. */
  function MemberReply(db: Db, now: int, entry: (Member, int)): BatchReply {
    match Codec.Locate(entry.0)
    case None => BatchReply(0, 0, 0, 1, [])
    case Some((id, i)) =>
      var r := Run(db, id, BatchCall(i, now)).1;
      if r.code == OK then
        BatchReply(1, if r.webhookQueued then 1 else 0, if r.terminalNow then 1 else 0, 0, [entry])
      else if Unresolvable(r.code) then BatchReply(0, 0, 0, 1, [])
      else EMPTY_REPLY
  }

  /** What reap_batch returns for the due members it read. */
  function ReplyOf(s: Sys, now: int, due: seq<(Member, int)>): BatchReply
    decreases |due|
  {
    if due == [] then EMPTY_REPLY
    else Plus(MemberReply(s.db, now, due[0]), ReplyOf(BatchMember(s, now, due[0].0), now, due[1..]))
  }

  /* ---- distinct instances ---- */

  predicate LiveAt(docs: map<Id, Doc>, due: seq<(Member, int)>, k: int)
    requires 0 <= k < |due|
  {
    due[k].0.TaskMember? && due[k].0.id in docs && !Terminal(docs[due[k].0.id])
  }

  /** The live instances that the members belong to. */
  function LiveIds(docs: map<Id, Doc>, due: seq<(Member, int)>): (ids: set<Id>)
    ensures forall id :: id in ids <==> exists k :: 0 <= k < |due| && LiveAt(docs, due, k) && due[k].0.id == id
  {
    set k | 0 <= k < |due| && LiveAt(docs, due, k) :: due[k].0.id
  }

  lemma LiveIdsStep(db: Db, db': Db, due: seq<(Member, int)>)
    requires due != [] && Reaped(db, db', due[0].0)
    ensures var id, rest := due[0].0.id, LiveIds(db'.docs, due[1..]);
            && id !in rest
            && LiveIds(db.docs, due) == (if Terminal(db.docs[id]) then rest else rest + {id})
  {
    hide Examined;
    var id := due[0].0.id;
    var whole, rest := LiveIds(db.docs, due), LiveIds(db'.docs, due[1..]);
    forall x | x in rest ensures x in whole && x != id {
      var k :| 0 <= k < |due| - 1 && LiveAt(db'.docs, due[1..], k) && due[1..][k].0.id == x;
      assert due[1..][k] == due[k + 1] && LiveAt(db.docs, due, k + 1);
    }
    forall x | x in whole && x != id ensures x in rest {
      var k :| 0 <= k < |due| && LiveAt(db.docs, due, k) && due[k].0.id == x;
      assert due[1..][k - 1] == due[k] && LiveAt(db'.docs, due[1..], k - 1);
    }
    assert id in whole <==> !Terminal(db.docs[id]) by {
      if !Terminal(db.docs[id]) { assert LiveAt(db.docs, due, 0); }
    }
  }

  /** Every counter is the number of distinct live instances, and every listed entry was examined. */
  ghost predicate Counts(r: BatchReply, n: nat, due: seq<(Member, int)>) {
    && r.reaped == n && r.hooks == n && r.archives == n && r.dropped == 0 && |r.list| == n
    && forall e | e in r.list :: e in due
  }

  lemma MemberCounts(s: Sys, now: int, entry: (Member, int))
    requires Inv(s) && Examined(s.db.docs, entry.0)
    ensures MemberReply(s.db, now, entry)
            == if Terminal(s.db.docs[entry.0.id]) then EMPTY_REPLY else BatchReply(1, 1, 1, 0, [entry])
  {
    hide Inv, Run, BatchMember, Reaped, LoopMember, Codec.LuaSplit, Codec.Print;
    MemberAgrees(s, now, entry.0);
  }

  lemma CountsStep(due: seq<(Member, int)>, first: BatchReply, rest: BatchReply, n: nat)
    requires due != [] && Counts(rest, n, due[1..])
    ensures first == EMPTY_REPLY ==> Counts(Plus(first, rest), n, due)
    ensures first == BatchReply(1, 1, 1, 0, [due[0]]) ==> Counts(Plus(first, rest), n + 1, due)
  {
    assert forall e | e in due[1..] :: e in due;
  }

  lemma {:induction false} ReplyCounts(s: Sys, now: int, due: seq<(Member, int)>)
    requires Inv(s) && ZSet.DistinctKeys(due) && AllExamined(s.db.docs, due)
    ensures Counts(ReplyOf(s, now, due), |LiveIds(s.db.docs, due)|, due)
    decreases |due|
  {
    hide Inv, BatchMember, LoopMember, ZSet.DistinctKeys, MemberReply, Reaped, LiveIds,
         Examined, Terminal, Run, Plus, Counts;
    if due == [] {
      assert Counts(EMPTY_REPLY, 0, due) by { EmptyCounts(due); }
      assert LiveIds(s.db.docs, due) == {};
    } else {
      var m := due[0].0;
      var s1 := BatchMember(s, now, m);
      assert Examined(s.db.docs, m);
      MemberAgrees(s, now, m);
      MemberCounts(s, now, due[0]);
      RestExamined(s.db, s1.db, due);
      ReplyCounts(s1, now, due[1..]);
      LiveIdsStep(s.db, s1.db, due);
      CountsStep(due, MemberReply(s.db, now, due[0]), ReplyOf(s1, now, due[1..]), |LiveIds(s1.db.docs, due[1..])|);
    }
  }

  lemma EmptyCounts(due: seq<(Member, int)>)
    ensures Counts(EMPTY_REPLY, 0, due)
  {
  }

  /** The instances the examined members belong to. */
  function Instances(due: seq<(Member, int)>): set<Id> {
    set k | 0 <= k < |due| && due[k].0.TaskMember? :: due[k].0.id
  }

  lemma AllLive(s: Sys, now: int, limit: nat, due: seq<(Member, int)>)
    requires Inv(s) && ZSet.IsRange(s.db.deadlines, now, limit, due)
    ensures LiveIds(s.db.docs, due) == Instances(due)
    ensures forall k | 0 <= k < |due| :: Armed(s.db.docs, due[k].0)
  {
    DueAddressable(s, now, limit, due);
    hide Inv;
    forall k | 0 <= k < |due| ensures LiveAt(s.db.docs, due, k) {
      assert Armed(s.db.docs, due[k].0);
    }
  }

  /** The listed deadline of a reaped task: the score stored for it, not later than now, and its latest. */
  ghost predicate LatestDeadline(s: Sys, e: (Member, int), now: int) {
    && e.0.TaskMember? && e.0 in s.db.deadlines && e.1 == s.db.deadlines[e.0] && e.1 <= now
    && e.0.id in s.db.docs && e.0.index < |s.db.docs[e.0.id].tasks|
    && LastPublish(s.log, e.0.id, e.0.index).Some?
    && e.1 == LastPublish(s.log, e.0.id, e.0.index).value.now + s.db.docs[e.0.id].tasks[e.0.index].spec.timeout
  }

  lemma RangeEntry(z: map<Member, int>, now: int, limit: nat, due: seq<(Member, int)>, k: nat)
    requires ZSet.IsRange(z, now, limit, due) && k < |due|
    ensures due[k].0 in z && due[k].1 == z[due[k].0] && due[k].1 <= now
  {
  }

  lemma ArmedLatest(s: Sys, m: Member, now: int)
    requires Inv(s) && m in s.db.deadlines && Armed(s.db.docs, m) && s.db.deadlines[m] <= now
    ensures LatestDeadline(s, (m, s.db.deadlines[m]), now)
  {
    hide LastPublish, DocsInv, PendingInv, DocsMatchLog, LogKnown, DeadlinesAgree;
  }

  lemma DueLatest(s: Sys, now: int, limit: nat, due: seq<(Member, int)>, e: (Member, int))
    requires Inv(s) && ZSet.IsRange(s.db.deadlines, now, limit, due) && e in due
    ensures LatestDeadline(s, e, now)
  {
    hide Inv, ZSet.IsRange, Armed, Addressable, LatestDeadline;
    DueAddressable(s, now, limit, due);
    var k: nat :| k < |due| && due[k] == e;
    RangeEntry(s.db.deadlines, now, limit, due, k);
    ArmedLatest(s, e.0, now);
  }

  /**
   Batch accounting, in every reachable state: reaped tasks, webhooks and archive jobs are
   all as many as the distinct instances among the examined members, nothing is dropped,
   and each listed task is paired with its latest deadline, which has passed. No task is
   reaped before its latest publish plus its timeout.
   */
  lemma BatchAccounting(steps: seq<Step>, now: int, limit: nat, due: seq<(Member, int)>)
    requires IsRun(INIT, steps) && ZSet.IsRange(After(INIT, steps).db.deadlines, now, limit, due)
    ensures var s := After(INIT, steps);
            var r := ReplyOf(s, now, due);
            && Counts(r, |Instances(due)|, due)
            && forall e | e in r.list :: LatestDeadline(s, e, now)
  {
    ReachableInv(steps);
    hide After, IsRun, Inv, ReplyOf, LatestDeadline, LiveIds, Instances, ZSet.IsRange, AllExamined, ZSet.DistinctKeys;
    var s := After(INIT, steps);
    DueExamined(s, now, limit, due);
    AllLive(s, now, limit, due);
    ReplyCounts(s, now, due);
    forall e | e in due ensures LatestDeadline(s, e, now) {
      DueLatest(s, now, limit, due, e);
    }
  }

  /* ---- decoding the reply in Go ---- */

  /** A reply as the Redis client hands it over. */
  datatype Raw = Int(n: int) | Text(s: string) | List(items: seq<Raw>)

  /** reapBatchResult; lags are in seconds. */
  datatype Decoded = Decoded(
    reaped: int, webhooks: int, archives: int, dropped: int,
    members: seq<string>, deadlines: seq<string>, lags: seq<real>)

  function Flatten(list: seq<(Member, int)>): (items: seq<Raw>)
    ensures |items| == 2 * |list|
    ensures forall k | 0 <= k < |list| ::
              items[2 * k] == Text(Codec.Print(list[k].0)) && items[2 * k + 1] == Text(Codec.ScoreText(list[k].1))
  {
    if list == [] then []
    else
      var last := list[|list| - 1];
      Flatten(list[..|list| - 1]) + [Text(Codec.Print(last.0)), Text(Codec.ScoreText(last.1))]
  }

  function Encode(r: BatchReply): Raw {
    List([Int(r.reaped), Int(r.hooks), Int(r.archives), Int(r.dropped), List(Flatten(r.list))])
  }

  /** lagSeconds on a whole-millisecond score. */
  function LagSeconds(now: int, score: int): real {
    if now < score then 0.0 else (now - score) as real / 1000.0
  }

  lemma LagNotNegative(now: int, score: int)
    ensures LagSeconds(now, score) >= 0.0
    ensures score >= now ==> LagSeconds(now, score) == 0.0
  {
  }

  /** The reply has the five parts the decoder asks for. */
  predicate FiveParts(raw: Raw) {
    && raw.List? && |raw.items| == 5
    && (forall i | 0 <= i < 4 :: raw.items[i].Int?)
    && raw.items[4].List? && |raw.items[4].items| % 2 == 0
    && |raw.items[4].items| / 2 == raw.items[0].n
  }

  /** A Go type assertion to string that yields "" when it fails. */
  function TextOf(raw: Raw): string {
    if raw.Text? then raw.s else ""
  }

  predicate GoodPair(pairs: seq<Raw>, k: int)
    requires 0 <= k && 2 * k + 1 < |pairs|
  {
    TextOf(pairs[2 * k]) != "" && Codec.Integer(TextOf(pairs[2 * k + 1])).Some?
  }

  /** The k-th pair, decoded. */
  predicate DecodesTo(pairs: seq<Raw>, k: int, member: string, deadline: string, lag: real, now: int)
    requires 0 <= k && 2 * k + 1 < |pairs|
  {
    && member == TextOf(pairs[2 * k]) && deadline == TextOf(pairs[2 * k + 1])
    && Codec.Integer(deadline).Some? && lag == LagSeconds(now, Codec.Integer(deadline).value)
  }

  /** reapBatch's decoding: a result exactly when the reply is well formed, entry by entry. */
  method DecodeReply(raw: Raw, now: int) returns (res: Option<Decoded>)
    ensures res.Some?
            <==> (FiveParts(raw) && forall k | 0 <= k < |raw.items[4].items| / 2 :: GoodPair(raw.items[4].items, k))
    ensures res.Some? ==>
              var d := res.value;
              var pairs := raw.items[4].items;
              && d.reaped == raw.items[0].n && d.webhooks == raw.items[1].n
              && d.archives == raw.items[2].n && d.dropped == raw.items[3].n
              && |d.members| == |d.deadlines| == |d.lags| == d.reaped
              && forall k | 0 <= k < d.reaped :: DecodesTo(pairs, k, d.members[k], d.deadlines[k], d.lags[k], now)
  {
    hide Codec.Integer, LagSeconds;
    if !raw.List? || |raw.items| != 5 { return None; }
    var parts := raw.items;
    var out: seq<int> := [];
    for i := 0 to 4
      invariant |out| == i
      invariant forall j | 0 <= j < i :: parts[j].Int? && out[j] == parts[j].n
    {
      if !parts[i].Int? { return None; }
      out := out + [parts[i].n];
    }
    if !parts[4].List? { return None; }
    var pairs := parts[4].items;
    if |pairs| % 2 != 0 || |pairs| / 2 != out[0] { return None; }
    var members: seq<string>, deadlines: seq<string>, lags: seq<real> := [], [], [];
    for k := 0 to |pairs| / 2
      invariant |members| == |deadlines| == |lags| == k
      invariant forall j | 0 <= j < k :: GoodPair(pairs, j)
      invariant forall j | 0 <= j < k :: DecodesTo(pairs, j, members[j], deadlines[j], lags[j], now)
    {
      var m, score := TextOf(pairs[2 * k]), TextOf(pairs[2 * k + 1]);
      var ms := Codec.Integer(score);
      if m == "" || ms.None? {
        assert !GoodPair(pairs, k);
        return None;
      }
      members, deadlines, lags := members + [m], deadlines + [score], lags + [LagSeconds(now, ms.value)];
    }
    return Some(Decoded(out[0], out[1], out[2], out[3], members, deadlines, lags));
  }

  /** An entry survives the encoding: it is a good pair, splitMember names its task, and its lag is not clamped. */
  ghost predicate Survives(e: (Member, int), pairs: seq<Raw>, k: int, now: int)
    requires 0 <= k && 2 * k + 1 < |pairs|
  {
    && GoodPair(pairs, k)
    && e.0.TaskMember? && Codec.GoSplit(TextOf(pairs[2 * k])) == Some((e.0.id, e.0.index))
    && Codec.Integer(TextOf(pairs[2 * k + 1])) == Some(e.1)
    && 0.0 <= LagSeconds(now, e.1) == (now - e.1) as real / 1000.0
  }

  lemma EntrySurvives(list: seq<(Member, int)>, k: int, now: int)
    requires 0 <= k < |list| && list[k].0.TaskMember? && list[k].0.index <= Codec.MAX_INT && list[k].1 <= now
    ensures Survives(list[k], Flatten(list), k, now)
  {
    hide Codec.Print, Codec.ScoreText, Codec.LuaSplit, Codec.Integer, Codec.GoSplit, Flatten;
    var e := list[k];
    Codec.MemberRoundTrip(e.0.id, e.0.index);
    Codec.ScoreRoundTrip(e.1);
    Codec.MemberNotEmpty(e.0.id, e.0.index);
  }

  /**
   The decoder accepts the reply of every batch in every reachable state: the length check
   holds, members and deadlines come back as stored, and no lag is negative or clamped.
   */
  lemma ReplyDecodes(steps: seq<Step>, now: int, limit: nat, due: seq<(Member, int)>)
    requires IsRun(INIT, steps) && ZSet.IsRange(After(INIT, steps).db.deadlines, now, limit, due)
    ensures var r := ReplyOf(After(INIT, steps), now, due);
            var pairs := Flatten(r.list);
            && FiveParts(Encode(r)) && Encode(r).items[4].items == pairs
            && forall k | 0 <= k < |r.list| :: Survives(r.list[k], pairs, k, now)
  {
    hide After, IsRun, ReplyOf, ZSet.IsRange, Instances, Flatten, Survives, Inv;
    BatchAccounting(steps, now, limit, due);
    ReachableFits(steps);
    var s := After(INIT, steps);
    var r := ReplyOf(s, now, due);
    forall k | 0 <= k < |r.list| ensures Survives(r.list[k], Flatten(r.list), k, now) {
      assert r.list[k] in r.list;
      assert LatestDeadline(s, r.list[k], now);
      assert Fits(Specs(s.db.docs[r.list[k].0.id].tasks));
      EntrySurvives(r.list, k, now);
    }
  }

  /** The four counters and the list, in the order in which the decoder expects them. */
  lemma CountersInOrder(r: BatchReply)
    ensures var raw := Encode(r);
            && raw.List? && |raw.items| == 5
            && raw.items[0] == Int(r.reaped) && raw.items[1] == Int(r.hooks) && raw.items[2] == Int(r.archives)
            && raw.items[3] == Int(r.dropped) && raw.items[4].List? && |raw.items[4].items| == 2 * |r.list|
  {
  }
}
