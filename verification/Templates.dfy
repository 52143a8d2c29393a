/** Validation of workflow files, which the protocol's invariants rest on. */
module Templates {
  import opened Types
  import opened Lifecycle

  /* ---- names ---- */

  /** unicode.IsSpace. */
  predicate IsSpace(c: char) {
    || '\U{9}' <= c <= '\U{D}' || c == ' ' || c == '\U{85}' || c == '\U{A0}' || c == '\U{1680}'
    || '\U{2000}' <= c <= '\U{200A}' || c == '\U{2028}' || c == '\U{2029}' || c == '\U{202F}'
    || c == '\U{205F}' || c == '\U{3000}'
  }

  /** strings.TrimSpace. */
  function TrimSpace(s: string): string
    decreases |s|
  {
    if s != [] && IsSpace(s[0]) then TrimSpace(s[1..])
    else if s != [] && IsSpace(s[|s| - 1]) then TrimSpace(s[..|s| - 1])
    else s
  }

  lemma {:induction false} TrimmedEmpty(s: string)
    ensures TrimSpace(s) == "" <==> forall i | 0 <= i < |s| :: IsSpace(s[i])
    decreases |s|
  {
    hide IsSpace;
    if s != [] && IsSpace(s[0]) {
      TrimmedEmpty(s[1..]);
      assert forall i | 0 <= i < |s| :: i > 0 ==> s[i] == s[1..][i - 1];
    } else if s != [] && IsSpace(s[|s| - 1]) {
      TrimmedEmpty(s[..|s| - 1]);
    }
  }

  /* ---- one workflow ---- */

  datatype Invalid =
    | NoName
    | NoTasks
    | EmptyTopic(i: nat)
    | EmptyFrom(i: nat)
    | EmptyTo(i: nat)
    | BadTimeout(i: nat)
    | Ambiguous(j: nat, i: nat)

  predicate TaskOk(t: TaskSpec) {
    t.topic != "" && t.publisher != "" && t.consumer != "" && t.timeout > 0
  }

  predicate SamePair(a: TaskSpec, b: TaskSpec) {
    a.topic == b.topic && a.consumer == b.consumer
  }

  /** The first n tasks are fine, one by one and together. */
  ghost predicate FineUpto(tasks: seq<TaskSpec>, n: nat) {
    && n <= |tasks|
    && (forall i | 0 <= i < n :: TaskOk(tasks[i]))
    && (forall i, j | 0 <= i < j < n :: !SamePair(tasks[i], tasks[j]))
  }

  predicate HasName(name: string) {
    exists i :: 0 <= i < |name| && !IsSpace(name[i])
  }

  ghost predicate ValidWorkflow(wf: Workflow) {
    HasName(wf.name) && ValidSpecs(wf.tasks)
  }

  /** What each error says of the workflow: it is the first thing wrong with it. */
  ghost predicate Explains(wf: Workflow, e: Invalid) {
    if e.NoName? then !HasName(wf.name)
    else
      && HasName(wf.name)
      && if e.NoTasks? then wf.tasks == []
         else
           && e.i < |wf.tasks| && FineUpto(wf.tasks, e.i)
           && var t := wf.tasks[e.i];
              match e
              case EmptyTopic(_) => t.topic == ""
              case EmptyFrom(_) => t.topic != "" && t.publisher == ""
              case EmptyTo(_) => t.topic != "" && t.publisher != "" && t.consumer == ""
              case BadTimeout(_) => t.topic != "" && t.publisher != "" && t.consumer != "" && t.timeout <= 0
              case Ambiguous(j, i) => TaskOk(t) && j < i && SamePair(wf.tasks[j], t)
              case _ => false
  }

  /** A workflow has at most one explanation, and a valid one has none: the contract of Validate fixes its answer. */
  lemma ExplanationsAgree(wf: Workflow, e: Invalid, e': Invalid)
    requires Explains(wf, e)
    ensures Explains(wf, e') ==> e == e'
    ensures !ValidWorkflow(wf)
  {
    hide HasName;
    if !e.NoName? && !e.NoTasks? {
      if e.Ambiguous? { assert SamePair(wf.tasks[e.j], wf.tasks[e.i]); }
      if Explains(wf, e') {
        if e.i < e'.i { NotFineBeyond(wf, e, e'.i); }
        if e'.i < e.i { NotFineBeyond(wf, e', e.i); }
      }
    }
  }

  lemma NotFineBeyond(wf: Workflow, e: Invalid, n: nat)
    requires Explains(wf, e) && !e.NoName? && !e.NoTasks? && e.i < n
    ensures !FineUpto(wf.tasks, n)
  {
    hide HasName;
    if e.Ambiguous? { assert SamePair(wf.tasks[e.j], wf.tasks[e.i]); } else { assert !TaskOk(wf.tasks[e.i]); }
  }

  lemma FineMeansValid(tasks: seq<TaskSpec>)
    requires tasks != [] && FineUpto(tasks, |tasks|)
    ensures ValidSpecs(tasks)
  {
    assert forall i | 0 <= i < |tasks| :: TaskOk(tasks[i]);
    forall i, j | 0 <= i < j < |tasks|
      ensures tasks[i].topic != tasks[j].topic || tasks[i].consumer != tasks[j].consumer
    {
      assert !SamePair(tasks[i], tasks[j]);
    }
  }

  /** Validate, with its `seen` table of (topic, to) pairs. */
  method Validate(wf: Workflow) returns (err: Option<Invalid>)
    ensures err.None? <==> ValidWorkflow(wf)
    ensures err.Some? ==> Explains(wf, err.value)
  {
    TrimmedEmpty(wf.name);
    hide IsSpace, TrimSpace;
    if TrimSpace(wf.name) == "" { return Some(NoName); }
    if |wf.tasks| == 0 { return Some(NoTasks); }
    var seen: map<(string, string), nat> := map[];
    for i := 0 to |wf.tasks|
      invariant FineUpto(wf.tasks, i)
      invariant forall p | p in seen :: seen[p] < i && (wf.tasks[seen[p]].topic, wf.tasks[seen[p]].consumer) == p
      invariant forall k | 0 <= k < i :: (wf.tasks[k].topic, wf.tasks[k].consumer) in seen
    {
      var t := wf.tasks[i];
      if t.topic == "" { return Some(EmptyTopic(i)); }
      if t.publisher == "" { return Some(EmptyFrom(i)); }
      if t.consumer == "" { return Some(EmptyTo(i)); }
      if t.timeout <= 0 { return Some(BadTimeout(i)); }
      var pair := (t.topic, t.consumer);
      if pair in seen {
        assert SamePair(wf.tasks[seen[pair]], t);
        return Some(Ambiguous(seen[pair], i));
      }
      seen := seen[pair := i];
    }
    FineMeansValid(wf.tasks);
    return None;
  }

  /** A name of spaces, tabs and line ends is refused; one with any visible ASCII character is a name. */
  lemma BlankNamesRefused(wf: Workflow)
    ensures (forall i | 0 <= i < |wf.name| :: wf.name[i] in {' ', '\t', '\n', '\r'}) ==>
              Explains(wf, NoName) && !ValidWorkflow(wf)
    ensures (exists i :: 0 <= i < |wf.name| && '!' <= wf.name[i] <= '~') ==> HasName(wf.name)
  {
    hide ValidSpecs;
    assert forall c | c in {' ', '\t', '\n', '\r'} :: IsSpace(c);
  }

  /* ---- the set of workflows ---- */

  /** A DSL file: its path and what reading and parsing it gives. */
  datatype File = File(path: string, content: Content)

  datatype Content = NoFile | NoJson | Parsed(wf: Workflow)

  datatype LoadError = Unreadable(n: nat) | Unparsable(n: nat)
    | Rejected(n: nat, why: Invalid) | NameTaken(n: nat, other: string)

  predicate Loaded(files: seq<File>, wfs: seq<Workflow>) {
    |wfs| == |files| && forall k | 0 <= k < |files| :: files[k].content == Parsed(wfs[k])
  }

  /** All valid, no name twice. */
  ghost predicate GoodSet(wfs: seq<Workflow>) {
    && (forall k | 0 <= k < |wfs| :: ValidWorkflow(wfs[k]))
    && (forall j, k | 0 <= j < k < |wfs| :: wfs[j].name != wfs[k].name)
  }

  ghost predicate Loadable(files: seq<File>) {
    exists wfs :: Loaded(files, wfs) && GoodSet(wfs)
  }

  /** The files before number n are fine and file n is not. */
  ghost predicate Fails(files: seq<File>, e: LoadError) {
    && e.n < |files| && Loadable(files[..e.n])
    && match e
       case Unreadable(n) => files[n].content.NoFile?
       case Unparsable(n) => files[n].content.NoJson?
       case Rejected(n, why) => files[n].content.Parsed? && Explains(files[n].content.wf, why)
       case NameTaken(n, other) =>
         && files[n].content.Parsed? && ValidWorkflow(files[n].content.wf)
         && exists k :: 0 <= k < n && files[k].path == other && files[k].content.Parsed?
                        && files[k].content.wf.name == files[n].content.wf.name
  }

  /** A reported failure is one: no result would have been acceptable. */
  lemma FailureIsReal(files: seq<File>, e: LoadError)
    requires Fails(files, e)
    ensures !Loadable(files)
  {
    hide ValidWorkflow, Explains;
    if wfs :| Loaded(files, wfs) && GoodSet(wfs) {
      assert files[e.n].content == Parsed(wfs[e.n]) && ValidWorkflow(wfs[e.n]);
      if e.Rejected? {
        ExplanationsAgree(wfs[e.n], e.why, e.why);
      } else if e.NameTaken? {
        var k :| 0 <= k < e.n && files[k].content.Parsed?
                 && files[k].content.wf.name == files[e.n].content.wf.name;
        assert files[k].content == Parsed(wfs[k]);
      }
    }
  }

  /** The `names` table: each name loaded so far, with a file that defines it. */
  ghost predicate NamesTable(files: seq<File>, wfs: seq<Workflow>, names: map<string, string>)
    requires |wfs| <= |files|
  {
    && (forall k | 0 <= k < |wfs| :: wfs[k].name in names)
    && (forall x | x in names :: exists k :: 0 <= k < |wfs| && files[k].path == names[x] && wfs[k].name == x)
  }

  lemma NamesTableGrows(files: seq<File>, wfs: seq<Workflow>, names: map<string, string>, wf: Workflow)
    requires |wfs| < |files| && NamesTable(files, wfs, names) && wf.name !in names
    ensures NamesTable(files, wfs + [wf], names[wf.name := files[|wfs|].path])
  {
    var more, names' := wfs + [wf], names[wf.name := files[|wfs|].path];
    forall x | x in names' ensures exists k :: 0 <= k < |more| && files[k].path == names'[x] && more[k].name == x {
      if x == wf.name {
        assert files[|wfs|].path == names'[x] && more[|wfs|].name == x;
      } else {
        var k :| 0 <= k < |wfs| && files[k].path == names[x] && wfs[k].name == x;
        assert more[k].name == x;
      }
    }
  }

  /** One more file that is fine. */
  lemma LoadedGrows(files: seq<File>, wfs: seq<Workflow>, names: map<string, string>, wf: Workflow)
    requires |wfs| < |files| && Loaded(files[..|wfs|], wfs) && GoodSet(wfs) && NamesTable(files, wfs, names)
    requires files[|wfs|].content == Parsed(wf) && ValidWorkflow(wf) && wf.name !in names
    ensures Loaded(files[..|wfs| + 1], wfs + [wf]) && GoodSet(wfs + [wf])
    ensures NamesTable(files, wfs + [wf], names[wf.name := files[|wfs|].path])
  {
    hide ValidWorkflow;
    NamesTableGrows(files, wfs, names, wf);
    assert forall k | 0 <= k < |wfs| :: files[..|wfs|][k].content == Parsed(wfs[k]);
  }

  /** One more file that is not: it is the first, and there is no result. */
  lemma LoadStops(files: seq<File>, wfs: seq<Workflow>, names: map<string, string>, why: Option<Invalid>)
    requires |wfs| < |files| && Loaded(files[..|wfs|], wfs) && GoodSet(wfs) && NamesTable(files, wfs, names)
    ensures var n := |wfs|;
            var f := files[n];
            && (f.content.NoFile? ==> Fails(files, Unreadable(n)))
            && (f.content.NoJson? ==> Fails(files, Unparsable(n)))
            && (f.content.Parsed? && why.Some? && Explains(f.content.wf, why.value) ==>
                  Fails(files, Rejected(n, why.value)))
            && (f.content.Parsed? && ValidWorkflow(f.content.wf) && f.content.wf.name in names ==>
                  Fails(files, NameTaken(n, names[f.content.wf.name])))
  {
    hide ValidWorkflow, Explains;
    var n := |wfs|;
    assert Loadable(files[..n]);
    if files[n].content.Parsed? && files[n].content.wf.name in names {
      var x := files[n].content.wf.name;
      var k :| 0 <= k < n && files[k].path == names[x] && wfs[k].name == x;
      assert files[..n][k].content == Parsed(wfs[k]);
    }
  }

  /** loadFiles, with its `names` table: nothing is returned unless every file is valid and no name occurs twice. */
  method LoadFiles(files: seq<File>) returns (wfs: seq<Workflow>, err: Option<LoadError>)
    ensures err.None? <==> Loadable(files)
    ensures err.None? ==> Loaded(files, wfs) && GoodSet(wfs)
    ensures err.Some? ==> wfs == [] && Fails(files, err.value)
  {
    hide ValidWorkflow, Explains, Loaded, GoodSet, NamesTable, Fails, Loadable;
    wfs := [];
    var names: map<string, string> := map[];
    NothingLoaded(files);
    for n := 0 to |files|
      invariant |wfs| == n && Loaded(files[..n], wfs) && GoodSet(wfs) && NamesTable(files, wfs, names)
    {
      var f := files[n];
      if !f.content.Parsed? {
        LoadStops(files, wfs, names, None);
        var e := if f.content.NoFile? then Unreadable(n) else Unparsable(n);
        FailureIsReal(files, e);
        return [], Some(e);
      }
      var wf := f.content.wf;
      var why := Validate(wf);
      LoadStops(files, wfs, names, why);
      if why.Some? {
        FailureIsReal(files, Rejected(n, why.value));
        return [], Some(Rejected(n, why.value));
      }
      if wf.name in names {
        FailureIsReal(files, NameTaken(n, names[wf.name]));
        return [], Some(NameTaken(n, names[wf.name]));
      }
      LoadedGrows(files, wfs, names, wf);
      names := names[wf.name := f.path];
      wfs := wfs + [wf];
    }
    assert files[..|files|] == files;
    assert Loadable(files) by { LoadedIsLoadable(files, wfs); }
    return wfs, None;
  }

  lemma NothingLoaded(files: seq<File>)
    ensures Loaded(files[..0], []) && GoodSet([]) && NamesTable(files, [], map[])
  {
  }

  lemma LoadedIsLoadable(files: seq<File>, wfs: seq<Workflow>)
    requires Loaded(files, wfs) && GoodSet(wfs)
    ensures Loadable(files)
  {
  }
}
