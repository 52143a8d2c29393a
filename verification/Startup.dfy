/**
 Start-up: the workflow files are loaded and stored as templates, then the service registry is checked.
 Templates live in Redis and survive a restart, so what is stored is not what the last start-up loaded.
 */
module Startup {
  import opened Types
  import opened Lifecycle
  import opened Templates
  import E = Engine
  import R = Receivers
  import S = Scenarios
  import Workers

  /* ---- the stored templates ---- */

  /** The templates after some workflows were stored, each under its name. */
  function Stored(templates: map<string, Workflow>, wfs: seq<Workflow>): map<string, Workflow> {
    if wfs == [] then templates
    else
      var last := wfs[|wfs| - 1];
      Stored(templates, wfs[..|wfs| - 1])[last.name := last]
  }

  function NamesOf(wfs: seq<Workflow>): (names: set<string>)
    ensures forall x :: x in names <==> exists k :: 0 <= k < |wfs| && wfs[k].name == x
  {
    set k | 0 <= k < |wfs| :: wfs[k].name
  }

  lemma NamesOfLast(wfs: seq<Workflow>)
    requires wfs != []
    ensures NamesOf(wfs) == NamesOf(wfs[..|wfs| - 1]) + {wfs[|wfs| - 1].name}
  {
    hide NamesOf;
    var front, last := wfs[..|wfs| - 1], wfs[|wfs| - 1];
    forall x ensures x in NamesOf(wfs) <==> x in NamesOf(front) || x == last.name {
      if x in NamesOf(wfs) {
        var k :| 0 <= k < |wfs| && wfs[k].name == x;
        if k < |front| { assert front[k].name == x; }
      }
      if x in NamesOf(front) {
        var k :| 0 <= k < |front| && front[k].name == x;
        assert wfs[k].name == x;
      }
    }
  }

  ghost predicate Holds(templates: map<string, Workflow>, wfs: seq<Workflow>, after: map<string, Workflow>) {
    && after.Keys == templates.Keys + NamesOf(wfs)
    && (forall k | 0 <= k < |wfs| :: after[wfs[k].name] == wfs[k])
    && (forall x | x in templates && x !in NamesOf(wfs) :: after[x] == templates[x])
  }

  lemma HoldsMore(templates: map<string, Workflow>, wfs: seq<Workflow>, after: map<string, Workflow>)
    requires wfs != [] && Holds(templates, wfs[..|wfs| - 1], after)
    requires forall k | 0 <= k < |wfs| - 1 :: wfs[k].name != wfs[|wfs| - 1].name
    ensures Holds(templates, wfs, after[wfs[|wfs| - 1].name := wfs[|wfs| - 1]])
  {
    NamesOfLast(wfs);
    var front := wfs[..|wfs| - 1];
    assert forall k | 0 <= k < |front| :: front[k] == wfs[k];
  }

  /** What storing does to the templates: the workflows are there, and every other template is as it was. */
  lemma {:induction false} StoredExactly(templates: map<string, Workflow>, wfs: seq<Workflow>)
    requires forall j, k | 0 <= j < k < |wfs| :: wfs[j].name != wfs[k].name
    ensures Holds(templates, wfs, Stored(templates, wfs))
  {
    if wfs == [] {
      assert NamesOf(wfs) == {};
    } else {
      var front := wfs[..|wfs| - 1];
      assert forall k | 0 <= k < |front| :: front[k] == wfs[k];
      StoredExactly(templates, front);
      hide Holds;
      HoldsMore(templates, wfs, Stored(templates, front));
    }
  }

  /* ---- the service registry ---- */

  datatype Service = Service(name: string, url: string)

  /** What services.json holds; None when it cannot be read or parsed. */
  type Registry = Option<seq<Service>>

  /** Entry `k` is the first for the service: the one that counts. */
  predicate IsEntry(services: seq<Service>, service: string, k: int) {
    0 <= k < |services| && services[k].name == service && forall j | 0 <= j < k :: services[j].name != service
  }

  /** The service has an entry, and that entry a failure URL. */
  ghost predicate HasUrl(services: seq<Service>, service: string) {
    exists k :: IsEntry(services, service, k) && services[k].url != ""
  }

  /** The registry as the webhook worker sees it. */
  function RegistryOf(services: seq<Service>): map<string, string> {
    if services == [] then map[] else RegistryOf(services[1..])[services[0].name := services[0].url]
  }

  lemma {:induction false} EntryCounts(services: seq<Service>, service: string, k: int)
    requires IsEntry(services, service, k)
    ensures Workers.UrlOf(RegistryOf(services), service) == services[k].url
  {
    if k > 0 {
      var rest := services[1..];
      assert services[0].name != service;
      forall j | 0 <= j < k - 1 ensures rest[j].name != service {
        assert rest[j] == services[j + 1];
      }
      EntryCounts(rest, service, k - 1);
    }
  }

  lemma {:induction false} NoEntryNoUrl(services: seq<Service>, service: string)
    requires forall k | 0 <= k < |services| :: services[k].name != service
    ensures Workers.UrlOf(RegistryOf(services), service) == ""
  {
    if services != [] {
      NoEntryNoUrl(services[1..], service);
    }
  }

  /** What the worker looks up is the URL of the first entry, and nothing for a service without one. */
  lemma RegistryHoldsEntries(services: seq<Service>, service: string)
    ensures HasUrl(services, service) <==> Workers.UrlOf(RegistryOf(services), service) != ""
  {
    EntryOrNone(services, service);
    hide IsEntry, RegistryOf, Workers.UrlOf;
    if k :| IsEntry(services, service, k) {
      EntryCounts(services, service, k);
    } else {
      NoEntryNoUrl(services, service);
      assert forall k :: !IsEntry(services, service, k);
    }
  }

  /** FileRegistry.FailureURL: read the file, then scan for the first entry with the name. */
  method FailureURL(file: Registry, service: string) returns (url: Option<string>)
    ensures url.None? <==> file.None?
    ensures forall k | file.Some? && IsEntry(file.value, service, k) :: url == Some(file.value[k].url)
    ensures file.Some? && (forall k | 0 <= k < |file.value| :: file.value[k].name != service) ==> url == Some("")
  {
    if file.None? { return None; }
    var services := file.value;
    for k := 0 to |services|
      invariant forall j | 0 <= j < k :: services[j].name != service
    {
      if services[k].name == service {
        EntryOrNone(services, service);
        assert IsEntry(services, service, k);
        return Some(services[k].url);
      }
    }
    return Some("");
  }

  /** An entry with a URL, or none at all: what the scan can tell. */
  lemma EntryOrNone(services: seq<Service>, service: string)
    ensures (exists k :: IsEntry(services, service, k)) || forall k | 0 <= k < |services| :: services[k].name != service
    ensures forall j, k | IsEntry(services, service, j) && IsEntry(services, service, k) :: j == k
  {
    if i :| 0 <= i < |services| && services[i].name == service {
      var k := FirstEntry(services, service, 0, i);
      assert IsEntry(services, service, k);
    }
  }

  function FirstEntry(services: seq<Service>, service: string, from: nat, i: nat): (k: nat)
    requires from <= i < |services| && services[i].name == service
    requires forall j | 0 <= j < from :: services[j].name != service
    ensures IsEntry(services, service, k)
    decreases i - from
  {
    if services[from].name == service then from else FirstEntry(services, service, from + 1, i)
  }

  /** The registry could be read and knows a failure URL for every publisher of the first n tasks. */
  ghost predicate Covered(file: Registry, tasks: seq<TaskSpec>, n: nat)
    requires n <= |tasks|
  {
    n == 0 || (file.Some? && forall i | 0 <= i < n :: HasUrl(file.value, tasks[i].publisher))
  }

  ghost predicate AllCovered(file: Registry, wfs: seq<Workflow>, n: nat)
    requires n <= |wfs|
  {
    forall k | 0 <= k < n :: Covered(file, wfs[k].tasks, |wfs[k].tasks|)
  }

  datatype ServiceError = LookupFailed(k: nat, i: nat) | NoUrl(k: nat, i: nat)

  /** ValidateServices: None, or the first workflow and task whose publisher cannot be looked up or has no URL. */
  method ValidateServices(file: Registry, wfs: seq<Workflow>) returns (err: Option<ServiceError>)
    ensures err.None? <==> AllCovered(file, wfs, |wfs|)
    ensures err.Some? ==>
              var e := err.value;
              && e.k < |wfs| && e.i < |wfs[e.k].tasks|
              && AllCovered(file, wfs, e.k) && Covered(file, wfs[e.k].tasks, e.i)
              && match e
                 case LookupFailed(_, _) => file.None?
                 case NoUrl(k, i) =>
                   file.Some? && !HasUrl(file.value, wfs[k].tasks[i].publisher)
  {
    hide IsEntry;
    for k := 0 to |wfs|
      invariant AllCovered(file, wfs, k)
    {
      for i := 0 to |wfs[k].tasks|
        invariant Covered(file, wfs[k].tasks, i)
      {
        var url := FailureURL(file, wfs[k].tasks[i].publisher);
        if url.None? { return Some(LookupFailed(k, i)); }
        EntryOrNone(file.value, wfs[k].tasks[i].publisher);
        if url.value == "" { return Some(NoUrl(k, i)); }
      }
    }
    return None;
  }

  /* ---- one start-up ---- */

  /** What start-up finds: the workflow files, the registry, and how many template writes succeed. */
  datatype Start = Start(files: seq<File>, registry: Registry, writes: nat)

  /** What loadFiles returns for files that load. */
  function Workflows(files: seq<File>): (wfs: seq<Workflow>)
    requires forall k | 0 <= k < |files| :: files[k].content.Parsed?
    ensures Loaded(files, wfs)
  {
    seq(|files|, k requires 0 <= k < |files| => files[k].content.wf)
  }

  lemma LoadableWorkflows(files: seq<File>)
    requires Loadable(files)
    ensures forall k | 0 <= k < |files| :: files[k].content.Parsed?
    ensures GoodSet(Workflows(files))
  {
    var wfs :| Loaded(files, wfs) && GoodSet(wfs);
    assert forall k | 0 <= k < |files| :: files[k].content == Parsed(wfs[k]);
    assert wfs == Workflows(files);
  }

  function Least(a: nat, b: nat): (m: nat)
    ensures m <= a && m <= b
  {
    if a <= b then a else b
  }

  /** The templates after a start-up, and whether the process goes on to serve. */
  ghost function StartedUp(templates: map<string, Workflow>, start: Start): (map<string, Workflow>, bool) {
    if !Loadable(start.files) then (templates, false)
    else
      LoadableWorkflows(start.files);
      var wfs := Workflows(start.files);
      (Stored(templates, wfs[..Least(start.writes, |wfs|)]),
       start.writes >= |wfs| && AllCovered(start.registry, wfs, |wfs|))
  }

  /** The template keyspace of Redis, across the lives of the process. */
  class TemplateStore {
    var templates: map<string, Workflow>

    constructor ()
      ensures templates == map[]
    {
      templates := map[];
    }

    /** ParseDSL's loop of writes; the first one that fails ends it. */
    method StoreAll(wfs: seq<Workflow>, writes: nat) returns (ok: bool)
      modifies this
      ensures templates == Stored(old(templates), wfs[..Least(writes, |wfs|)])
      ensures ok <==> writes >= |wfs|
    {
      for n := 0 to |wfs|
        invariant n <= writes && templates == Stored(old(templates), wfs[..n])
      {
        if n == writes { return false; }
        assert wfs[..n + 1][..n] == wfs[..n];
        templates := templates[wfs[n].name := wfs[n]];
      }
      return true;
    }

    /** Start-up as main runs it: load, store, and only then check the registry. */
    method StartUp(start: Start) returns (ok: bool)
      modifies this
      ensures (templates, ok) == StartedUp(old(templates), start)
    {
      hide Loadable, Loaded, GoodSet, Stored, AllCovered, Fails;
      var wfs, err := LoadFiles(start.files);
      if err.Some? { return false; }
      LoadableWorkflows(start.files);
      SameWorkflows(start.files, wfs);
      var stored := StoreAll(wfs, start.writes);
      if !stored { return false; }
      var missing := ValidateServices(start.registry, wfs);
      return missing.None?;
    }
  }

  lemma SameWorkflows(files: seq<File>, wfs: seq<Workflow>)
    requires Loaded(files, wfs) && forall k | 0 <= k < |files| :: files[k].content.Parsed?
    ensures wfs == Workflows(files)
  {
    assert forall k | 0 <= k < |files| :: files[k].content == Parsed(wfs[k]);
  }

  /* ---- what every stored template is ---- */

  /** Every template is stored under its own name and is valid. */
  ghost predicate AllValid(templates: map<string, Workflow>) {
    forall x | x in templates :: templates[x].name == x && ValidWorkflow(templates[x])
  }

  /** A start-up, whether it succeeds or not, forgets no template and changes none that its files do not name. */
  lemma StartUpKeeps(templates: map<string, Workflow>, start: Start)
    requires AllValid(templates)
    ensures var (after, ok) := StartedUp(templates, start);
            && AllValid(after) && templates.Keys <= after.Keys
            && forall x | x in templates && after[x] != templates[x] ::
                 exists k :: 0 <= k < |start.files| && start.files[k].content == Parsed(after[x])
  {
    if Loadable(start.files) {
      LoadableWorkflows(start.files);
      var wfs := Workflows(start.files);
      var some := wfs[..Least(start.writes, |wfs|)];
      StoredExactly(templates, some);
      hide Stored, ValidWorkflow;
      var after := StartedUp(templates, start).0;
      forall x | x in NamesOf(some)
        ensures x in after && after[x].name == x && ValidWorkflow(after[x])
        ensures exists k :: 0 <= k < |start.files| && start.files[k].content == Parsed(after[x])
      {
        var k :| 0 <= k < |some| && some[k].name == x;
        assert some[k] == wfs[k] && after[x] == wfs[k] && start.files[k].content == Parsed(wfs[k]);
      }
    }
  }

  /** The templates after a history of start-ups, of one Redis that nothing else writes to. */
  ghost function AfterStartUps(starts: seq<Start>): map<string, Workflow> {
    if starts == [] then map[] else StartedUp(AfterStartUps(starts[..|starts| - 1]), starts[|starts| - 1]).0
  }

  lemma {:induction false} StoredTemplatesValid(starts: seq<Start>)
    ensures AllValid(AfterStartUps(starts))
  {
    if starts != [] {
      StoredTemplatesValid(starts[..|starts| - 1]);
      StartUpKeeps(AfterStartUps(starts[..|starts| - 1]), starts[|starts| - 1]);
    }
  }

  /**
   Whatever start-ups a Redis has seen, failed ones included: an instance can be started from every stored
   template in every state, under all the invariants; and in no run is a webhook of such an instance
   dropped, if and only if the registry has a failure URL for every publisher of the template.
   */
  lemma StoredTemplatesStart(starts: seq<Start>, name: string, services: seq<Service>)
    requires name in AfterStartUps(starts) && E.Fits(AfterStartUps(starts)[name].tasks)
    ensures var wf := AfterStartUps(starts)[name];
            && wf.name == name
            && (forall w: Workers.World, id, now | id !in w.sys.db.docs ::
                  Workers.WEnabled(w, Workers.Core(E.Start(id, wf, now))))
            && (R.NeverDropped(RegistryOf(services), wf)
                <==> forall i | 0 <= i < |wf.tasks| :: HasUrl(services, wf.tasks[i].publisher))
  {
    StoredTemplatesValid(starts);
    var wf := AfterStartUps(starts)[name];
    assert S.Valid(wf);
    hide S.Valid, AfterStartUps, ValidSpecs, R.NeverDropped, Workers.Registered, RegistryOf;
    R.NeverDroppedIffRegistered(RegistryOf(services), wf);
    RegisteredIffUrls(services, wf.tasks);
    forall w: Workers.World, id, now | id !in w.sys.db.docs
      ensures Workers.WEnabled(w, Workers.Core(E.Start(id, wf, now)))
    {
      StartEnabled(w, id, wf, now);
    }
  }

  lemma RegisteredIffUrls(services: seq<Service>, tasks: seq<TaskSpec>)
    ensures Workers.Registered(RegistryOf(services), tasks)
            <==> forall i | 0 <= i < |tasks| :: HasUrl(services, tasks[i].publisher)
  {
    hide HasUrl, Workers.UrlOf, RegistryOf;
    forall i | 0 <= i < |tasks|
      ensures HasUrl(services, tasks[i].publisher) <==> Workers.UrlOf(RegistryOf(services), tasks[i].publisher) != ""
    {
      RegistryHoldsEntries(services, tasks[i].publisher);
    }
  }

  lemma StartEnabled(w: Workers.World, id: Id, wf: Workflow, now: int)
    requires S.Valid(wf) && id !in w.sys.db.docs
    ensures Workers.WEnabled(w, Workers.Core(E.Start(id, wf, now)))
  {
    hide ValidSpecs, E.Fits;
  }

  /** A start-up that goes on to serve stored all of its workflows, and none of their webhooks is ever dropped. */
  lemma ServedWorkflowsAreSafe(templates: map<string, Workflow>, start: Start, k: nat)
    requires StartedUp(templates, start).1 && k < |start.files|
    ensures start.files[k].content.Parsed?
    ensures var wf := start.files[k].content.wf;
            && wf.name in StartedUp(templates, start).0 && StartedUp(templates, start).0[wf.name] == wf
            && (start.registry.Some? && E.Fits(wf.tasks) ==> R.NeverDropped(RegistryOf(start.registry.value), wf))
  {
    LoadableWorkflows(start.files);
    var wfs := Workflows(start.files);
    assert wfs[..|wfs|] == wfs;
    StoredExactly(templates, wfs);
    var wf := wfs[k];
    assert start.files[k].content == Parsed(wf);
    assert ValidWorkflow(wf) && Covered(start.registry, wf.tasks, |wf.tasks|);
    if start.registry.Some? && E.Fits(wf.tasks) {
      hide R.NeverDropped, ValidSpecs, RegistryOf, Workers.UrlOf, HasUrl;
      RegisteredIffUrls(start.registry.value, wf.tasks);
      assert S.Valid(wf);
      R.NeverDroppedIffRegistered(RegistryOf(start.registry.value), wf);
    }
  }

  /**
   Templates are stored before the registry is checked and are never removed. For every valid workflow
   with a publisher that has no failure URL: a start-up that finds it refuses to serve but leaves it stored; a
   later start-up without its file succeeds; and there is a run, from a start of the stored template, after
   which a task is FAILED and its webhook is neither queued, delivered nor given up.
   */
  lemma TwoStartUps(templates: map<string, Workflow>, wf: Workflow, i: nat, services: seq<Service>,
                    files: seq<File>, id: Id, lease: nat, now: int)
    returns (steps: seq<Workers.Step>)
    requires ValidWorkflow(wf) && E.Fits(wf.tasks) && i < |wf.tasks|
    requires !HasUrl(services, wf.tasks[i].publisher)
    requires StartedUp(templates, Start(files, Some(services), |files|)).1
    requires forall k | 0 <= k < |files| :: files[k].content.Parsed? ==> files[k].content.wf.name != wf.name
    ensures var (t1, ok1) := StartedUp(templates, Start([File("w.json", Parsed(wf))], Some(services), 1));
            var (t2, ok2) := StartedUp(t1, Start(files, Some(services), |files|));
            !ok1 && ok2 && wf.name in t2 && t2[wf.name] == wf
    ensures Workers.WIsRun(Workers.WorldInit(RegistryOf(services)), steps)
    ensures var w := Workers.WAfter(Workers.WorldInit(RegistryOf(services)), steps);
            && id in w.sys.db.docs && Specs(w.sys.db.docs[id].tasks) == wf.tasks
            && R.Lost(w, TaskMember(id, i))
  {
    hide Workers.WIsRun, Workers.WAfter, R.Lost, ValidSpecs, RegistryOf, Workers.UrlOf, HasUrl;
    RegistryHoldsEntries(services, wf.tasks[i].publisher);
    assert S.Valid(wf);
    steps := R.UncoveredIsLost(RegistryOf(services), id, wf, i, lease, now);
    RefusedButStored(templates, wf, i, services);
    var t1 := StartedUp(templates, Start([File("w.json", Parsed(wf))], Some(services), 1)).0;
    LeftoverStays(templates, t1, wf, services, files);
  }

  lemma RefusedButStored(templates: map<string, Workflow>, wf: Workflow, i: nat, services: seq<Service>)
    requires ValidWorkflow(wf) && i < |wf.tasks|
    requires !HasUrl(services, wf.tasks[i].publisher)
    ensures StartedUp(templates, Start([File("w.json", Parsed(wf))], Some(services), 1))
            == (templates[wf.name := wf], false)
  {
    hide ValidWorkflow, HasUrl;
    var files := [File("w.json", Parsed(wf))];
    assert Loaded(files, [wf]) && GoodSet([wf]);
    LoadableWorkflows(files);
    SameWorkflows(files, [wf]);
    assert [wf][..1] == [wf] && [wf][..0] == [];
    assert Stored(templates, [wf]) == templates[wf.name := wf];
    assert !Covered(Some(services), wf.tasks, |wf.tasks|);
    assert !AllCovered(Some(services), [wf], 1) by { assert [wf][0] == wf; }
  }

  lemma LeftoverStays(templates: map<string, Workflow>, t1: map<string, Workflow>, wf: Workflow,
                      services: seq<Service>, files: seq<File>)
    requires StartedUp(templates, Start(files, Some(services), |files|)).1
    requires forall k | 0 <= k < |files| :: files[k].content.Parsed? ==> files[k].content.wf.name != wf.name
    requires wf.name in t1 && t1[wf.name] == wf
    ensures var (t2, ok2) := StartedUp(t1, Start(files, Some(services), |files|));
            ok2 && wf.name in t2 && t2[wf.name] == wf
  {
    hide AllCovered;
    LoadableWorkflows(files);
    var wfs := Workflows(files);
    assert forall k | 0 <= k < |files| :: files[k].content == Parsed(wfs[k]);
    assert wfs[..|wfs|] == wfs;
    StoredExactly(t1, wfs);
  }
}
