/** internal/workflow/controller/scheduler.go: the tables of registered cron schedules, and what a fire
    does to the runs of its workflow. */
module Scheduler {
  import opened Wrappers
  import opened RunPhases

  type EntryID = nat

  datatype Policy = Allow | Forbid | Replace
  datatype WorkflowSpec = WorkflowSpec(name: string, maxConcurrentRuns: int)
  datatype CronTrigger = CronTrigger(schedule: string, policy: Policy)

  /** The scheduler's maps and the live entries of the cron engine, each with the key its job fires. */
  datatype Tables = Tables(
    entries: map<string, EntryID>, workflows: map<string, WorkflowSpec>, cronSpecs: map<string, CronTrigger>,
    live: map<EntryID, string>, nextID: EntryID)

  const EMPTY_TABLES := Tables(map[], map[], map[], map[], 0)

  function Unregister(t: Tables, key: string): Tables {
    if key in t.entries then t.(live := Without(t.live, t.entries[key]), entries := Without(t.entries, key)) else t
  }

  /** `parses` is the cron engine's verdict on the schedule. The old entry is gone either way. */
  function Add(t: Tables, key: string, workflow: WorkflowSpec, cronSpec: CronTrigger, parses: bool): Tables {
    var t' := Unregister(t, key);
    if !parses then t'
    else Tables(t'.entries[key := t'.nextID], t'.workflows[key := workflow], t'.cronSpecs[key := cronSpec],
                t'.live[t'.nextID := key], t'.nextID + 1)
  }

  function RemoveKey(t: Tables, key: string): Tables {
    if key in t.entries
    then Unregister(t, key).(workflows := Without(t.workflows, key), cronSpecs := Without(t.cronSpecs, key))
    else t
  }

  /** Live entries and registered keys are in bijection, and every registered key can fire. */
  ghost predicate Consistent(t: Tables) {
    && (forall key :: key in t.entries ==> t.entries[key] in t.live && t.live[t.entries[key]] == key)
    && (forall id :: id in t.live ==> t.live[id] in t.entries && t.entries[t.live[id]] == id)
    && (forall id :: id in t.live ==> id < t.nextID)
    && t.entries.Keys <= t.workflows.Keys && t.workflows.Keys == t.cronSpecs.Keys
  }

  datatype Op = AddOp(key: string, workflow: WorkflowSpec, cronSpec: CronTrigger, parses: bool) | RemoveOp(key: string)

  function Perform(t: Tables, op: Op): Tables {
    match op
    case AddOp(key, workflow, cronSpec, parses) => Add(t, key, workflow, cronSpec, parses)
    case RemoveOp(key) => RemoveKey(t, key)
  }

  function PerformAll(ops: seq<Op>): Tables {
    if ops == [] then EMPTY_TABLES else Perform(PerformAll(ops[..|ops| - 1]), ops[|ops| - 1])
  }

  /** Is `key` registered after `ops`? Its last operation decides. */
  function Registered(ops: seq<Op>, key: string): bool {
    if ops == [] then false
    else
      var last := ops[|ops| - 1];
      if last.key == key then last.AddOp? && last.parses else Registered(ops[..|ops| - 1], key)
  }

  /** The workflow and trigger of the last successful registration. */
  function LastAdded(ops: seq<Op>, key: string): Option<(WorkflowSpec, CronTrigger)> {
    if ops == [] then None
    else
      var last := ops[|ops| - 1];
      if last.key == key && last.AddOp? && last.parses then Some((last.workflow, last.cronSpec))
      else LastAdded(ops[..|ops| - 1], key)
  }

  /** After any operations, failing ones included, exactly the keys whose last operation registered them
      have a live entry, with the workflow and trigger they were last registered with. */
  lemma {:induction false} TablesMatchHistory(ops: seq<Op>)
    ensures Consistent(PerformAll(ops))
    ensures forall key :: key in PerformAll(ops).entries <==> Registered(ops, key)
    ensures forall key :: key in PerformAll(ops).entries ==>
              LastAdded(ops, key) == Some((PerformAll(ops).workflows[key], PerformAll(ops).cronSpecs[key]))
  {
    if ops != [] {
      TablesMatchHistory(ops[..|ops| - 1]);
      var t, op := PerformAll(ops[..|ops| - 1]), ops[|ops| - 1];
      PerformConsistent(t, op);
    }
  }

  lemma PerformConsistent(t: Tables, op: Op)
    requires Consistent(t)
    ensures Consistent(Perform(t, op))
  {
    UnregisterConsistent(t, op.key);
  }

  lemma UnregisterConsistent(t: Tables, key: string)
    requires Consistent(t)
    ensures Consistent(Unregister(t, key)) && key !in Unregister(t, key).entries
  {
  }

  // ---------------------------------------------------------------- fires

  /** The WorkflowRuns of one workflow as the API server stores them. */
  class RunStore {
    var runs: Runs

    constructor ()
      ensures runs == map[]
    {
      runs := map[];
    }

    /** Whatever other controllers did since the last call; the callers know only that it is progress. */
    method Interleave() returns (ghost moved: bool)
      modifies this
      ensures Progress(old(runs), runs)
      ensures !moved ==> runs == old(runs)
    {
      moved := false;
    }

    method List(cronOnly: bool) returns (names: seq<string>)
      ensures forall name :: name in names <==> name in runs && (cronOnly ==> runs[name].cron)
      ensures forall i, j :: 0 <= i < j < |names| ==> names[i] != names[j]
    {
      names := [];
      var rest := runs.Keys;
      while rest != {}
        invariant rest <= runs.Keys
        invariant forall name :: name in names <==> name in runs.Keys - rest && (cronOnly ==> runs[name].cron)
        invariant forall i, j :: 0 <= i < j < |names| ==> names[i] != names[j]
        decreases rest
      {
        var name :| name in rest;
        rest := rest - {name};
        if !cronOnly || runs[name].cron { names := names + [name]; }
      }
    }

    /** A status update that the server accepts only if nobody changed the run since it was listed. */
    method Cancel(name: string, listed: Run, accepted: bool) returns (ok: bool)
      modifies this
      ensures ok <==> accepted && name in old(runs) && old(runs[name]) == listed
      ensures ok ==> runs == old(runs)[name := listed.(phase := Failed)]
      ensures !ok ==> runs == old(runs)
    {
      if accepted && name in runs && runs[name] == listed {
        runs := runs[name := listed.(phase := Failed)];
        return true;
      }
      return false;
    }

    method Create(name: string, accepted: bool) returns (ok: bool)
      modifies this
      ensures ok <==> accepted && name !in old(runs)
      ensures ok ==> runs == old(runs)[name := Run(Empty, true)]
      ensures !ok ==> runs == old(runs)
    {
      if accepted && name !in runs {
        runs := runs[name := Run(Empty, true)];
        return true;
      }
      return false;
    }
  }

  /** Which API calls of a fire are answered (true) and which fail; arbitrary. */
  datatype Faults = Faults(list: bool, cancel: seq<bool>, count: bool, create: bool) {
    predicate None() { list && false !in cancel && count && create }
  }

  method HasActiveWorkflowRun(store: RunStore) returns (active: bool)
    ensures active <==> ActiveCron(store.runs) != {}
  {
    var names := store.List(true);
    for i := 0 to |names|
      invariant forall j :: 0 <= j < i ==> !store.runs[names[j]].phase.IsActive()
    {
      assert names[i] in names;
      if store.runs[names[i]].phase.IsActive() {
        assert names[i] in ActiveCron(store.runs);
        return true;
      }
    }
    return false;
  }

  method CountActiveWorkflowRuns(store: RunStore, skip: seq<string>) returns (count: nat)
    ensures count == |Active(store.runs) - set name | name in skip|
  {
    var names := store.List(false);
    ghost var counted: set<string> := {};
    count := 0;
    for i := 0 to |names|
      invariant counted == set name | name in names[..i] && store.runs[name].phase.IsActive() && name !in skip
      invariant count == |counted|
    {
      assert names[..i + 1] == names[..i] + [names[i]];
      assert names[i] in names && names[i] !in names[..i];
      if store.runs[names[i]].phase.IsActive() && names[i] !in skip {
        counted := counted + {names[i]};
        count := count + 1;
      }
    }
    assert names[..|names|] == names;
    assert counted == Active(store.runs) - set name | name in skip;
  }

  /** The runs with every active cron run failed. */
  function Cleared(runs: Runs): (cleared: Runs)
    ensures cleared.Keys == runs.Keys
  {
    map name | name in runs ::
      if runs[name].cron && runs[name].phase.IsActive() then runs[name].(phase := Failed) else runs[name]
  }

  /** Cancels the cron runs that were active when listed. On success none of them is active any more, and
      only a rejected update or an interfering change makes it fail. */
  method CancelActiveWorkflowRuns(store: RunStore, faults: Faults)
    returns (cancelled: Option<seq<string>>, ghost moved: bool)
    modifies store
    ensures Progress(old(store.runs), store.runs)
    ensures cancelled.Some? ==> ActiveCron(store.runs) == {}
    ensures cancelled.Some? ==> forall name :: name in cancelled.value ==> name !in Active(store.runs)
    ensures !moved && false !in faults.cancel ==> cancelled.Some? && store.runs == Cleared(old(store.runs))
  {
    hide Progress, Active, ActiveCron, Cleared, ClearedOf;
    var names := store.List(true);
    ghost var before := store.runs;
    var listed := store.runs;
    var done := [];
    moved := false;
    ProgressRefl(before);
    assert names[..0] == [];
    ClearedOfCron(before, []);
    for i := 0 to |names|
      invariant Progress(before, store.runs)
      invariant forall j :: 0 <= j < i ==> names[j] !in Active(store.runs)
      invariant forall name :: name in done ==> name !in Active(store.runs)
      invariant !moved ==> store.runs == ClearedOf(before, names[..i])
    {
      assert names[i] in names;
      ghost var mid := store.runs;
      ghost var m := store.Interleave();
      moved := moved || m;
      ProgressTransitive(before, mid, store.runs);
      ProgressShrinks(mid, store.runs);
      if !before[names[i]].phase.IsActive() { InactiveStays(before, store.runs, names[i]); }
      ClearedSnoc(before, names, i);
      if listed[names[i]].phase.IsActive() {
        ghost var had := store.runs;
        var accepted := i < |faults.cancel| ==> faults.cancel[i];
        assert false !in faults.cancel ==> accepted;
        var ok := store.Cancel(names[i], listed[names[i]], accepted);
        if !ok { return None, moved; }
        CancelIsProgress(had, names[i]);
        ProgressTransitive(before, had, store.runs);
        ProgressShrinks(had, store.runs);
        done := done + [names[i]];
      }
    }
    assert names[..|names|] == names;
    ClearedOfCron(before, names);
    NoneActive(before, store.runs, names);
    return Some(done), moved;
  }

  lemma CancelIsProgress(runs: Runs, name: string)
    requires name in runs && runs[name].phase.IsActive()
    ensures Progress(runs, runs[name := runs[name].(phase := Failed)])
    ensures name !in Active(runs[name := runs[name].(phase := Failed)])
  {
  }

  lemma InactiveStays(before: Runs, after: Runs, name: string)
    requires Progress(before, after) && name in before && !before[name].phase.IsActive()
    ensures name !in Active(after)
  {
  }

  lemma NoneActive(before: Runs, after: Runs, names: seq<string>)
    requires Progress(before, after)
    requires forall name :: name in names <==> name in before && before[name].cron
    requires forall name :: name in names ==> name !in Active(after)
    ensures ActiveCron(after) == {}
  {
  }

  lemma ClearedOfCron(runs: Runs, names: seq<string>)
    ensures names == [] ==> ClearedOf(runs, names) == runs
    ensures (forall name :: name in names <==> name in runs && runs[name].cron)
            ==> ClearedOf(runs, names) == Cleared(runs)
  {
  }

  /** The runs after the first few of them were cancelled. */
  ghost function ClearedOf(runs: Runs, names: seq<string>): Runs {
    map name | name in runs ::
      if name in names && runs[name].phase.IsActive() then runs[name].(phase := Failed) else runs[name]
  }

  lemma ClearedSnoc(runs: Runs, names: seq<string>, i: nat)
    requires i < |names| && names[i] in runs && forall j :: 0 <= j < i ==> names[j] != names[i]
    ensures names[i] in ClearedOf(runs, names[..i]) && ClearedOf(runs, names[..i])[names[i]] == runs[names[i]]
    ensures ClearedOf(runs, names[..i + 1])
         == if runs[names[i]].phase.IsActive()
            then ClearedOf(runs, names[..i])[names[i] := runs[names[i]].(phase := Failed)]
            else ClearedOf(runs, names[..i])
  {
    assert names[..i + 1] == names[..i] + [names[i]];
  }

  lemma ProgressTransitive(a: Runs, b: Runs, c: Runs)
    requires Progress(a, b) && Progress(b, c)
    ensures Progress(a, c)
  {
  }

  /** A fire together with everything other controllers do meanwhile: progress, cancellations included,
      and then at most one new run, created from a state `mid` that passed the policy and the limit. */
  ghost predicate Fired(before: Runs, after: Runs, policy: Policy, limit: int, created: bool) {
    if created then exists mid, name :: Creates(before, mid, name, after, policy, limit) else Progress(before, after)
  }

  /** Forbid looks at the runs when the fire begins, Replace and the limit at those it creates the run among. */
  ghost predicate Creates(before: Runs, mid: Runs, name: string, after: Runs, policy: Policy, limit: int) {
    && Progress(before, mid) && name !in mid && after == mid[name := Run(Empty, true)]
    && (policy.Forbid? ==> ActiveCron(before) == {})
    && (policy.Replace? ==> ActiveCron(mid) == {})
    && (limit > 0 ==> |Active(mid)| < limit)
  }

  /** What the concurrency policy makes of the runs before a new one is considered. */
  function AfterPolicy(runs: Runs, policy: Policy): (after: Runs)
    ensures after.Keys == runs.Keys
  {
    if policy.Replace? then Cleared(runs) else runs
  }

  /** Undisturbed, a fire creates a run exactly when the policy and the limit leave room for one. */
  ghost predicate Permits(runs: Runs, policy: Policy, limit: int) {
    && (policy.Forbid? ==> ActiveCron(runs) == {})
    && (limit > 0 ==> |Active(AfterPolicy(runs, policy))| < limit)
  }

  lemma ProgressRefl(runs: Runs)
    ensures Progress(runs, runs)
  {
  }

  lemma OneMore(runs: Runs, name: string)
    requires name !in runs
    ensures var after := runs[name := Run(Empty, true)];
            Active(after) == Active(runs) + {name} && ActiveCron(after) == ActiveCron(runs) + {name}
            && |Active(after)| == |Active(runs)| + 1 && |ActiveCron(after)| == |ActiveCron(runs)| + 1
  {
    var after := runs[name := Run(Empty, true)];
    assert Active(after) == Active(runs) + {name} && ActiveCron(after) == ActiveCron(runs) + {name};
  }

  ghost predicate MayFire(before: Runs, after: Runs, policy: Policy, limit: int) {
    exists created :: Fired(before, after, policy, limit, created)
  }

  /** A history of one workflow's runs: its fires never overlap, and nobody else creates runs. */
  ghost predicate History(states: seq<Runs>, policy: Policy, limit: int) {
    && |states| > 0 && states[0] == map[]
    && forall i :: 0 <= i < |states| - 1 ==> MayFire(states[i], states[i + 1], policy, limit)
  }

  ghost predicate WithinPolicy(runs: Runs, policy: Policy, limit: int) {
    (!policy.Allow? ==> |ActiveCron(runs)| <= 1) && (limit > 0 ==> |Active(runs)| <= limit)
  }

  /** A new run is the only active cron run under Forbid and Replace, and finds room below the limit. */
  lemma CreateKeepsPolicy(before: Runs, mid: Runs, name: string, after: Runs, policy: Policy, limit: int)
    requires Creates(before, mid, name, after, policy, limit)
    ensures WithinPolicy(after, policy, limit)
    ensures !policy.Allow? ==> ActiveCron(after) == {name}
  {
    ProgressShrinks(before, mid);
    OneMore(mid, name);
  }

  lemma ProgressKeepsPolicy(before: Runs, after: Runs, policy: Policy, limit: int)
    requires WithinPolicy(before, policy, limit) && Progress(before, after)
    ensures WithinPolicy(after, policy, limit)
  {
    ProgressShrinks(before, after);
    SubsetCard(Active(after), Active(before));
    SubsetCard(ActiveCron(after), ActiveCron(before));
  }

  /** Forbid and Replace keep at most one active cron run, and no policy exceeds a positive limit. */
  lemma {:induction false} PolicyHolds(states: seq<Runs>, policy: Policy, limit: int, i: nat)
    requires History(states, policy, limit) && i < |states|
    ensures !policy.Allow? ==> |ActiveCron(states[i])| <= 1
    ensures limit > 0 ==> |Active(states[i])| <= limit
  {
    if i == 0 {
      assert Active(map[]) == {} && ActiveCron(map[]) == {};
    } else {
      hide Creates, Progress, Active, ActiveCron;
      PolicyHolds(states, policy, limit, i - 1);
      assert MayFire(states[i - 1], states[i - 1 + 1], policy, limit);
      if Progress(states[i - 1], states[i]) {
        ProgressKeepsPolicy(states[i - 1], states[i], policy, limit);
      } else {
        var mid, name :| Creates(states[i - 1], mid, name, states[i], policy, limit);
        CreateKeepsPolicy(states[i - 1], mid, name, states[i], policy, limit);
      }
    }
  }

  class CronScheduler {
    var entries: map<string, EntryID>
    var workflows: map<string, WorkflowSpec>
    var cronSpecs: map<string, CronTrigger>
    var live: map<EntryID, string>  // the cron engine's entries
    var nextID: EntryID

    constructor ()
      ensures State() == EMPTY_TABLES
    {
      entries, workflows, cronSpecs, live, nextID := map[], map[], map[], map[], 0;
    }

    ghost function State(): Tables
      reads this
    {
      Tables(entries, workflows, cronSpecs, live, nextID)
    }

    /** Registers or replaces a schedule. A schedule that does not parse leaves the key unregistered. */
    method AddSchedule(key: string, workflow: WorkflowSpec, cronSpec: CronTrigger, parses: bool) returns (ok: bool)
      modifies this
      ensures State() == Add(old(State()), key, workflow, cronSpec, parses)
      ensures ok <==> parses
    {
      if key in entries {
        live := Without(live, entries[key]);
        entries := Without(entries, key);
      }
      if !parses { return false; }
      var entryID := nextID;
      live, nextID := live[entryID := key], nextID + 1;
      entries := entries[key := entryID];
      workflows := workflows[key := workflow];
      cronSpecs := cronSpecs[key := cronSpec];
      return true;
    }

    method RemoveSchedule(key: string)
      modifies this
      ensures State() == RemoveKey(old(State()), key)
    {
      if key in entries {
        live := Without(live, entries[key]);
        entries := Without(entries, key);
        workflows := Without(workflows, key);
        cronSpecs := Without(cronSpecs, key);
      }
    }

    method HandleCronFire(key: string, started: bool, store: RunStore, name: string, faults: Faults)
      returns (created: bool, ghost moved: bool)
      modifies store
      ensures key in workflows && key in cronSpecs ==>
        Fired(old(store.runs), store.runs, cronSpecs[key].policy, workflows[key].maxConcurrentRuns, created)
      ensures created ==> key in workflows && key in cronSpecs && started && name in ActiveCron(store.runs)
      ensures !created ==> Progress(old(store.runs), store.runs)
      ensures !moved && faults.None() && key in workflows && key in cronSpecs && started && name !in old(store.runs) ==>
        var cleared := AfterPolicy(old(store.runs), cronSpecs[key].policy);
        && (created <==> Permits(old(store.runs), cronSpecs[key].policy, workflows[key].maxConcurrentRuns))
        && store.runs == if created then cleared[name := Run(Empty, true)] else cleared
    {
      hide Progress, Active, ActiveCron, Cleared, Creates;
      moved := false;
      ProgressRefl(store.runs);
      if key !in workflows || key !in cronSpecs || !started { return false, moved; }
      var workflow, cronSpec := workflows[key], cronSpecs[key];
      ghost var before := store.runs;
      var cancelled: seq<string> := [];
      match cronSpec.policy {
        case Allow =>
        case Forbid =>
          if !faults.list { return false, moved; }
          var hasActive := HasActiveWorkflowRun(store);
          if hasActive { return false, moved; }
        case Replace =>
          if !faults.list { return false, moved; }
          var done, m := CancelActiveWorkflowRuns(store, faults);
          moved := m;
          if done.None? { return false, moved; }
          cancelled := done.value;
      }
      assert cronSpec.policy.Forbid? ==> ActiveCron(before) == {};
      assert !moved && faults.None() ==> store.runs == AfterPolicy(before, cronSpec.policy);
      var admitted, m := Admit(store, workflow.maxConcurrentRuns, cancelled, before, faults);
      moved := moved || m;
      if !admitted { return false, moved; }
      ghost var final := store.runs;
      assert !moved && faults.None() ==> final.Keys == before.Keys;
      created := store.Create(name, faults.create);
      if created {
        FireCreates(before, final, name, cronSpec.policy, workflow.maxConcurrentRuns);
      }
    }
  }

  lemma FireCreates(before: Runs, mid: Runs, name: string, policy: Policy, limit: int)
    requires Progress(before, mid) && name !in mid && (policy.Forbid? ==> ActiveCron(before) == {})
    requires (policy.Replace? ==> ActiveCron(mid) == {}) && (limit > 0 ==> |Active(mid)| < limit)
    ensures Fired(before, mid[name := Run(Empty, true)], policy, limit, true)
    ensures name in ActiveCron(mid[name := Run(Empty, true)])
  {
    assert Creates(before, mid, name, mid[name := Run(Empty, true)], policy, limit);
  }

  /** The tail of handleCronFire up to the create: the maxConcurrentRuns check, with other controllers at
      work before and after it. */
  method Admit(store: RunStore, limit: int, cancelled: seq<string>, ghost before: Runs, faults: Faults)
    returns (admitted: bool, ghost moved: bool)
    requires Progress(before, store.runs) && forall name :: name in cancelled ==> name !in Active(store.runs)
    modifies store
    ensures Progress(before, store.runs) && Progress(old(store.runs), store.runs)
    ensures Active(store.runs) <= Active(old(store.runs)) && ActiveCron(store.runs) <= ActiveCron(old(store.runs))
    ensures admitted && limit > 0 ==> |Active(store.runs)| < limit
    ensures !moved ==> store.runs == old(store.runs)
    ensures !moved && faults.count ==> (admitted <==> (limit > 0 ==> |Active(store.runs)| < limit))
  {
    hide Progress, Active, ActiveCron;
    ghost var checked := store.runs;
    moved := store.Interleave();
    ProgressTransitive(before, checked, store.runs);
    ProgressShrinks(checked, store.runs);
    ghost var counted := store.runs;
    if limit > 0 {
      if !faults.count { return false, moved; }
      var active := CountActiveWorkflowRuns(store, cancelled);
      assert Active(store.runs) - (set n | n in cancelled) == Active(store.runs);
      if active >= limit { return false, moved; }
    }
    ghost var m := store.Interleave();
    moved := moved || m;
    ProgressTransitive(before, counted, store.runs);
    ProgressTransitive(checked, counted, store.runs);
    ProgressShrinks(counted, store.runs);
    SubsetCard(Active(store.runs), Active(counted));
    return true, moved;
  }
}
