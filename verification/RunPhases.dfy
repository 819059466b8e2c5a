/** Phases of a WorkflowRun, api/v1alpha1/workflowrun_types.go, and counting the active ones. */
module RunPhases {

  datatype Phase = Empty | Pending | Running | Succeeded | Failed {
    /** Created and not yet reconciled counts as active. */
    predicate IsActive() { Empty? || Pending? || Running? }
    predicate IsTerminal() { Succeeded? || Failed? }
  }

  /** A run is active until it has succeeded or failed. */
  lemma ActiveUntilTerminal(p: Phase)
    ensures p.IsTerminal() <==> p in {Succeeded, Failed}
    ensures p.IsActive() <==> !p.IsTerminal()
  {
  }

  /** One run of the workflow; `cron` is the trigger label. */
  datatype Run = Run(phase: Phase, cron: bool)
  type Runs = map<string, Run>

  ghost function Active(runs: Runs): set<string> {
    set name | name in runs && runs[name].phase.IsActive()
  }

  ghost function ActiveCron(runs: Runs): set<string> {
    set name | name in runs && runs[name].phase.IsActive() && runs[name].cron
  }

  /** What controllers may do to runs at any time: phases move on, a terminal phase is final, finished
      runs are deleted. Nothing is created. */
  ghost predicate Progress(before: Runs, after: Runs) {
    forall name :: name in after ==>
      && name in before && after[name].cron == before[name].cron
      && (before[name].phase.IsTerminal() ==> after[name].phase == before[name].phase)
  }

  lemma ProgressShrinks(before: Runs, after: Runs)
    requires Progress(before, after)
    ensures Active(after) <= Active(before) && ActiveCron(after) <= ActiveCron(before)
  {
  }

  lemma SubsetCard<T>(a: set<T>, b: set<T>)
    requires a <= b
    ensures |a| <= |b|
  {
    assert b == a + (b - a);
  }
}
