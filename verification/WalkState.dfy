/** What the two depth-first walks over workflowRefs (secret_refs.go and secret_needs_creds.go) share:
    the marked Workflows, the chain of workflowRefs being followed, and what an error proves. */
module WalkState {
  import opened Cluster
  import opened Reachability

  const MAX_WORKFLOW_REF_DEPTH := 10

  datatype WalkError = Unresolved(read: Read) | TooDeep

  /** An error names a read that really is needed and cannot be made, or a real chain that is too deep. */
  ghost predicate Justified(store: Store, mode: Mode, root: Root, e: WalkError) {
    match e
    case Unresolved(k) =>
      && Faulty(store, mode, root, k)
      && exists steps, ns :: ContextBelow(store, mode, root, steps, ns) && k in StepsReads(store, mode, steps, ns)
    case TooDeep => HasDeepChain(store, mode, root, MAX_WORKFLOW_REF_DEPTH)
  }

  // ---------------------------------------------------------------- the walker's state

  /** Marked Workflows lie below the root, and each was fetched once. */
  ghost predicate ValidState(store: Store, mode: Mode, root: Root, visited: set<NamespacedName>,
                             expanded: seq<NamespacedName>) {
    && visited == {root.key} + (set v | v in expanded)
    && root.key !in expanded
    && (forall i, j :: 0 <= i < j < |expanded| ==> expanded[i] != expanded[j])
    && forall v :: v in expanded ==> Found(store.workflows, v) && ReachableBelow(store, mode, root, v)
  }

  /** `steps` under `ns` are the steps at the end of the chain of workflowRefs `path`. */
  ghost predicate AtEnd(store: Store, mode: Mode, root: Root, expanded: seq<NamespacedName>,
                        path: seq<NamespacedName>, steps: seq<Step>, ns: string) {
    && (forall v :: v in path ==> v in expanded)
    && (forall i, j :: 0 <= i < j < |path| ==> path[i] != path[j])
    && if path == [] then steps == root.steps && ns == root.ns
       else IsPath(store, mode, root, path)
            && steps == NodeSteps(store, path[|path| - 1]) && ns == path[|path| - 1].ns
  }

  lemma AtEndGrows(store: Store, mode: Mode, root: Root, a: seq<NamespacedName>, b: seq<NamespacedName>,
                   path: seq<NamespacedName>, steps: seq<Step>, ns: string)
    requires AtEnd(store, mode, root, a, path, steps, ns) && a <= b
    ensures AtEnd(store, mode, root, b, path, steps, ns)
  {
    forall v | v in path ensures v in b { assert v in a; }
  }

  lemma AtEndIsContext(store: Store, mode: Mode, root: Root, visited: set<NamespacedName>,
                       expanded: seq<NamespacedName>,
                       path: seq<NamespacedName>, steps: seq<Step>, ns: string)
    requires ValidState(store, mode, root, visited, expanded) && AtEnd(store, mode, root, expanded, path, steps, ns)
    ensures ContextBelow(store, mode, root, steps, ns)
  {
    if path != [] { assert ReachableBelow(store, mode, root, path[|path| - 1]); }
  }

  lemma BodyReadsOfStep(store: Store, mode: Mode, step: Step, b: LeafStep, ns: string)
    requires b in Bodies(store, mode, step, ns)
    ensures BodyReads(store, mode, b, ns) <= StepReads(store, mode, step, ns)
    ensures b.workflowRef.Some? ==> Read(WorkflowKind, b.workflowRef.value.In(ns)) in StepReads(store, mode, step, ns)
    ensures b.agentRef.Some? && !mode.AnyAgent?
            ==> Read(AgentKind, b.agentRef.value.In(ns)) in StepReads(store, mode, step, ns)
  {
    var needed := BodyReads(store, mode, b, ns);
    assert b.workflowRef.Some? ==> Read(WorkflowKind, b.workflowRef.value.In(ns)) in needed;
    assert b.agentRef.Some? && !mode.AnyAgent? ==> Read(AgentKind, b.agentRef.value.In(ns)) in needed;
    assert needed <= StepReads(store, mode, step, ns) by { hide BodyReads; }
  }

  lemma BodyTargetOfStep(store: Store, mode: Mode, steps: seq<Step>, step: Step, b: LeafStep, ns: string)
    requires step in steps && b in Bodies(store, mode, step, ns)
    ensures b.workflowRef.Some? ==> b.workflowRef.value.In(ns) in StepsTargets(store, mode, steps, ns)
  {
    hide Bodies;
    assert b in StepsBodies(store, mode, steps, ns);
  }

  lemma ReadIsJustified(store: Store, mode: Mode, root: Root, visited: set<NamespacedName>,
                        expanded: seq<NamespacedName>,
                        path: seq<NamespacedName>, steps: seq<Step>, ns: string, step: Step, k: Read)
    requires ValidState(store, mode, root, visited, expanded) && AtEnd(store, mode, root, expanded, path, steps, ns)
    requires step in steps && k in StepReads(store, mode, step, ns) && Faulty(store, mode, root, k)
    ensures Justified(store, mode, root, Unresolved(k))
  {
    hide Faulty, StepReads, Found;
    assert k in StepsReads(store, mode, steps, ns);
    AtEndIsContext(store, mode, root, visited, expanded, path, steps, ns);
  }

  lemma ChainIsTooDeep(store: Store, mode: Mode, root: Root, visited: set<NamespacedName>,
                       expanded: seq<NamespacedName>,
                       path: seq<NamespacedName>, steps: seq<Step>, ns: string, sub: NamespacedName)
    requires ValidState(store, mode, root, visited, expanded) && AtEnd(store, mode, root, expanded, path, steps, ns)
    requires sub in StepsTargets(store, mode, steps, ns) && |path| == MAX_WORKFLOW_REF_DEPTH
    ensures Justified(store, mode, root, TooDeep)
  {
    PathExtends(store, mode, root, path, sub);
    assert (path + [sub])[..|path|] == path;
    assert IsDeepChain(root, path + [sub], |path|);
  }

  lemma EnterSub(store: Store, mode: Mode, root: Root, visited: set<NamespacedName>, expanded: seq<NamespacedName>,
                 path: seq<NamespacedName>, steps: seq<Step>, ns: string, sub: NamespacedName)
    requires ValidState(store, mode, root, visited, expanded) && AtEnd(store, mode, root, expanded, path, steps, ns)
    requires sub in StepsTargets(store, mode, steps, ns) && sub !in visited && Found(store.workflows, sub)
    ensures ValidState(store, mode, root, visited + {sub}, expanded + [sub])
    ensures AtEnd(store, mode, root, expanded + [sub], path + [sub], NodeSteps(store, sub), sub.ns)
  {
    hide StepsTargets, Found;
    PathExtends(store, mode, root, path, sub);
    assert root.key !in path + [sub];
    assert ReachableBelow(store, mode, root, sub);
    assert sub !in path;
  }

  ghost predicate NoFaultsBelow(store: Store, mode: Mode, root: Root) {
    forall steps, ns :: ContextBelow(store, mode, root, steps, ns) ==> NoFaults(store, mode, root, steps, ns)
  }

  /** A justified error never appears on a cluster whose reachable reads can all be made, unless a
      chain of more than ten different Workflows exists. */
  lemma ErrorsAreFaults(store: Store, mode: Mode, root: Root, e: WalkError)
    requires Justified(store, mode, root, e)
    ensures !NoFaultsBelow(store, mode, root) || HasDeepChain(store, mode, root, 10)
  {
    if e.Unresolved? {
      var steps, ns :| ContextBelow(store, mode, root, steps, ns) && e.read in StepsReads(store, mode, steps, ns);
      assert !NoFaults(store, mode, root, steps, ns);
    }
  }
}
