/** internal/workflow/controller/secret_needs_creds.go: the early-exit walk that decides whether a
    Workflow needs the agent-executor, and whether it must be given a Nirmata token. */
module AgentNeeds {
  import opened Wrappers
  import opened Cluster
  import opened Reachability
  import opened WalkState

  const NIRMATA_MODEL_PROVIDER := "nirmata"

  /** The provider names for which the agent-executor demands a token. */
  predicate NeedsToken(agent: Agent) {
    agent.modelProvider == "" || agent.modelProvider == NIRMATA_MODEL_PROVIDER
  }

  /** Does the body's own agentRef count? A missing Agent counts only when presence is all that is asked. */
  predicate Matches(store: Store, mode: Mode, b: LeafStep, ns: string) {
    && b.agentRef.Some?
    && (mode.MustRun? ==>
          Found(store.agents, b.agentRef.value.In(ns)) && NeedsToken(store.agents[b.agentRef.value.In(ns)].spec))
  }

  ghost predicate NoMatch(store: Store, mode: Mode, bodies: set<LeafStep>, ns: string) {
    forall b :: b in bodies ==> !Matches(store, mode, b, ns)
  }

  ghost predicate MatchBelow(store: Store, mode: Mode, root: Root) {
    exists steps, ns, b :: ContextBelow(store, mode, root, steps, ns)
                        && b in StepsBodies(store, mode, steps, ns) && Matches(store, mode, b, ns)
  }

  ghost predicate MatchReached(store: Store, mode: Mode, root: Root) {
    exists steps, ns, b :: Context(store, mode, root, steps, ns)
                        && b in StepsBodies(store, mode, steps, ns) && Matches(store, mode, b, ns)
  }

  // ---------------------------------------------------------------- what "not found" has seen

  /** The bodies and every Workflow marked since `before` hold no match, and what they name is marked. */
  ghost predicate Clean(store: Store, mode: Mode, root: Root, before: set<NamespacedName>, after: set<NamespacedName>,
                        bodies: set<LeafStep>, ns: string) {
    && Explored(store, mode, root, before, after)
    && Targets(bodies, ns) <= after
    && NoMatch(store, mode, bodies, ns)
    && (forall b, k :: b in bodies && k in BodyReads(store, mode, b, ns) ==> !Faulty(store, mode, root, k))
    && (forall v :: v in after - before ==>
                      NoMatch(store, mode, StepsBodies(store, mode, NodeSteps(store, v), v.ns), v.ns))
  }

  lemma CleanThen(store: Store, mode: Mode, root: Root, a: set<NamespacedName>, b: set<NamespacedName>,
                  c: set<NamespacedName>,
                  bodies1: set<LeafStep>, bodies2: set<LeafStep>, ns: string)
    requires Clean(store, mode, root, a, b, bodies1, ns) && Clean(store, mode, root, b, c, bodies2, ns)
    ensures Clean(store, mode, root, a, c, bodies1 + bodies2, ns)
  {
    hide BodyReads, Faulty, StepsBodies, NoFaults, Matches;
    ExploredTransitive(store, mode, root, a, b, c);
  }

  lemma CleanNothing(store: Store, mode: Mode, root: Root, a: set<NamespacedName>, ns: string)
    ensures Clean(store, mode, root, a, a, {}, ns)
  {
  }

  /** A list of steps walked to the end without a match. */
  ghost predicate StepsClean(store: Store, mode: Mode, root: Root, before: set<NamespacedName>,
                             after: set<NamespacedName>,
                             steps: seq<Step>, ns: string) {
    && Clean(store, mode, root, before, after, StepsBodies(store, mode, steps, ns), ns)
    && NoFaults(store, mode, root, steps, ns)
  }

  ghost predicate StepClean(store: Store, mode: Mode, root: Root, before: set<NamespacedName>,
                            after: set<NamespacedName>,
                            step: Step, ns: string) {
    && Clean(store, mode, root, before, after, Bodies(store, mode, step, ns), ns)
    && (forall k :: k in StepReads(store, mode, step, ns) ==> !Faulty(store, mode, root, k))
  }

  lemma StepsCleanSnoc(store: Store, mode: Mode, root: Root, a: set<NamespacedName>, b: set<NamespacedName>,
                       c: set<NamespacedName>,
                       steps: seq<Step>, i: nat, ns: string)
    requires i < |steps|
    requires StepsClean(store, mode, root, a, b, steps[..i], ns) && StepClean(store, mode, root, b, c, steps[i], ns)
    ensures StepsClean(store, mode, root, a, c, steps[..i + 1], ns)
  {
    hide Bodies, StepReads, Faulty, Clean;
    assert steps[..i + 1] == steps[..i] + [steps[i]];
    assert StepsBodies(store, mode, steps[..i + 1], ns)
        == StepsBodies(store, mode, steps[..i], ns) + Bodies(store, mode, steps[i], ns);
    CleanThen(store, mode, root, a, b, c, StepsBodies(store, mode, steps[..i], ns),
              Bodies(store, mode, steps[i], ns), ns);
  }

  lemma NoStepsClean(store: Store, mode: Mode, root: Root, a: set<NamespacedName>, ns: string)
    ensures StepsClean(store, mode, root, a, a, [], ns)
  {
    assert StepsBodies(store, mode, [], ns) == {};
  }

  /** A body without a match, whose workflowRef is not walked yet. */
  ghost predicate AgentClean(store: Store, mode: Mode, root: Root, b: LeafStep, ns: string) {
    && !Matches(store, mode, b, ns)
    && (b.agentRef.Some? && !mode.AnyAgent? ==> !Faulty(store, mode, root, Read(AgentKind, b.agentRef.value.In(ns))))
  }

  ghost predicate WorkflowClean(store: Store, mode: Mode, root: Root, before: set<NamespacedName>,
                                after: set<NamespacedName>,
                                sub: NamespacedName) {
    && Clean(store, mode, root, before, after, {}, "")
    && sub in after
    && !Faulty(store, mode, root, Read(WorkflowKind, sub))
  }

  lemma BodyClean(store: Store, mode: Mode, root: Root, before: set<NamespacedName>, after: set<NamespacedName>,
                  b: LeafStep, ns: string)
    requires !mode.Collect? && AgentClean(store, mode, root, b, ns)
    requires b.workflowRef.None? ==> before == after
    requires b.workflowRef.Some? ==> WorkflowClean(store, mode, root, before, after, b.workflowRef.value.In(ns))
    ensures Clean(store, mode, root, before, after, {b}, ns)
  {
    hide StepsBodies, Matches, NoFaults, Faulty;
  }

  lemma SubClean(store: Store, mode: Mode, root: Root, before: set<NamespacedName>, after: set<NamespacedName>,
                 sub: NamespacedName)
    requires Found(store.workflows, sub) && sub !in before
    requires StepsClean(store, mode, root, before + {sub}, after, NodeSteps(store, sub), sub.ns)
    ensures WorkflowClean(store, mode, root, before, after, sub)
  {
    hide BodyReads, Matches, StepsBodies, StepsReads;
  }

  lemma TemplateClean(store: Store, mode: Mode, root: Root, step: Step, ns: string, tpl: set<LeafStep>,
                      fe: set<LeafStep>,
                      a: set<NamespacedName>, b: set<NamespacedName>, c: set<NamespacedName>, d: set<NamespacedName>)
    requires !Pruned(mode, step)
    requires tpl == TemplateBody(store, step.stepTemplateRef, ns)
    requires fe == if EntersForEach(mode, step) then ForEachBodies(store, step.forEach.value, ns) else {}
    requires Clean(store, mode, root, a, b, {step.body}, ns)
    requires Clean(store, mode, root, b, c, tpl, ns) && TemplateFound(store, step.stepTemplateRef, ns)
    requires Clean(store, mode, root, c, d, fe, ns)
    requires EntersForEach(mode, step) ==> TemplateFound(store, step.forEach.value.stepTemplateRef, ns)
    ensures StepClean(store, mode, root, a, d, step, ns)
  {
    hide Explored, NoMatch, BodyReads, TemplateBody, ForEachBodies, StepsBodies;
    CleanThen(store, mode, root, a, b, c, {step.body}, tpl, ns);
    CleanThen(store, mode, root, a, c, d, {step.body} + tpl, fe, ns);
    assert Bodies(store, mode, step, ns) == {step.body} + tpl + fe;
  }

  ghost predicate TemplateFound(store: Store, ref: Option<ObjectRef>, ns: string) {
    ref.Some? ==> Found(store.templates, ref.value.In(ns))
  }

  lemma MatchIsBelow(store: Store, mode: Mode, root: Root, visited: set<NamespacedName>, expanded: seq<NamespacedName>,
                     path: seq<NamespacedName>, steps: seq<Step>, ns: string, step: Step, b: LeafStep)
    requires ValidState(store, mode, root, visited, expanded) && AtEnd(store, mode, root, expanded, path, steps, ns)
    requires step in steps && b in Bodies(store, mode, step, ns) && Matches(store, mode, b, ns)
    ensures MatchBelow(store, mode, root)
  {
    hide Bodies, Matches, Found;
    AtEndIsContext(store, mode, root, visited, expanded, path, steps, ns);
    assert b in StepsBodies(store, mode, steps, ns);
  }

  class AgentStepWalker {
    const store: Store
    const mode: Mode  // MustRun is requireNirmataProvider
    ghost const root: Root
    var visited: set<NamespacedName>
    ghost var expanded: seq<NamespacedName>

    constructor (store: Store, mode: Mode, ghost root: Root, key: NamespacedName)
      requires key == root.key && !mode.Collect?
      ensures Valid() && this.store == store && this.mode == mode && this.root == root
      ensures visited == {root.key} && expanded == [] && At([], root.steps, root.ns)
    {
      this.store := store;
      this.mode := mode;
      this.root := root;
      visited := {key};
      expanded := [];
    }

    ghost predicate Valid()
      reads this
    {
      !mode.Collect? && ValidState(store, mode, root, visited, expanded)
    }

    ghost predicate At(path: seq<NamespacedName>, steps: seq<Step>, ns: string)
      reads this
    {
      AtEnd(store, mode, root, expanded, path, steps, ns)
    }

    /** One body belonging to `step`, itself in the steps at the end of `path`. */
    ghost predicate BodyAt(b: LeafStep, path: seq<NamespacedName>, steps: seq<Step>, step: Step, ns: string)
      reads this
    {
      At(path, steps, ns) && step in steps && b in Bodies(store, mode, step, ns)
    }

    method AgentRefNeeds(b: LeafStep, effectiveNs: string,
                         ghost path: seq<NamespacedName>, ghost steps: seq<Step>, ghost step: Step)
      returns (r: Result<bool, WalkError>)
      requires Valid() && BodyAt(b, path, steps, step, effectiveNs) && b.agentRef.Some?
      ensures r == Success(true) ==> MatchBelow(store, mode, root)
      ensures r == Success(false) ==> AgentClean(store, mode, root, b, effectiveNs)
      ensures r.Failure? ==> Justified(store, mode, root, r.error)
    {
      hide ValidState, AtEnd, Bodies, StepReads, Justified, MatchBelow;
      BodyReadsOfStep(store, mode, step, b, effectiveNs);
      if !mode.MustRun? {
        MatchIsBelow(store, mode, root, visited, expanded, path, steps, effectiveNs, step, b);
        return Success(true);
      }
      var key := b.agentRef.value.In(effectiveNs);
      if key !in store.agents {
        return Success(false);
      }
      if store.agents[key].Unavailable? {
        ReadIsJustified(store, mode, root, visited, expanded, path, steps, effectiveNs, step, Read(AgentKind, key));
        return Failure(Unresolved(Read(AgentKind, key)));
      }
      var p := store.agents[key].spec.modelProvider;
      if p == "" || p == NIRMATA_MODEL_PROVIDER {
        MatchIsBelow(store, mode, root, visited, expanded, path, steps, effectiveNs, step, b);
        return Success(true);
      }
      return Success(false);
    }

    method FromWorkflowRef(ref: ObjectRef, effectiveNs: string, depth: nat,
                           ghost path: seq<NamespacedName>, ghost steps: seq<Step>, ghost step: Step)
      returns (r: Result<bool, WalkError>)
      requires Valid() && At(path, steps, effectiveNs) && |path| == depth <= MAX_WORKFLOW_REF_DEPTH
      requires step in steps && Read(WorkflowKind, ref.In(effectiveNs)) in StepReads(store, mode, step, effectiveNs)
      requires ref.In(effectiveNs) in StepsTargets(store, mode, steps, effectiveNs)
      modifies this
      ensures r == Success(true) ==> MatchBelow(store, mode, root)
      ensures r == Success(false) ==> Valid() && old(expanded) <= expanded && old(visited) <= visited
      ensures r == Success(false) ==> WorkflowClean(store, mode, root, old(visited), visited, ref.In(effectiveNs))
      ensures r.Failure? ==> Justified(store, mode, root, r.error)
      decreases store.workflows.Keys - visited, 1
    {
      hide AtEnd, Explored, Clean, StepsClean, StepClean, Justified, MatchBelow, StepReads, StepsTargets, StepsReads,
           NoFaults, IsPath;
      hide Bodies, ReachableBelow, ContextBelow;
      var sub := ref.In(effectiveNs);
      if depth >= MAX_WORKFLOW_REF_DEPTH {
        ChainIsTooDeep(store, mode, root, visited, expanded, path, steps, effectiveNs, sub);
        return Failure(TooDeep);
      }
      if sub in visited {
        CleanNothing(store, mode, root, visited, "");
        return Success(false);
      }
      if !Found(store.workflows, sub) {
        ReadIsJustified(store, mode, root, visited, expanded, path, steps, effectiveNs, step, Read(WorkflowKind, sub));
        visited := visited + {sub};
        return Failure(Unresolved(Read(WorkflowKind, sub)));
      }
      EnterSub(store, mode, root, visited, expanded, path, steps, effectiveNs, sub);
      visited := visited + {sub};
      expanded := expanded + [sub];
      var subSteps := store.workflows[sub].spec.steps;
      ghost var subPath := path + [sub];
      NoStepsClean(store, mode, root, visited, sub.ns);
      assert subSteps[..0] == [];
      for i := 0 to |subSteps|
        invariant Valid() && old(expanded) + [sub] <= expanded && old(visited) + {sub} <= visited
        invariant At(subPath, subSteps, sub.ns)
        invariant StepsClean(store, mode, root, old(visited) + {sub}, visited, subSteps[..i], sub.ns)
      {
        ghost var mid, had := visited, expanded;
        var found :- FromStep(subSteps[i], sub.ns, depth + 1, subPath, subSteps);
        if found { return Success(true); }
        AtEndGrows(store, mode, root, had, expanded, subPath, subSteps, sub.ns);
        StepsCleanSnoc(store, mode, root, old(visited) + {sub}, mid, visited, subSteps, i, sub.ns);
      }
      assert subSteps[..|subSteps|] == subSteps;
      SubClean(store, mode, root, old(visited), visited, sub);
      return Success(false);
    }

    /** The agentRef and workflowRef that a step, a forEach child and a StepTemplate body share. */
    method FromLeafRefs(b: LeafStep, effectiveNs: string, depth: nat,
                        ghost path: seq<NamespacedName>, ghost steps: seq<Step>, ghost step: Step)
      returns (r: Result<bool, WalkError>)
      requires Valid() && BodyAt(b, path, steps, step, effectiveNs) && |path| == depth <= MAX_WORKFLOW_REF_DEPTH
      modifies this
      ensures r == Success(true) ==> MatchBelow(store, mode, root)
      ensures r == Success(false) ==> Valid() && old(expanded) <= expanded && old(visited) <= visited
      ensures r == Success(false) ==> Clean(store, mode, root, old(visited), visited, {b}, effectiveNs)
      ensures r.Failure? ==> Justified(store, mode, root, r.error)
      decreases store.workflows.Keys - visited, 2
    {
      hide ValidState, AtEnd, Clean, Justified, Bodies, StepReads, StepsTargets, Faulty, BodyReads, MatchBelow;
      BodyReadsOfStep(store, mode, step, b, effectiveNs);
      BodyTargetOfStep(store, mode, steps, step, b, effectiveNs);
      if b.agentRef.Some? {
        var found :- AgentRefNeeds(b, effectiveNs, path, steps, step);
        if found { return Success(true); }
      }
      if b.workflowRef.Some? {
        var found :- FromWorkflowRef(b.workflowRef.value, effectiveNs, depth, path, steps, step);
        if found { return Success(true); }
      }
      BodyClean(store, mode, root, old(visited), visited, b, effectiveNs);
      return Success(false);
    }

    method FetchStepTemplateStep(key: NamespacedName) returns (r: Result<LeafStep, WalkError>)
      ensures r.Success? ==> Found(store.templates, key) && r.value == store.templates[key].spec
      ensures r.Failure? ==> !Found(store.templates, key) && r.error == Unresolved(Read(TemplateKind, key))
    {
      if !Found(store.templates, key) {
        return Failure(Unresolved(Read(TemplateKind, key)));
      }
      return Success(store.templates[key].spec);
    }

    /** A StepTemplate is fetched by its own namespace and its body walked under the step's. */
    method FromTemplateRef(ref: ObjectRef, effectiveNs: string, depth: nat,
                           ghost path: seq<NamespacedName>, ghost steps: seq<Step>, ghost step: Step)
      returns (r: Result<bool, WalkError>)
      requires Valid() && At(path, steps, effectiveNs) && |path| == depth <= MAX_WORKFLOW_REF_DEPTH
      requires step in steps && Read(TemplateKind, ref.In(effectiveNs)) in StepReads(store, mode, step, effectiveNs)
      requires TemplateBody(store, Some(ref), effectiveNs) <= Bodies(store, mode, step, effectiveNs)
      modifies this
      ensures r == Success(true) ==> MatchBelow(store, mode, root)
      ensures r == Success(false) ==> Valid() && old(expanded) <= expanded && old(visited) <= visited
      ensures r == Success(false) ==> TemplateFound(store, Some(ref), effectiveNs)
      ensures r == Success(false) ==> Clean(store, mode, root, old(visited), visited,
                                            TemplateBody(store, Some(ref), effectiveNs), effectiveNs)
      ensures r.Failure? ==> Justified(store, mode, root, r.error)
      decreases store.workflows.Keys - visited, 3
    {
      hide ValidState, AtEnd, Justified, Clean, Bodies, StepReads, MatchBelow;
      var tplStep := FetchStepTemplateStep(ref.In(effectiveNs));
      if tplStep.Failure? {
        ReadIsJustified(store, mode, root, visited, expanded, path, steps, effectiveNs, step, tplStep.error.read);
        return Failure(tplStep.error);
      }
      r := FromLeafRefs(tplStep.value, effectiveNs, depth, path, steps, step);
    }

    method FromForEach(fe: ForEach, effectiveNs: string, depth: nat,
                       ghost path: seq<NamespacedName>, ghost steps: seq<Step>, ghost step: Step)
      returns (r: Result<bool, WalkError>)
      requires Valid() && At(path, steps, effectiveNs) && |path| == depth <= MAX_WORKFLOW_REF_DEPTH
      requires step in steps && step.forEach == Some(fe)
      modifies this
      ensures r == Success(true) ==> MatchBelow(store, mode, root)
      ensures r == Success(false) ==> Valid() && old(expanded) <= expanded && old(visited) <= visited
      ensures r == Success(false) && !mode.MustRun? ==> TemplateFound(store, fe.stepTemplateRef, effectiveNs)
      ensures r == Success(false) ==> Clean(store, mode, root, old(visited), visited,
                                            if mode.MustRun? then {} else ForEachBodies(store, fe, effectiveNs),
                                            effectiveNs)
      ensures r.Failure? ==> Justified(store, mode, root, r.error)
      decreases store.workflows.Keys - visited, 4
    {
      hide ValidState, AtEnd, Justified, Clean, MatchBelow, BodyReads;
      CleanNothing(store, mode, root, visited, effectiveNs);
      if mode.MustRun? {
        return Success(false);
      }
      ghost var before, had := visited, expanded;
      if fe.step.Some? {
        var found :- FromLeafRefs(fe.step.value, effectiveNs, depth, path, steps, step);
        if found { return Success(true); }
      }
      AtEndGrows(store, mode, root, had, expanded, path, steps, effectiveNs);
      ghost var inline := if fe.step.Some? then {fe.step.value} else {};
      ghost var mid := visited;
      if fe.stepTemplateRef.Some? {
        var found :- FromTemplateRef(fe.stepTemplateRef.value, effectiveNs, depth, path, steps, step);
        if found { return Success(true); }
        CleanThen(store, mode, root, before, mid, visited, inline, TemplateBody(store, fe.stepTemplateRef, effectiveNs),
                  effectiveNs);
      } else {
        assert ForEachBodies(store, fe, effectiveNs) == inline;
      }
      return Success(false);
    }

    method FromStep(step: Step, effectiveNs: string, depth: nat,
                    ghost path: seq<NamespacedName>, ghost steps: seq<Step>)
      returns (r: Result<bool, WalkError>)
      requires Valid() && At(path, steps, effectiveNs) && |path| == depth <= MAX_WORKFLOW_REF_DEPTH
      requires step in steps
      modifies this
      ensures r == Success(true) ==> MatchBelow(store, mode, root)
      ensures r == Success(false) ==> Valid() && old(expanded) <= expanded && old(visited) <= visited
      ensures r == Success(false) ==> StepClean(store, mode, root, old(visited), visited, step, effectiveNs)
      ensures r.Failure? ==> Justified(store, mode, root, r.error)
      decreases store.workflows.Keys - visited, 5
    {
      hide ValidState, AtEnd, Justified, Clean, MatchBelow, BodyReads, Faulty, Matches;
      CleanNothing(store, mode, root, visited, effectiveNs);
      if mode.MustRun? && StepMayNotRun(step) {
        return Success(false);
      }
      ghost var before, had := visited, expanded;
      var found :- FromLeafRefs(step.body, effectiveNs, depth, path, steps, step);
      if found { return Success(true); }
      ghost var afterBody := visited;
      AtEndGrows(store, mode, root, had, expanded, path, steps, effectiveNs);
      CleanNothing(store, mode, root, visited, effectiveNs);
      if step.stepTemplateRef.Some? {
        found :- FromTemplateRef(step.stepTemplateRef.value, effectiveNs, depth, path, steps, step);
        if found { return Success(true); }
      }
      ghost var afterTpl := visited;
      AtEndGrows(store, mode, root, had, expanded, path, steps, effectiveNs);
      CleanNothing(store, mode, root, visited, effectiveNs);
      if step.forEach.Some? {
        found :- FromForEach(step.forEach.value, effectiveNs, depth, path, steps, step);
        if found { return Success(true); }
      }
      ghost var fe := if EntersForEach(mode, step) then ForEachBodies(store, step.forEach.value, effectiveNs) else {};
      TemplateClean(store, mode, root, step, effectiveNs, TemplateBody(store, step.stepTemplateRef, effectiveNs), fe,
                    before, afterBody, afterTpl, visited);
      return Success(false);
    }
  }

  // ---------------------------------------------------------------- the whole walk

  lemma NotFoundIsExact(store: Store, mode: Mode, root: Root, visited: set<NamespacedName>,
                        expanded: seq<NamespacedName>)
    requires ValidState(store, mode, root, visited, expanded)
    requires StepsClean(store, mode, root, {root.key}, visited, root.steps, root.ns)
    ensures !MatchBelow(store, mode, root) && NoFaultsBelow(store, mode, root)
  {
    hide Matches, Faulty, StepsReads, BodyReads, StepsBodies;
    assert StepsTargets(store, mode, root.steps, root.ns) <= visited;
    ExploredIsReachable(store, mode, root, visited);
  }

  /** Early exit loses nothing: "true" has a witness below the root, and "false" means that every
      reachable read was made and no reachable body matches. */
  method WalkAgentSteps(store: Store, key: NamespacedName, workflow: Workflow, runNs: string,
                        requireNirmataProvider: bool)
    returns (r: Result<bool, WalkError>)
    ensures var root := Root(key, workflow.steps, runNs);
            var mode := if requireNirmataProvider then MustRun else AnyAgent;
            && (r.Success? ==> (r.value <==> MatchBelow(store, mode, root)))
            && (r == Success(false) ==> NoFaultsBelow(store, mode, root))
            && (r.Failure? ==> Justified(store, mode, root, r.error))
  {
    hide ValidState, AtEnd, StepsClean, StepClean, Justified, MatchBelow, NoFaultsBelow;
    var mode := if requireNirmataProvider then MustRun else AnyAgent;
    var steps := workflow.steps;
    ghost var root := Root(key, steps, runNs);
    var w := new AgentStepWalker(store, mode, root, key);
    NoStepsClean(store, mode, root, {key}, runNs);
    assert steps[..0] == [];
    for i := 0 to |steps|
      invariant w.store == store && w.mode == mode && w.root == root && w.Valid() && w.At([], steps, runNs)
      invariant StepsClean(store, mode, root, {key}, w.visited, steps[..i], runNs)
    {
      ghost var mid, had := w.visited, w.expanded;
      var found :- w.FromStep(steps[i], runNs, 0, [], steps);
      if found { return Success(true); }
      AtEndGrows(store, mode, root, had, w.expanded, [], steps, runNs);
      StepsCleanSnoc(store, mode, root, {key}, mid, w.visited, steps, i, runNs);
    }
    assert steps[..|steps|] == steps;
    NotFoundIsExact(store, mode, root, w.visited, w.expanded);
    return Success(false);
  }

  /** Does the runner need the agent-executor's CA? */
  method WorkflowNeedsAgentExecutor(store: Store, key: NamespacedName, workflow: Workflow, runNs: string)
    returns (r: Result<bool, WalkError>)
    ensures var root := Root(key, workflow.steps, runNs);
            && (r.Success? ==> (r.value <==> MatchBelow(store, AnyAgent, root)))
            && (r.Success? && SeesAll(store, AnyAgent, root) ==> (r.value <==> MatchReached(store, AnyAgent, root)))
            && (r.Failure? ==>
                  !NoFaultsBelow(store, AnyAgent, root) || HasDeepChain(store, AnyAgent, root, 10))
  {
    hide MatchBelow, MatchReached, NoFaultsBelow, Justified, SeesAll;
    r := WalkAgentSteps(store, key, workflow, runNs, false);
    WalkResult(store, AnyAgent, Root(key, workflow.steps, runNs), r);
  }

  /** Must the runner be given a Nirmata token? */
  method WorkflowNeedsNirmataLLMCredentials(store: Store, key: NamespacedName, workflow: Workflow, runNs: string)
    returns (r: Result<bool, WalkError>)
    ensures var root := Root(key, workflow.steps, runNs);
            && (r.Success? ==> (r.value <==> MatchBelow(store, MustRun, root)))
            && (r.Success? && SeesAll(store, MustRun, root) ==> (r.value <==> MatchReached(store, MustRun, root)))
            && (r == Success(true) ==> MatchBelow(store, AnyAgent, root))
            && (r.Failure? ==>
                  !NoFaultsBelow(store, MustRun, root) || HasDeepChain(store, MustRun, root, 10))
  {
    hide MatchBelow, MatchReached, NoFaultsBelow, Justified, SeesAll;
    r := WalkAgentSteps(store, key, workflow, runNs, true);
    WalkResult(store, MustRun, Root(key, workflow.steps, runNs), r);
    if r == Success(true) {
      TokenNeedsExecutor(store, Root(key, workflow.steps, runNs));
    }
  }

  lemma WalkResult(store: Store, mode: Mode, root: Root, r: Result<bool, WalkError>)
    ensures r.Failure? && Justified(store, mode, root, r.error)
            ==> !NoFaultsBelow(store, mode, root) || HasDeepChain(store, mode, root, 10)
    ensures SeesAll(store, mode, root) ==> (MatchBelow(store, mode, root) <==> MatchReached(store, mode, root))
  {
    hide MatchBelow, MatchReached, SeesAll, NoFaultsBelow, HasDeepChain;
    if r.Failure? && Justified(store, mode, root, r.error) {
      ErrorsAreFaults(store, mode, root, r.error);
    }
    AnswerIsCompleteIff(store, mode, root);
  }

  // ---------------------------------------------------------------- conditional steps, on their fields

  /** When every step of the root has a match condition or may fail, no token is needed. */
  lemma ConditionalRootNeedsNothing(store: Store, root: Root)
    requires forall s :: s in root.steps ==> s.matchConditions != [] || s.failurePolicy == "Continue"
    ensures !MatchBelow(store, MustRun, root) && NoFaultsBelow(store, MustRun, root)
  {
    assert StepsBodies(store, MustRun, root.steps, root.ns) == {};
    assert StepsTargets(store, MustRun, root.steps, root.ns) == {};
    assert forall p :: !IsPath(store, MustRun, root, p);
    assert forall v :: !ReachableBelow(store, MustRun, root, v);
    assert forall s :: s in root.steps ==> StepReads(store, MustRun, s, root.ns) == {};
    assert StepsReads(store, MustRun, root.steps, root.ns) == {};
  }

  /** A step of the root without condition whose failure counts, calling an Agent whose provider is left
      empty or is "nirmata", does need one. */
  lemma UnconditionalStepNeeds(store: Store, root: Root, s: Step)
    requires s in root.steps && s.matchConditions == [] && s.failurePolicy != "Continue" && s.body.agentRef.Some?
    requires var ref := s.body.agentRef.value;
             var key := NamespacedName(if ref.ns != "" then ref.ns else root.ns, ref.name);
             && key in store.agents && store.agents[key].Object?
             && (store.agents[key].spec.modelProvider == "" || store.agents[key].spec.modelProvider == "nirmata")
    ensures MatchBelow(store, MustRun, root)
  {
    assert s.body in Bodies(store, MustRun, s, root.ns);
    assert s.body in StepsBodies(store, MustRun, root.steps, root.ns);
    assert ContextBelow(store, MustRun, root, root.steps, root.ns);
  }

  // ---------------------------------------------------------------- chains that come back to the root

  /** No chain of workflowRefs comes back to the root, or coming back to it would find no match unless
      there is one anyway. */
  ghost predicate SeesAll(store: Store, mode: Mode, root: Root) {
    || !Reachable(store, mode, root, root.key)
    || (MatchBelow(store, mode, Refetched(store, root)) ==> MatchBelow(store, mode, root))
  }

  lemma MatchesSplit(store: Store, mode: Mode, root: Root)
    ensures MatchReached(store, mode, root)
       <==> || MatchBelow(store, mode, root)
            || (Reachable(store, mode, root, root.key) && MatchBelow(store, mode, Refetched(store, root)))
  {
    hide Context, ContextBelow, Reachable, StepsBodies, Matches, Refetched;
    forall steps, ns { ContextsSplit(store, mode, root, steps, ns); }
    var again := Refetched(store, root);
    if MatchReached(store, mode, root) {
      var steps, ns, b :| Context(store, mode, root, steps, ns)
                       && b in StepsBodies(store, mode, steps, ns) && Matches(store, mode, b, ns);
      assert ContextBelow(store, mode, root, steps, ns) || ContextBelow(store, mode, again, steps, ns);
    }
    if MatchBelow(store, mode, root) {
      var steps, ns, b :| ContextBelow(store, mode, root, steps, ns)
                       && b in StepsBodies(store, mode, steps, ns) && Matches(store, mode, b, ns);
      assert Context(store, mode, root, steps, ns);
    }
    if Reachable(store, mode, root, root.key) && MatchBelow(store, mode, again) {
      var steps, ns, b :| ContextBelow(store, mode, again, steps, ns)
                       && b in StepsBodies(store, mode, steps, ns) && Matches(store, mode, b, ns);
      assert Context(store, mode, root, steps, ns);
    }
  }

  /** The walk's answer speaks of everything reachable exactly under that condition, which a root stored
      and run in its own namespace meets. */
  lemma AnswerIsCompleteIff(store: Store, mode: Mode, root: Root)
    ensures (MatchBelow(store, mode, root) <==> MatchReached(store, mode, root)) <==> SeesAll(store, mode, root)
    ensures RootIsStored(store, root) ==> SeesAll(store, mode, root)
  {
    hide MatchBelow, MatchReached, Reachable;
    MatchesSplit(store, mode, root);
    if RootIsStored(store, root) { assert Refetched(store, root) == root; }
  }

  /** A Workflow that refers to itself by its full name and calls the Agent "a" of whatever namespace it
      runs in. */
  function SelfReferringStep(key: NamespacedName): Step {
    Step("again", LeafStep(None, None, Some(ObjectRef("a", "")), Some(ObjectRef(key.name, key.ns))), None, None, [], "")
  }

  function SelfReferringStore(key: NamespacedName): Store {
    Store(map[key := Object(Workflow([SelfReferringStep(key)]))], map[],
          map[NamespacedName(key.ns, "a") := Object(Agent([], NIRMATA_MODEL_PROVIDER))], map[])
  }

  /** Run from another namespace, the walk answers that this Workflow needs no token although the Agent it
      reaches by coming back to itself needs one. */
  lemma NeedBehindRootIsMissed(key: NamespacedName, ns: string)
    requires key.ns != "" && ns != key.ns
    ensures var store, root := SelfReferringStore(key), Root(key, [SelfReferringStep(key)], ns);
            && MatchReached(store, MustRun, root) && !MatchBelow(store, MustRun, root)
            && NoFaultsBelow(store, MustRun, root)
  {
    hide StepsBodies, StepsTargets, StepsReads, Matches, Found, NodeSteps, Faulty;
    var store, step := SelfReferringStore(key), SelfReferringStep(key);
    var steps := [step];
    var root := Root(key, steps, ns);
    SelfShape(key, ns);
    SelfShape(key, key.ns);
    forall p | IsPath(store, MustRun, root, p) ensures root.key in p {
      assert p[0] in StepsTargets(store, MustRun, root.steps, root.ns);
    }
    assert forall s, n :: ContextBelow(store, MustRun, root, s, n) ==> s == steps && n == ns;
    assert IsPath(store, MustRun, root, [key]) && [key][|[key]| - 1] == key;
    assert Reachable(store, MustRun, root, key);
    assert Context(store, MustRun, root, steps, key.ns);
    assert step.body in StepsBodies(store, MustRun, steps, key.ns);
    SelfReads(key, ns);
  }

  lemma SelfShape(key: NamespacedName, n: string)
    requires key.ns != ""
    ensures var store, step := SelfReferringStore(key), SelfReferringStep(key);
            && StepsBodies(store, MustRun, [step], n) == {step.body} && StepsTargets(store, MustRun, [step], n) == {key}
            && NodeSteps(store, key) == [step] && (Matches(store, MustRun, step.body, n) <==> n == key.ns)
  {
    var store, step := SelfReferringStore(key), SelfReferringStep(key);
    assert Bodies(store, MustRun, step, n) == {step.body};
    assert StepsBodies(store, MustRun, [step], n) == {step.body};
  }

  lemma SelfReads(key: NamespacedName, ns: string)
    requires key.ns != "" && ns != key.ns
    ensures var root := Root(key, [SelfReferringStep(key)], ns);
            NoFaults(SelfReferringStore(key), MustRun, root, root.steps, ns)
  {
    var store, step := SelfReferringStore(key), SelfReferringStep(key);
    var steps := [step];
    var root := Root(key, steps, ns);
    assert Bodies(store, MustRun, step, ns) == {step.body};
    forall k | k in StepsReads(store, MustRun, steps, ns) ensures !Faulty(store, MustRun, root, k) {
      var s :| s in steps && k in StepReads(store, MustRun, s, ns);
      assert s == step;
      assert k in BodyReads(store, MustRun, step.body, ns);
    }
  }

  /** The credentials walk looks at a subset of what the presence walk looks at, and asks for more. */
  lemma TokenNeedsExecutor(store: Store, root: Root)
    requires MatchBelow(store, MustRun, root)
    ensures MatchBelow(store, AnyAgent, root)
  {
    var steps, ns, b :| ContextBelow(store, MustRun, root, steps, ns)
                     && b in StepsBodies(store, MustRun, steps, ns) && Matches(store, MustRun, b, ns);
    MustRunIsSubset(store, steps, ns);
    if !(steps == root.steps && ns == root.ns) {
      var v :| ReachableBelow(store, MustRun, root, v) && NodeSteps(store, v) == steps && v.ns == ns;
      var p: seq<NamespacedName> :| IsPath(store, MustRun, root, p) && p[|p| - 1] == v && root.key !in p;
      MustRunIsSubset(store, root.steps, root.ns);
      forall i | 0 <= i < |p| - 1 ensures p[i + 1] in NodeTargets(store, AnyAgent, p[i]) {
        MustRunIsSubset(store, NodeSteps(store, p[i]), p[i].ns);
      }
      assert IsPath(store, AnyAgent, root, p);
      assert ReachableBelow(store, AnyAgent, root, v);
    }
    assert ContextBelow(store, AnyAgent, root, steps, ns);
  }

  lemma MustRunIsSubset(store: Store, steps: seq<Step>, ns: string)
    ensures StepsBodies(store, MustRun, steps, ns) <= StepsBodies(store, AnyAgent, steps, ns)
    ensures StepsTargets(store, MustRun, steps, ns) <= StepsTargets(store, AnyAgent, steps, ns)
  {
    forall s | s in steps ensures Bodies(store, MustRun, s, ns) <= Bodies(store, AnyAgent, s, ns) {
    }
  }
}
