/** What a Workflow reaches, defined by paths and independently of any walk: the contexts (a list of
    steps with the namespace their references default to) at the end of chains of workflowRefs. */
module Reachability {
  import opened Wrappers
  import opened Cluster

  /** The three walks: secret collection, "is there an AgentRef", and "is there an AgentRef that must
      run and needs a Nirmata token". */
  datatype Mode = Collect | AnyAgent | MustRun

  /** The Workflow a walk starts from. Its steps are walked under the run's namespace `ns`, while
      `key` names it under its own. */
  datatype Root = Root(key: NamespacedName, steps: seq<Step>, ns: string)

  datatype Kind = WorkflowKind | TemplateKind | AgentKind | ServerKind
  datatype Read = Read(kind: Kind, key: NamespacedName)

  const FAILURE_POLICY_CONTINUE := "Continue"

  predicate StepMayNotRun(step: Step) {
    |step.matchConditions| > 0 || step.failurePolicy == FAILURE_POLICY_CONTINUE
  }

  predicate Pruned(mode: Mode, step: Step) {
    mode.MustRun? && StepMayNotRun(step)
  }

  predicate EntersForEach(mode: Mode, step: Step) {
    !mode.MustRun? && step.forEach.Some?
  }

  // ---------------------------------------------------------------- one step

  ghost function TemplateBody(store: Store, ref: Option<ObjectRef>, ns: string): set<LeafStep> {
    if ref.Some? && Found(store.templates, ref.value.In(ns))
    then {store.templates[ref.value.In(ns)].spec} else {}
  }

  ghost function ForEachBodies(store: Store, fe: ForEach, ns: string): set<LeafStep> {
    (if fe.step.Some? then {fe.step.value} else {}) + TemplateBody(store, fe.stepTemplateRef, ns)
  }

  /** The bodies a step stands for. A StepTemplate is fetched by its own namespace but its body runs
      under the referencing step's, so all of them share `ns`. */
  ghost function Bodies(store: Store, mode: Mode, step: Step, ns: string): set<LeafStep> {
    if Pruned(mode, step) then {} else
    {step.body} + TemplateBody(store, step.stepTemplateRef, ns) +
    (if EntersForEach(mode, step) then ForEachBodies(store, step.forEach.value, ns) else {})
  }

  ghost function Targets(bodies: set<LeafStep>, ns: string): set<NamespacedName> {
    set b | b in bodies && b.workflowRef.Some? :: b.workflowRef.value.In(ns)
  }

  ghost function TemplateReads(ref: Option<ObjectRef>, ns: string): set<Read> {
    if ref.Some? then {Read(TemplateKind, ref.value.In(ns))} else {}
  }

  /** `server:tool` entries name a server; blank ones are skipped. */
  predicate IsSpace(c: char) {
    || c == ' ' || '\t' <= c <= '\r' || c == '\U{85}' || c == '\U{A0}' || c == '\U{1680}'
    || '\U{2000}' <= c <= '\U{200A}'
    || c == '\U{2028}' || c == '\U{2029}' || c == '\U{202F}' || c == '\U{205F}' || c == '\U{3000}'
  }

  function TrimSpace(s: string): string {
    if |s| > 0 && IsSpace(s[0]) then TrimSpace(s[1..])
    else if |s| > 0 && IsSpace(s[|s| - 1]) then TrimSpace(s[..|s| - 1])
    else s
  }

  function Before(s: string, c: char): string {
    if s == "" || s[0] == c then "" else [s[0]] + Before(s[1..], c)
  }

  function ServerOf(toolRef: string): string {
    Before(TrimSpace(toolRef), ':')
  }

  ghost function AgentServers(agent: Agent, ns: string): set<NamespacedName> {
    set t | t in agent.mcpTools && ServerOf(t) != "" :: NamespacedName(ns, ServerOf(t))
  }

  ghost function ServerReads(servers: set<NamespacedName>): set<Read> {
    set k | k in servers :: Read(ServerKind, k)
  }

  /** The objects a walk fetches for one body. */
  ghost function BodyReads(store: Store, mode: Mode, b: LeafStep, ns: string): set<Read> {
    (if b.workflowRef.Some? then {Read(WorkflowKind, b.workflowRef.value.In(ns))} else {}) +
    (if b.agentRef.Some? && !mode.AnyAgent? then {Read(AgentKind, b.agentRef.value.In(ns))} else {}) +
    (if mode.Collect? && b.mcpToolCall.Some? && b.mcpToolCall.value != ""
     then {Read(ServerKind, NamespacedName(ns, b.mcpToolCall.value))} else {}) +
    (if mode.Collect? && b.agentRef.Some? && Found(store.agents, b.agentRef.value.In(ns))
     then ServerReads(AgentServers(store.agents[b.agentRef.value.In(ns)].spec, b.agentRef.value.In(ns).ns)) else {})
  }

  ghost function StepReads(store: Store, mode: Mode, step: Step, ns: string): set<Read> {
    if Pruned(mode, step) then {} else
    TemplateReads(step.stepTemplateRef, ns) +
    (if EntersForEach(mode, step) then TemplateReads(step.forEach.value.stepTemplateRef, ns) else {}) +
    (set b, k | b in Bodies(store, mode, step, ns) && k in BodyReads(store, mode, b, ns) :: k)
  }

  /** A read that aborts the walk. A reference back to the root is never fetched, and only the
      credentials walk forgives a missing Agent. */
  ghost predicate Faulty(store: Store, mode: Mode, root: Root, k: Read) {
    match k.kind
    case WorkflowKind => k.key != root.key && !Found(store.workflows, k.key)
    case TemplateKind => !Found(store.templates, k.key)
    case ServerKind => !Found(store.servers, k.key)
    case AgentKind => if mode.MustRun? then k.key in store.agents && !Found(store.agents, k.key)
                      else !Found(store.agents, k.key)
  }

  // ---------------------------------------------------------------- lists of steps

  ghost function StepsBodies(store: Store, mode: Mode, steps: seq<Step>, ns: string): set<LeafStep> {
    set s, b | s in steps && b in Bodies(store, mode, s, ns) :: b
  }

  ghost function StepsReads(store: Store, mode: Mode, steps: seq<Step>, ns: string): set<Read> {
    set s, k | s in steps && k in StepReads(store, mode, s, ns) :: k
  }

  ghost function StepsTargets(store: Store, mode: Mode, steps: seq<Step>, ns: string): set<NamespacedName> {
    Targets(StepsBodies(store, mode, steps, ns), ns)
  }

  /** The steps of a stored Workflow; none when it cannot be fetched. */
  ghost function NodeSteps(store: Store, v: NamespacedName): seq<Step> {
    if Found(store.workflows, v) then store.workflows[v].spec.steps else []
  }

  ghost function NodeTargets(store: Store, mode: Mode, v: NamespacedName): set<NamespacedName> {
    StepsTargets(store, mode, NodeSteps(store, v), v.ns)
  }

  // ---------------------------------------------------------------- reachability

  /** A chain of workflowRefs starting in the root's steps. */
  ghost predicate IsPath(store: Store, mode: Mode, root: Root, p: seq<NamespacedName>) {
    && |p| > 0
    && p[0] in StepsTargets(store, mode, root.steps, root.ns)
    && forall i :: 0 <= i < |p| - 1 ==> p[i + 1] in NodeTargets(store, mode, p[i])
  }

  ghost predicate Reachable(store: Store, mode: Mode, root: Root, v: NamespacedName) {
    exists p :: IsPath(store, mode, root, p) && p[|p| - 1] == v
  }

  /** Reachable by a chain that never passes through the root's own name. */
  ghost predicate ReachableBelow(store: Store, mode: Mode, root: Root, v: NamespacedName) {
    exists p :: IsPath(store, mode, root, p) && p[|p| - 1] == v && root.key !in p
  }

  /** The steps and namespace of the root, or of a Workflow reached below it. */
  ghost predicate ContextBelow(store: Store, mode: Mode, root: Root, steps: seq<Step>, ns: string) {
    || (steps == root.steps && ns == root.ns)
    || exists v :: ReachableBelow(store, mode, root, v) && NodeSteps(store, v) == steps && v.ns == ns
  }

  /** The steps and namespace of the root, or of any Workflow it reaches, itself included. */
  ghost predicate Context(store: Store, mode: Mode, root: Root, steps: seq<Step>, ns: string) {
    || (steps == root.steps && ns == root.ns)
    || exists v :: Reachable(store, mode, root, v) && NodeSteps(store, v) == steps && v.ns == ns
  }

  /** A chain of `depth` workflowRefs to different Workflows, none of them the root, the last of
      which holds yet another workflowRef. */
  ghost predicate HasDeepChain(store: Store, mode: Mode, root: Root, depth: nat) {
    exists p :: IsPath(store, mode, root, p) && IsDeepChain(root, p, depth)
  }

  ghost predicate IsDeepChain(root: Root, p: seq<NamespacedName>, depth: nat) {
    && |p| == depth + 1
    && root.key !in p[..depth]
    && forall i, j :: 0 <= i < j < depth ==> p[i] != p[j]
  }

  /** The root is stored as it was given, and the run lives in the Workflow's own namespace. */
  ghost predicate RootIsStored(store: Store, root: Root) {
    && root.ns == root.key.ns
    && root.key in store.workflows
    && store.workflows[root.key] == Object(Workflow(root.steps))
  }

  // ---------------------------------------------------------------- what a finished walk knows

  /** Every Workflow marked after `before` was fetched, its own references are marked, and none of
      its reads is faulty. Workflows marked earlier may still be in progress up the call stack. */
  ghost predicate Explored(store: Store, mode: Mode, root: Root, before: set<NamespacedName>,
                           after: set<NamespacedName>) {
    && before <= after
    && forall v :: v in after - before ==>
         && Found(store.workflows, v)
         && NodeTargets(store, mode, v) <= after
         && NoFaults(store, mode, root, NodeSteps(store, v), v.ns)
  }

  ghost predicate NoFaults(store: Store, mode: Mode, root: Root, steps: seq<Step>, ns: string) {
    forall k :: k in StepsReads(store, mode, steps, ns) ==> !Faulty(store, mode, root, k)
  }

  lemma ExploredTransitive(store: Store, mode: Mode, root: Root,
                           a: set<NamespacedName>, b: set<NamespacedName>, c: set<NamespacedName>)
    requires Explored(store, mode, root, a, b) && Explored(store, mode, root, b, c)
    ensures Explored(store, mode, root, a, c)
  {
  }

  /** A walk that finished has marked exactly the Workflows below the root. */
  lemma ExploredIsReachable(store: Store, mode: Mode, root: Root, visited: set<NamespacedName>)
    requires Explored(store, mode, root, {root.key}, visited)
    requires StepsTargets(store, mode, root.steps, root.ns) <= visited
    requires forall v :: v in visited ==> v == root.key || ReachableBelow(store, mode, root, v)
    ensures forall v :: v in visited - {root.key} <==> ReachableBelow(store, mode, root, v)
  {
    forall v | ReachableBelow(store, mode, root, v) ensures v in visited - {root.key} {
      var p :| IsPath(store, mode, root, p) && p[|p| - 1] == v && root.key !in p;
      PathStaysIn(store, mode, root, visited, p);
    }
  }

  lemma {:induction false} PathStaysIn(store: Store, mode: Mode, root: Root, visited: set<NamespacedName>,
                                       p: seq<NamespacedName>)
    requires Explored(store, mode, root, {root.key}, visited)
    requires StepsTargets(store, mode, root.steps, root.ns) <= visited
    requires IsPath(store, mode, root, p) && root.key !in p
    ensures p[|p| - 1] in visited
  {
    if |p| > 1 {
      var q := p[..|p| - 1];
      PathStaysIn(store, mode, root, visited, q);
      assert q[|q| - 1] in p;
      assert p[|p| - 1] in NodeTargets(store, mode, q[|q| - 1]);
    }
  }

  lemma PathExtends(store: Store, mode: Mode, root: Root, p: seq<NamespacedName>, v: NamespacedName)
    requires p == [] || IsPath(store, mode, root, p)
    requires v in if p == [] then StepsTargets(store, mode, root.steps, root.ns)
                  else NodeTargets(store, mode, p[|p| - 1])
    ensures IsPath(store, mode, root, p + [v])
    ensures (p + [v])[|p + [v]| - 1] == v
  {
  }

  // ---------------------------------------------------------------- chains that come back to the root

  /** The root as a chain of workflowRefs that comes back to it finds it: as stored, in its own namespace. */
  ghost function Refetched(store: Store, root: Root): Root {
    Root(root.key, NodeSteps(store, root.key), root.key.ns)
  }

  lemma {:induction false} SplitAtRoot(store: Store, mode: Mode, root: Root, p: seq<NamespacedName>)
    requires IsPath(store, mode, root, p)
    ensures || ReachableBelow(store, mode, root, p[|p| - 1])
            || (Reachable(store, mode, root, root.key)
                && (p[|p| - 1] == root.key || ReachableBelow(store, mode, Refetched(store, root), p[|p| - 1])))
    decreases |p|
  {
    hide NodeSteps, StepsTargets;
    if root.key in p {
      var i :| 0 <= i < |p| && p[i] == root.key;
      assert IsPath(store, mode, root, p[..i + 1]) && p[..i + 1][|p[..i + 1]| - 1] == root.key;
      if i + 1 < |p| {
        var q := p[i + 1..];
        assert q[0] == p[i + 1] && p[i + 1] in NodeTargets(store, mode, p[i]);
        assert forall j :: 0 <= j < |q| ==> q[j] == p[i + 1 + j];
        assert IsPath(store, mode, Refetched(store, root), q);
        SplitAtRoot(store, mode, Refetched(store, root), q);
      }
    }
  }

  lemma JoinAtRoot(store: Store, mode: Mode, root: Root, v: NamespacedName)
    requires Reachable(store, mode, root, root.key) && ReachableBelow(store, mode, Refetched(store, root), v)
    ensures Reachable(store, mode, root, v)
  {
    hide NodeSteps, StepsTargets;
    var p :| IsPath(store, mode, root, p) && p[|p| - 1] == root.key;
    var q :| IsPath(store, mode, Refetched(store, root), q) && q[|q| - 1] == v && root.key !in q;
    assert IsPath(store, mode, root, p + q);
    assert (p + q)[|p + q| - 1] == v;
  }

  /** What the root reaches is what it reaches below itself and, if some chain comes back to it, what its
      stored form reaches below itself. */
  lemma ContextsSplit(store: Store, mode: Mode, root: Root, steps: seq<Step>, ns: string)
    ensures Context(store, mode, root, steps, ns)
       <==> || ContextBelow(store, mode, root, steps, ns)
            || (Reachable(store, mode, root, root.key) && ContextBelow(store, mode, Refetched(store, root), steps, ns))
  {
    hide NodeTargets, StepsTargets;
    if Context(store, mode, root, steps, ns) && !(steps == root.steps && ns == root.ns) {
      var v :| Reachable(store, mode, root, v) && NodeSteps(store, v) == steps && v.ns == ns;
      var p :| IsPath(store, mode, root, p) && p[|p| - 1] == v;
      SplitAtRoot(store, mode, root, p);
    }
    if Reachable(store, mode, root, root.key) && ContextBelow(store, mode, Refetched(store, root), steps, ns) {
      if !(steps == NodeSteps(store, root.key) && ns == root.key.ns) {
        var v :| ReachableBelow(store, mode, Refetched(store, root), v) && NodeSteps(store, v) == steps && v.ns == ns;
        JoinAtRoot(store, mode, root, v);
      }
    }
    if ContextBelow(store, mode, root, steps, ns) && !(steps == root.steps && ns == root.ns) {
      var v :| ReachableBelow(store, mode, root, v) && NodeSteps(store, v) == steps && v.ns == ns;
      assert Reachable(store, mode, root, v);
    }
  }

  /** A root stored as it was given and run in its own namespace is what coming back to it finds, so
      nothing is reached only through the root. */
  lemma ContextsBelowAreAll(store: Store, mode: Mode, root: Root, steps: seq<Step>, ns: string)
    requires RootIsStored(store, root)
    ensures Context(store, mode, root, steps, ns) <==> ContextBelow(store, mode, root, steps, ns)
  {
    hide Context, ContextBelow, Reachable;
    assert Refetched(store, root) == root;
    ContextsSplit(store, mode, root, steps, ns);
  }

  // ---------------------------------------------------------------- the same, on the fields as written

  /** What a reference names: an object of its own namespace, or of its consumer's when it gives none. */
  predicate Names(ref: ObjectRef, consumer: string, key: NamespacedName) {
    key.name == ref.name && key.ns == if ref.ns != "" then ref.ns else consumer
  }

  ghost predicate HoldsTemplate(store: Store, ref: Option<ObjectRef>, ns: string, b: LeafStep) {
    exists key :: ref.Some? && Names(ref.value, ns, key) && key in store.templates && store.templates[key] == Object(b)
  }

  /** The body is the step's own, its template's, or its forEach's; steps that may not run are passed
      over, and a forEach is, when only what must run counts. */
  ghost predicate HoldsBody(store: Store, mode: Mode, step: Step, ns: string, b: LeafStep) {
    && (mode == MustRun ==> step.matchConditions == [] && step.failurePolicy != "Continue")
    && (|| b == step.body
        || HoldsTemplate(store, step.stepTemplateRef, ns, b)
        || (mode != MustRun && step.forEach.Some?
            && (step.forEach.value.step == Some(b) || HoldsTemplate(store, step.forEach.value.stepTemplateRef, ns, b))))
  }

  lemma TemplateBodyIs(store: Store, ref: Option<ObjectRef>, ns: string, b: LeafStep)
    ensures b in TemplateBody(store, ref, ns) <==> HoldsTemplate(store, ref, ns, b)
  {
    if b in TemplateBody(store, ref, ns) {
      assert Names(ref.value, ns, ref.value.In(ns));
    }
  }

  lemma BodiesAre(store: Store, mode: Mode, step: Step, ns: string, b: LeafStep)
    ensures b in Bodies(store, mode, step, ns) <==> HoldsBody(store, mode, step, ns, b)
  {
    TemplateBodyIs(store, step.stepTemplateRef, ns, b);
    if step.forEach.Some? {
      TemplateBodyIs(store, step.forEach.value.stepTemplateRef, ns, b);
    }
  }

  /** One link of a chain: a step holds a body whose workflowRef names the Workflow. */
  lemma TargetsAre(store: Store, mode: Mode, steps: seq<Step>, ns: string, v: NamespacedName)
    ensures v in StepsTargets(store, mode, steps, ns)
       <==> exists s, b :: s in steps && HoldsBody(store, mode, s, ns, b) && b.workflowRef.Some?
                        && Names(b.workflowRef.value, ns, v)
  {
    hide HoldsBody, Bodies;
    forall s, b ensures b in Bodies(store, mode, s, ns) <==> HoldsBody(store, mode, s, ns, b) {
      BodiesAre(store, mode, s, ns, b);
    }
  }

  lemma {:induction false} BeforeIs(s: string, c: char, r: string)
    ensures r == Before(s, c) <==> c !in r && (s == r || r + [c] <= s)
  {
    if s != "" && s[0] != c {
      if r != "" {
        BeforeIs(s[1..], c, r[1..]);
        assert r == [r[0]] + r[1..] && s == [s[0]] + s[1..];
        assert r[0] == s[0] ==> (r + [c] <= s <==> r[1..] + [c] <= s[1..]) by {
          assert (r + [c])[1..] == r[1..] + [c];
        }
      } else {
        assert [c] <= s <==> s[0] == c;
      }
    } else if s != "" {
      assert r != "" && r + [c] <= s ==> r[0] == c;
      assert s == r ==> s[0] in r;
      assert [s[0]] <= s;
    }
  }

  /** What is left when the white space before `i` and from `j` on is cut. */
  ghost predicate IsTrim(s: string, i: nat, j: nat) {
    && i <= j <= |s|
    && (forall k :: 0 <= k < i || j <= k < |s| ==> IsSpace(s[k]))
    && (i < j ==> !IsSpace(s[i]) && !IsSpace(s[j - 1]))
  }

  lemma {:induction false} TrimSpaceIs(s: string) returns (i: nat, j: nat)
    ensures IsTrim(s, i, j) && TrimSpace(s) == s[i..j]
  {
    if |s| > 0 && IsSpace(s[0]) {
      i, j := TrimSpaceIs(s[1..]);
      assert s[1..][i..j] == s[i + 1..j + 1];
      i, j := i + 1, j + 1;
    } else if |s| > 0 && IsSpace(s[|s| - 1]) {
      i, j := TrimSpaceIs(s[..|s| - 1]);
    } else {
      i, j := 0, |s|;
    }
  }

  /** A tool entry names the server that stands before the first ':' of the trimmed text. */
  ghost predicate NamesServer(toolRef: string, server: string) {
    && server != "" && ':' !in server
    && exists i: nat, j: nat :: IsTrim(toolRef, i, j) && (toolRef[i..j] == server || server + ":" <= toolRef[i..j])
  }

  lemma ServerOfIs(toolRef: string, server: string)
    ensures server != "" && ServerOf(toolRef) == server <==> NamesServer(toolRef, server)
  {
    var i, j := TrimSpaceIs(toolRef);
    BeforeIs(toolRef[i..j], ':', server);
    if NamesServer(toolRef, server) {
      var i': nat, j': nat :| IsTrim(toolRef, i', j') && (toolRef[i'..j'] == server || server + ":" <= toolRef[i'..j']);
      assert i' < j' && i < j;
    }
  }

  /** The white space of Unicode. */
  lemma Spaces(c: char)
    ensures IsSpace(c) <==>
              c in {' ', '\t', '\n', '\U{0B}', '\U{0C}', '\r', '\U{85}', '\U{A0}', '\U{1680}', '\U{2000}', '\U{2001}',
                    '\U{2002}', '\U{2003}', '\U{2004}', '\U{2005}', '\U{2006}', '\U{2007}', '\U{2008}', '\U{2009}',
                    '\U{200A}', '\U{2028}', '\U{2029}', '\U{202F}', '\U{205F}', '\U{3000}'}
  {
  }

  /** The reads of a body, kind by kind: only the collecting walk fetches servers, and only the walk that
      asks for any AgentRef at all fetches no Agent. */
  ghost predicate MakesRead(store: Store, mode: Mode, b: LeafStep, ns: string, k: Read) {
    match k.kind
    case WorkflowKind => b.workflowRef.Some? && Names(b.workflowRef.value, ns, k.key)
    case AgentKind => mode != AnyAgent && b.agentRef.Some? && Names(b.agentRef.value, ns, k.key)
    case ServerKind => mode == Collect && (CallsServer(b, ns, k.key) || AgentUsesServer(store, b, ns, k.key))
    case TemplateKind => false
  }

  ghost predicate CallsServer(b: LeafStep, ns: string, server: NamespacedName) {
    b.mcpToolCall == Some(server.name) && server.name != "" && server.ns == ns
  }

  /** The server is named by a tool of the body's Agent and lives in the Agent's namespace. */
  ghost predicate AgentUsesServer(store: Store, b: LeafStep, ns: string, server: NamespacedName) {
    exists agent, t ::
      && b.agentRef.Some? && Names(b.agentRef.value, ns, agent)
      && agent in store.agents && store.agents[agent].Object? && t in store.agents[agent].spec.mcpTools
      && server.ns == agent.ns && NamesServer(t, server.name)
  }

  lemma BodyReadsAre(store: Store, mode: Mode, b: LeafStep, ns: string, k: Read)
    ensures k in BodyReads(store, mode, b, ns) <==> MakesRead(store, mode, b, ns, k)
  {
    if b.agentRef.Some? {
      var key := b.agentRef.value.In(ns);
      assert forall a :: Names(b.agentRef.value, ns, a) <==> a == key;
      if Found(store.agents, key) {
        AgentServersAre(store.agents[key].spec, key.ns, k.key);
      }
    }
  }

  lemma AgentServersAre(agent: Agent, ns: string, server: NamespacedName)
    ensures server in AgentServers(agent, ns)
       <==> server.ns == ns && exists t :: t in agent.mcpTools && NamesServer(t, server.name)
  {
    hide NamesServer, ServerOf;
    forall t ensures server.name != "" && ServerOf(t) == server.name <==> NamesServer(t, server.name) {
      ServerOfIs(t, server.name);
    }
  }
}
