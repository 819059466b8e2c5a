/** internal/workflow/controller/secret_refs.go: the depth-first walk that collects the Secret references
    of everything a Workflow reaches, and the policy check on what it found. */
module SecretRefWalk {
  import opened Wrappers
  import opened Cluster
  import opened Reachability
  import opened WalkState
  import opened SecretRefs
  import opened Text

  /** What one successful part of the walk has done: it returned the references of the bodies it was
      asked for and of every Workflow it marked on the way. */
  ghost predicate Collected(store: Store, root: Root, before: set<NamespacedName>, after: set<NamespacedName>,
                            own: set<SecretRef>, targets: set<NamespacedName>, refs: seq<SecretRef>) {
    && Explored(store, Collect, root, before, after)
    && targets <= after
    && Bares(refs) == own + NodesRefs(store, after - before)
  }

  lemma CollectedThen(store: Store, root: Root, a: set<NamespacedName>, b: set<NamespacedName>, c: set<NamespacedName>,
                      own1: set<SecretRef>, targets1: set<NamespacedName>, refs1: seq<SecretRef>,
                      own2: set<SecretRef>, targets2: set<NamespacedName>, refs2: seq<SecretRef>)
    requires Collected(store, root, a, b, own1, targets1, refs1)
    requires Collected(store, root, b, c, own2, targets2, refs2)
    ensures Collected(store, root, a, c, own1 + own2, targets1 + targets2, refs1 + refs2)
  {
    ExploredTransitive(store, Collect, root, a, b, c);
    BaresConcat(refs1, refs2);
    NodesRefsUnion(store, b - a, c - b);
    assert c - a == (b - a) + (c - b);
  }

  lemma CollectedNothing(store: Store, root: Root, a: set<NamespacedName>, own: set<SecretRef>, refs: seq<SecretRef>)
    requires Bares(refs) == own
    ensures Collected(store, root, a, a, own, {}, refs)
  {
    assert a - a == {};
    assert NodesRefs(store, {}) == {};
  }

  function ExternalAgentRefSecretRefs(ref: Option<ExternalAgentRef>, ns: string, origin: string): (refs: seq<SecretRef>)
    ensures Bares(refs) == ExternalRefs(ref, ns) && FoundAt(refs, origin)
  {
    if ref.None? then Refs(None)
    else
      var ca :=
        if ref.value.caSecretRef.None? then Refs(None)
        else var k := ref.value.caSecretRef.value.In(ns);
             Refs(Some(KeyedRef(k.ns, k.name, "ca.crt", origin + ".externalAgentRef.caSecretRef", true)));
      var auth :=
        if ref.value.authSecretRef.None? then Refs(None)
        else var sr := ref.value.authSecretRef.value;
             Refs(Some(KeyedRef(sr.Ns(ns), sr.name, sr.key, origin + ".externalAgentRef.auth.secretRef", true)));
      BaresConcat(ca, auth);
      ca + auth
  }

  function AuthSecretRefs(auth: AuthConfig, ns: string, base: string, mount: bool): (refs: seq<SecretRef>)
    ensures Bares(refs) == AuthRefs(auth, ns, mount) && FoundAt(refs, base)
  {
    var own, oauth2 := OwnSecretRefs(auth, ns, base, mount), OAuth2SecretRefs(auth.oauth2, ns, base, mount);
    BaresConcat(own, oauth2);
    FoundAtConcat(own, oauth2, base);
    own + oauth2
  }

  function OwnSecretRefs(auth: AuthConfig, ns: string, base: string, mount: bool): (refs: seq<SecretRef>)
    ensures Bares(refs) == OwnAuthRefs(auth, ns, mount) && FoundAt(refs, base)
  {
    if auth.secretRef.None? then Refs(None)
    else
      var sr := auth.secretRef.value;
      if auth.kind == "basic" then
        KeyPair(sr.Ns(ns), sr.name, "username", "password", base + " auth.secretRef (basic)", mount)
      else Refs(Some(KeyedRef(sr.Ns(ns), sr.name, sr.key, base + " auth.secretRef", mount)))
  }

  function OAuth2SecretRefs(oauth2: Option<OAuth2Config>, ns: string, base: string, mount: bool): (refs: seq<SecretRef>)
    ensures Bares(refs) == OAuth2Refs(oauth2, ns, mount) && FoundAt(refs, base)
  {
    if oauth2.None? then Refs(None)
    else
      var secret := ClientSecretRefs(oauth2.value, ns, base, mount);
      var credentials := ClientCredentialsRefs(oauth2.value, ns, base, mount);
      BaresConcat(secret, credentials);
      FoundAtConcat(secret, credentials, base);
      secret + credentials
  }

  function ClientSecretRefs(oauth2: OAuth2Config, ns: string, base: string, mount: bool): (refs: seq<SecretRef>)
    ensures Bares(refs) == ClientSecretBares(oauth2, ns, mount) && FoundAt(refs, base)
  {
    if oauth2.clientSecretRef.None? then Refs(None)
    else var sr := oauth2.clientSecretRef.value;
         Refs(Some(KeyedRef(sr.Ns(ns), sr.name, sr.key, base + " auth.oauth2.clientSecretRef", mount)))
  }

  function ClientCredentialsRefs(oauth2: OAuth2Config, ns: string, base: string, mount: bool): (refs: seq<SecretRef>)
    ensures Bares(refs) == ClientCredentialsBares(oauth2, ns, mount) && FoundAt(refs, base)
  {
    if oauth2.clientCredentialsRef.None? then Refs(None)
    else var k := oauth2.clientCredentialsRef.value.In(ns);
         KeyPair(k.ns, k.name, "client_id", "client_secret", base + " auth.oauth2.clientCredentialsRef", mount)
  }

  /** A mandatory reference to one key, in the namespace written or else in `ns`. */
  function Listed(written: string, ns: string, name: string, key: string, origin: string, mount: bool): SecretRef {
    SecretRef(if written != "" then written else ns, name, key, origin, false, "", false, mount)
  }

  /** The references of an auth block one by one, each with the field it stands in. */
  lemma AuthRefsListed(auth: AuthConfig, ns: string, base: string, mount: bool)
    ensures OwnSecretRefs(auth, ns, base, mount) ==
              match auth.secretRef
              case None => []
              case Some(sr) =>
                if auth.kind == "basic" then
                  [Listed(sr.ns, ns, sr.name, "username", base + " auth.secretRef (basic)", mount),
                   Listed(sr.ns, ns, sr.name, "password", base + " auth.secretRef (basic)", mount)]
                else [Listed(sr.ns, ns, sr.name, sr.key, base + " auth.secretRef", mount)]
    ensures OAuth2SecretRefs(auth.oauth2, ns, base, mount) ==
              match auth.oauth2
              case None => []
              case Some(oauth2) =>
                (match oauth2.clientSecretRef
                 case None => []
                 case Some(sr) =>
                   [Listed(sr.ns, ns, sr.name, sr.key, base + " auth.oauth2.clientSecretRef", mount)]) +
                (match oauth2.clientCredentialsRef
                 case None => []
                 case Some(ref) =>
                   [Listed(ref.ns, ns, ref.name, "client_id", base + " auth.oauth2.clientCredentialsRef", mount),
                    Listed(ref.ns, ns, ref.name, "client_secret", base + " auth.oauth2.clientCredentialsRef", mount)])
    ensures AuthSecretRefs(auth, ns, base, mount)
         == OwnSecretRefs(auth, ns, base, mount) + OAuth2SecretRefs(auth.oauth2, ns, base, mount)
  {
  }

  /** The same for an external agent: its CA bundle and then its token. */
  lemma ExternalRefsListed(ref: ExternalAgentRef, ns: string, origin: string)
    ensures ExternalAgentRefSecretRefs(Some(ref), ns, origin) ==
              (match ref.caSecretRef
               case None => []
               case Some(ca) =>
                 [Listed(ca.ns, ns, ca.name, "ca.crt", origin + ".externalAgentRef.caSecretRef", true)]) +
              (match ref.authSecretRef
               case None => []
               case Some(sr) =>
                 [Listed(sr.ns, ns, sr.name, sr.key, origin + ".externalAgentRef.auth.secretRef", true)])
  {
  }

  function ServerBase(origin: string, serverNs: string, serverName: string): string {
    origin + " (MCPServer " + serverNs + "/" + serverName + ")"
  }

  /** The references of a server: those of its environment, and then those of its auth. */
  function ServerRefList(server: MCPServer, ns: string, base: string, mount: bool): seq<SecretRef> {
    EnvRefList(server.env, ns, base, mount)
        + (if server.auth.None? then [] else AuthSecretRefs(server.auth.value, ns, base, mount))
  }

  lemma ServerRefListIs(store: Store, key: NamespacedName, origin: string, mount: bool)
    requires Found(store.servers, key)
    ensures var refs := ServerRefList(store.servers[key].spec, key.ns, ServerBase(origin, key.ns, key.name), mount);
            Bares(refs) == ServerRefs(store, key, mount) && FoundAt(refs, origin)
  {
    hide AuthSecretRefs, AuthRefs, EnvRefs, EnvRefList, Bares, FoundAt;
    var server, base := store.servers[key].spec, ServerBase(origin, key.ns, key.name);
    EnvRefListIs(server.env, key.ns, base, mount);
    var env := EnvRefList(server.env, key.ns, base, mount);
    var auth := if server.auth.None? then [] else AuthSecretRefs(server.auth.value, key.ns, base, mount);
    NothingFound(base);
    BaresConcat(env, auth);
    FoundAtConcat(env, auth, base);
    assert base == origin + (" (MCPServer " + key.ns + "/" + key.name + ")");
    FoundBelow(env + auth, origin, " (MCPServer " + key.ns + "/" + key.name + ")");
  }

  lemma NothingFound(origin: string)
    ensures Bares([]) == {} && FoundAt([], origin)
  {
  }

  function ToolServer(tool: string, ns: string): NamespacedName { NamespacedName(ns, ServerOf(tool)) }

  /** The references of an Agent's tools, in the order of the tools, a server once for each tool of it. */
  function ToolRefList(store: Store, tools: seq<string>, ns: string, origin: string): seq<SecretRef> {
    if tools == [] then []
    else
      var server := ToolServer(tools[|tools| - 1], ns);
      ToolRefList(store, tools[..|tools| - 1], ns, origin) +
      (if server.name == "" || !Found(store.servers, server) then []
       else ServerRefList(store.servers[server].spec, ns, ServerBase(origin, ns, server.name), false))
  }

  ghost function ToolServers(tools: seq<string>, ns: string): set<NamespacedName> { AgentServers(Agent(tools, ""), ns) }

  lemma ToolServersSnoc(tools: seq<string>, tool: string, ns: string)
    ensures ToolServers(tools + [tool], ns)
         == ToolServers(tools, ns) + (if ServerOf(tool) == "" then {} else {ToolServer(tool, ns)})
  {
    hide TrimSpace, Before;
  }

  lemma {:induction false} ToolRefListIs(store: Store, tools: seq<string>, ns: string, origin: string)
    requires forall k :: k in ToolServers(tools, ns) ==> Found(store.servers, k)
    ensures Bares(ToolRefList(store, tools, ns, origin))
         == set k, b | k in ToolServers(tools, ns) && b in ServerRefs(store, k, false) :: b
    ensures FoundAt(ToolRefList(store, tools, ns, origin), origin)
  {
    hide ServerOf, ServerRefs, ServerRefList, ServerBase, Bares, FoundAt, AgentServers;
    NothingFound(origin);
    if tools != [] {
      var init, tool := tools[..|tools| - 1], tools[|tools| - 1];
      assert tools == init + [tool];
      ToolServersSnoc(init, tool, ns);
      ToolRefListIs(store, init, ns, origin);
      var server := ToolServer(tool, ns);
      if server.name != "" {
        ServerRefListIs(store, server, origin, false);
        var last := ServerRefList(store.servers[server].spec, ns, ServerBase(origin, ns, server.name), false);
        BaresConcat(ToolRefList(store, init, ns, origin), last);
        FoundAtConcat(ToolRefList(store, init, ns, origin), last, origin);
      } else {
        assert ToolRefList(store, init, ns, origin) + [] == ToolRefList(store, init, ns, origin);
      }
    } else {
      NoTools(ns);
    }
  }

  lemma NoTools(ns: string)
    ensures ToolServers([], ns) == {}
  {
  }

  /** A sub-Workflow whose steps are all walked joins the explored ones. */
  lemma NodeDone(store: Store, root: Root, before: set<NamespacedName>, sub: NamespacedName,
                 after: set<NamespacedName>, refs: seq<SecretRef>)
    requires Found(store.workflows, sub) && sub !in before
    requires Collected(store, root, before + {sub}, after, StepsRefs(store, NodeSteps(store, sub), sub.ns),
                       NodeTargets(store, Collect, sub), refs)
    requires NoFaults(store, Collect, root, NodeSteps(store, sub), sub.ns)
    ensures Collected(store, root, before, after, {}, {sub}, refs)
  {
    hide StepsRefs, StepsTargets, Faulty, StepsReads;
    assert after - before == {sub} + (after - (before + {sub}));
    NodesRefsUnion(store, {sub}, after - (before + {sub}));
    assert NodesRefs(store, {sub}) == StepsRefs(store, NodeSteps(store, sub), sub.ns);
  }

  lemma StepsDone(store: Store, root: Root, before: set<NamespacedName>, sub: NamespacedName,
                  after: set<NamespacedName>, refs: seq<SecretRef>)
    requires Found(store.workflows, sub) && sub !in before
    requires StepsCollected(store, root, before + {sub}, after, NodeSteps(store, sub), sub.ns, refs)
    ensures Collected(store, root, before, after, {}, {sub}, refs)
  {
    NodeDone(store, root, before, sub, after, refs);
  }

  lemma AlreadyMarked(store: Store, root: Root, visited: set<NamespacedName>, sub: NamespacedName)
    requires sub in visited
    ensures Collected(store, root, visited, visited, {}, {sub}, [])
  {
    assert Bares([]) == {};
    CollectedNothing(store, root, visited, {}, []);
  }

  ghost predicate StepOk(store: Store, root: Root, step: Step, ns: string) {
    forall k :: k in StepReads(store, Collect, step, ns) ==> !Faulty(store, Collect, root, k)
  }

  /** One more step of a list is walked. */
  lemma StepDone(store: Store, root: Root, before: set<NamespacedName>, mid: set<NamespacedName>,
                 after: set<NamespacedName>,
                 steps: seq<Step>, i: nat, ns: string, refs: seq<SecretRef>, stepRefs: seq<SecretRef>)
    requires i < |steps|
    requires StepsCollected(store, root, before, mid, steps[..i], ns, refs)
    requires StepCollected(store, root, mid, after, steps[i], ns, stepRefs)
    ensures StepsCollected(store, root, before, after, steps[..i + 1], ns, refs + stepRefs)
  {
    hide Collected, StepsRefs, StepsTargets, Bodies, Targets, BodiesRefs, StepReads, Faulty;
    StepsRefsSnoc(store, steps, i, ns);
    CollectedThen(store, root, before, mid, after,
                  StepsRefs(store, steps[..i], ns), StepsTargets(store, Collect, steps[..i], ns), refs,
                  BodiesRefs(store, Bodies(store, Collect, steps[i], ns), ns),
                  Targets(Bodies(store, Collect, steps[i], ns), ns), stepRefs);
  }

  ghost predicate StepCollected(store: Store, root: Root, before: set<NamespacedName>, after: set<NamespacedName>,
                                step: Step, ns: string, refs: seq<SecretRef>) {
    && Collected(store, root, before, after,
                 BodiesRefs(store, Bodies(store, Collect, step, ns), ns),
                 Targets(Bodies(store, Collect, step, ns), ns), refs)
    && StepOk(store, root, step, ns)
  }

  ghost predicate StepsCollected(store: Store, root: Root, before: set<NamespacedName>, after: set<NamespacedName>,
                                 steps: seq<Step>, ns: string, refs: seq<SecretRef>) {
    && Collected(store, root, before, after, StepsRefs(store, steps, ns), StepsTargets(store, Collect, steps, ns), refs)
    && NoFaults(store, Collect, root, steps, ns)
  }

  lemma NoStepsCollected(store: Store, root: Root, before: set<NamespacedName>, ns: string)
    ensures StepsCollected(store, root, before, before, [], ns, [])
  {
    CollectedNothing(store, root, before, {}, []);
    assert StepsBodies(store, Collect, [], ns) == {};
    assert StepsRefs(store, [], ns) == {};
    assert StepsTargets(store, Collect, [], ns) == {};
  }

  /** Some bodies are walked: their own references and the Workflows they name. */
  ghost predicate BodiesCollected(store: Store, root: Root, before: set<NamespacedName>, after: set<NamespacedName>,
                                  bodies: set<LeafStep>, ns: string, refs: seq<SecretRef>) {
    && Collected(store, root, before, after, BodiesRefs(store, bodies, ns), Targets(bodies, ns), refs)
    && ReadsOk(store, root, bodies, ns)
  }

  ghost predicate ReadsOk(store: Store, root: Root, bodies: set<LeafStep>, ns: string) {
    forall b, k :: b in bodies && k in BodyReads(store, Collect, b, ns) ==> !Faulty(store, Collect, root, k)
  }

  lemma NoBodiesCollected(store: Store, root: Root, before: set<NamespacedName>, ns: string)
    ensures BodiesCollected(store, root, before, before, {}, ns, [])
  {
    CollectedNothing(store, root, before, {}, []);
    assert BodiesRefs(store, {}, ns) == {};
  }

  lemma BodiesThen(store: Store, root: Root, a: set<NamespacedName>, b: set<NamespacedName>, c: set<NamespacedName>,
                   bodies1: set<LeafStep>, bodies2: set<LeafStep>, ns: string,
                   refs1: seq<SecretRef>, refs2: seq<SecretRef>)
    requires BodiesCollected(store, root, a, b, bodies1, ns, refs1)
    requires BodiesCollected(store, root, b, c, bodies2, ns, refs2)
    ensures BodiesCollected(store, root, a, c, bodies1 + bodies2, ns, refs1 + refs2)
  {
    hide Collected, BodyReads, Faulty, BodyRefs;
    BodiesRefsUnion(store, bodies1, bodies2, ns);
    assert Targets(bodies1 + bodies2, ns) == Targets(bodies1, ns) + Targets(bodies2, ns);
    CollectedThen(store, root, a, b, c, BodiesRefs(store, bodies1, ns), Targets(bodies1, ns), refs1,
                  BodiesRefs(store, bodies2, ns), Targets(bodies2, ns), refs2);
  }

  /** The references of one body other than its workflowRef. */
  ghost predicate DirectCollected(store: Store, root: Root, b: LeafStep, ns: string, refs: seq<SecretRef>) {
    && Bares(refs) == BodyRefs(store, b, ns)
    && forall k :: k in BodyReads(store, Collect, b, ns) && k.kind != WorkflowKind ==> !Faulty(store, Collect, root, k)
  }

  /** The workflowRef of one body, if it holds one. */
  ghost predicate WorkflowCollected(store: Store, root: Root, before: set<NamespacedName>, after: set<NamespacedName>,
                                    b: LeafStep, ns: string, refs: seq<SecretRef>) {
    && Collected(store, root, before, after, {}, Targets({b}, ns), refs)
    && (b.workflowRef.Some? ==> !Faulty(store, Collect, root, Read(WorkflowKind, b.workflowRef.value.In(ns))))
  }

  lemma NoWorkflow(store: Store, root: Root, before: set<NamespacedName>, b: LeafStep, ns: string)
    ensures b.workflowRef.None? ==> WorkflowCollected(store, root, before, before, b, ns, [])
  {
    assert Bares([]) == {};
    CollectedNothing(store, root, before, {}, []);
    if b.workflowRef.None? { assert Targets({b}, ns) == {}; }
  }

  lemma WorkflowTarget(store: Store, b: LeafStep, ns: string)
    requires b.workflowRef.Some?
    ensures Targets({b}, ns) == {b.workflowRef.value.In(ns)}
    ensures Read(WorkflowKind, b.workflowRef.value.In(ns)) in BodyReads(store, Collect, b, ns)
  {
  }

  lemma WorkflowReads(store: Store, root: Root, b: LeafStep, ns: string)
    requires forall k :: k in BodyReads(store, Collect, b, ns) && k.kind != WorkflowKind ==>
               !Faulty(store, Collect, root, k)
    requires b.workflowRef.Some? ==> !Faulty(store, Collect, root, Read(WorkflowKind, b.workflowRef.value.In(ns)))
    ensures ReadsOk(store, root, {b}, ns)
  {
    hide Faulty, AgentServers;
  }

  lemma BodyDone(store: Store, root: Root, before: set<NamespacedName>, after: set<NamespacedName>,
                 b: LeafStep, ns: string, direct: seq<SecretRef>, wfRefs: seq<SecretRef>)
    requires DirectCollected(store, root, b, ns, direct) && WorkflowCollected(store, root, before, after, b, ns, wfRefs)
    ensures BodiesCollected(store, root, before, after, {b}, ns, direct + wfRefs)
  {
    hide Collected, BodyRefs, BodyReads, Faulty, Bares;
    BodiesRefsSingle(store, b, ns);
    WorkflowReads(store, root, b, ns);
    CollectedNothing(store, root, before, BodyRefs(store, b, ns), direct);
    CollectedThen(store, root, before, before, after, BodyRefs(store, b, ns), {}, direct, {}, Targets({b}, ns), wfRefs);
    assert BodyRefs(store, b, ns) + {} == BodiesRefs(store, {b}, ns);
    assert {} + Targets({b}, ns) == Targets({b}, ns);
  }

  ghost predicate TemplateOk(store: Store, root: Root, ref: Option<ObjectRef>, ns: string) {
    forall k :: k in TemplateReads(ref, ns) ==> !Faulty(store, Collect, root, k)
  }

  /** The four parts of a step, in the order they are walked. */
  lemma StepPartsCollected(store: Store, root: Root, a: set<NamespacedName>, b: set<NamespacedName>,
                           c: set<NamespacedName>,
                           d: set<NamespacedName>, step: Step, ns: string,
                           direct: seq<SecretRef>, tplRefs: seq<SecretRef>,
                           wfRefs: seq<SecretRef>, feRefs: seq<SecretRef>)
    requires DirectCollected(store, root, step.body, ns, direct)
    requires BodiesCollected(store, root, a, b, TemplateBody(store, step.stepTemplateRef, ns), ns, tplRefs)
    requires TemplateOk(store, root, step.stepTemplateRef, ns)
    requires WorkflowCollected(store, root, b, c, step.body, ns, wfRefs)
    requires step.forEach.None? ==> c == d && feRefs == []
    requires step.forEach.Some? ==>
      && BodiesCollected(store, root, c, d, ForEachBodies(store, step.forEach.value, ns), ns, feRefs)
      && TemplateOk(store, root, step.forEach.value.stepTemplateRef, ns)
    ensures StepCollected(store, root, a, d, step, ns, direct + tplRefs + wfRefs + feRefs)
  {
    hide Collected, BodyRefs, BodyReads, Faulty, Bares, TemplateBody, ForEachBodies, TemplateReads;
    var tpl, own := TemplateBody(store, step.stepTemplateRef, ns), step.body;
    var fe := if step.forEach.Some? then ForEachBodies(store, step.forEach.value, ns) else {};
    CollectedNothing(store, root, a, BodyRefs(store, own, ns), direct);
    CollectedThen(store, root, a, a, b, BodyRefs(store, own, ns), {}, direct, BodiesRefs(store, tpl, ns),
                  Targets(tpl, ns),
                  tplRefs);
    CollectedThen(store, root, a, b, c, BodyRefs(store, own, ns) + BodiesRefs(store, tpl, ns), {} + Targets(tpl, ns),
                  direct + tplRefs,
                  {}, Targets({own}, ns), wfRefs);
    if step.forEach.None? { NoBodiesCollected(store, root, c, ns); }
    CollectedThen(store, root, a, c, d,
                  BodyRefs(store, own, ns) + BodiesRefs(store, tpl, ns) + {},
                  {} + Targets(tpl, ns) + Targets({own}, ns),
                  direct + tplRefs + wfRefs,
                  BodiesRefs(store, fe, ns), Targets(fe, ns), feRefs);
    BodiesRefsSingle(store, own, ns);
    BodiesRefsUnion(store, {own}, tpl, ns);
    BodiesRefsUnion(store, {own} + tpl, fe, ns);
    var all := Bodies(store, Collect, step, ns);
    assert all == {own} + tpl + fe;
    assert BodyRefs(store, own, ns) + BodiesRefs(store, tpl, ns) + {}
           + BodiesRefs(store, fe, ns) == BodiesRefs(store, all, ns);
    assert Targets(all, ns) == {} + Targets(tpl, ns) + Targets({own}, ns) + Targets(fe, ns);
    WorkflowReads(store, root, own, ns);
    StepReadsOk(store, root, step, ns, tpl, fe);
  }

  lemma StepReadsOk(store: Store, root: Root, step: Step, ns: string, tpl: set<LeafStep>, fe: set<LeafStep>)
    requires Bodies(store, Collect, step, ns) == {step.body} + tpl + fe
    requires TemplateOk(store, root, step.stepTemplateRef, ns)
    requires step.forEach.Some? ==> TemplateOk(store, root, step.forEach.value.stepTemplateRef, ns)
    requires ReadsOk(store, root, {step.body}, ns) && ReadsOk(store, root, tpl, ns) && ReadsOk(store, root, fe, ns)
    ensures StepOk(store, root, step, ns)
  {
    hide Faulty, BodyReads, Bodies, TemplateReads;
  }

  class SecretRefWalker {
    const store: Store
    ghost const root: Root
    var visited: set<NamespacedName>
    ghost var expanded: seq<NamespacedName>  // every sub-Workflow fetched, in order

    constructor (store: Store, ghost root: Root, key: NamespacedName)
      requires key == root.key
      ensures Valid() && this.store == store && this.root == root && visited == {root.key} && expanded == []
      ensures At([], root.steps, root.ns)
    {
      this.store := store;
      this.root := root;
      visited := {key};
      expanded := [];
    }

    ghost predicate Valid()
      reads this
    {
      ValidState(store, Collect, root, visited, expanded)
    }

    ghost predicate At(path: seq<NamespacedName>, steps: seq<Step>, ns: string)
      reads this
    {
      AtEnd(store, Collect, root, expanded, path, steps, ns)
    }

    method McpServerSecretRefs(serverName: string, serverNs: string, origin: string, mount: bool)
      returns (r: Result<seq<SecretRef>, WalkError>)
      ensures r.Failure? ==> serverName != "" && !Found(store.servers, NamespacedName(serverNs, serverName))
                             && r.error == Unresolved(Read(ServerKind, NamespacedName(serverNs, serverName)))
      ensures r.Success? && serverName == "" ==> r.value == []
      ensures r.Success? && serverName != "" ==>
        var key := NamespacedName(serverNs, serverName);
        && Found(store.servers, key)
        && r.value == ServerRefList(store.servers[key].spec, serverNs, ServerBase(origin, serverNs, serverName), mount)
        && Bares(r.value) == ServerRefs(store, key, mount)
      ensures r.Success? ==> FoundAt(r.value, origin)
    {
      hide AuthSecretRefs, ServerRefs, Bares, FoundAt;
      NothingFound(origin);
      if serverName == "" {
        return Success([]);
      }
      var key := NamespacedName(serverNs, serverName);
      if !Found(store.servers, key) {
        return Failure(Unresolved(Read(ServerKind, key)));
      }
      var server := store.servers[key].spec;
      var base := ServerBase(origin, serverNs, serverName);
      var refs := [];
      for i := 0 to |server.env|
        invariant refs == EnvRefList(server.env[..i], serverNs, base, mount)
      {
        var ev := server.env[i];
        assert server.env[..i + 1][..i] == server.env[..i];
        if ev.secretKeyRef.Some? {
          var sel := ev.secretKeyRef.value;
          refs := refs + [SecretRef(serverNs, sel.name, sel.key, base + " env " + Quoted(ev.name), false, ev.name,
                                    sel.optional, mount)];
        }
      }
      assert server.env[..|server.env|] == server.env;
      if server.auth.Some? {
        refs := refs + AuthSecretRefs(server.auth.value, serverNs, base, mount);
      }
      ServerRefListIs(store, key, origin, mount);
      return Success(refs);
    }

    method AgentRefSecretRefs(ref: ObjectRef, effectiveNs: string, origin: string)
      returns (r: Result<seq<SecretRef>, WalkError>)
      ensures r.Failure? ==>
        && r.error.Unresolved? && Faulty(store, Collect, root, r.error.read)
        && (r.error.read == Read(AgentKind, ref.In(effectiveNs))
            || (Found(store.agents, ref.In(effectiveNs))
                && r.error.read in ServerReads(AgentServers(store.agents[ref.In(effectiveNs)].spec,
                                                            ref.In(effectiveNs).ns))))
      ensures r.Success? ==>
        var key := ref.In(effectiveNs);
        && Found(store.agents, key)
        && (forall k :: k in AgentServers(store.agents[key].spec, key.ns) ==> Found(store.servers, k))
        && r.value == ToolRefList(store, store.agents[key].spec.mcpTools, key.ns, origin)
        && Bares(r.value) == AgentRefs(store, key)
      ensures r.Success? ==> FoundAt(r.value, origin)
    {
      hide TrimSpace, Before, ServerRefs, ServerRefList, ServerBase, Bares, FoundAt;
      var key := ref.In(effectiveNs);
      if !Found(store.agents, key) {
        return Failure(Unresolved(Read(AgentKind, key)));
      }
      var agent := store.agents[key].spec;
      var refs := [];
      NoTools(key.ns);
      for i := 0 to |agent.mcpTools|
        invariant forall k :: k in ToolServers(agent.mcpTools[..i], key.ns) ==> Found(store.servers, k)
        invariant refs == ToolRefList(store, agent.mcpTools[..i], key.ns, origin)
      {
        var tool := agent.mcpTools[i];
        assert agent.mcpTools[..i + 1] == agent.mcpTools[..i] + [tool];
        ToolServersSnoc(agent.mcpTools[..i], tool, key.ns);
        var serverName := ServerOf(tool);
        if serverName == "" { continue; }
        assert NamespacedName(key.ns, serverName) in AgentServers(agent, key.ns);
        var serverRefs :- McpServerSecretRefs(serverName, key.ns, origin, false);
        refs := refs + serverRefs;
      }
      assert agent.mcpTools[..|agent.mcpTools|] == agent.mcpTools;
      assert AgentServers(agent, key.ns) == ToolServers(agent.mcpTools, key.ns);
      ToolRefListIs(store, agent.mcpTools, key.ns, origin);
      return Success(refs);
    }

    lemma DirectReadsFound(b: LeafStep, ns: string)
      requires b.mcpToolCall.Some? && b.mcpToolCall.value != ""
               ==> Found(store.servers, NamespacedName(ns, b.mcpToolCall.value))
      requires b.agentRef.Some? ==>
        var key := b.agentRef.value.In(ns);
        && Found(store.agents, key)
        && forall k :: k in AgentServers(store.agents[key].spec, key.ns) ==> Found(store.servers, k)
      ensures forall k :: k in BodyReads(store, Collect, b, ns) && k.kind != WorkflowKind ==>
                !Faulty(store, Collect, root, k)
    {
      hide AgentServers, Found;
    }

    /** externalAgentRef, mcpToolCall and agentRef of one body. */
    method DirectRefs(b: LeafStep, effectiveNs: string, origin: string)
      returns (r: Result<seq<SecretRef>, WalkError>)
      ensures r.Failure? ==> r.error.Unresolved? && Faulty(store, Collect, root, r.error.read)
                             && r.error.read in BodyReads(store, Collect, b, effectiveNs)
      ensures r.Success? ==> DirectCollected(store, root, b, effectiveNs, r.value) && FoundAt(r.value, origin)
    {
      hide Bares, ExternalRefs, ServerRefs, AgentRefs, AgentServers, ServerReads, Found, FoundAt;
      hide ExternalAgentRefSecretRefs, ServerRefList, ToolRefList;
      var refs := ExternalAgentRefSecretRefs(b.externalAgentRef, effectiveNs, origin);
      NothingFound(origin);
      if b.mcpToolCall.Some? {
        var mcpRefs :- McpServerSecretRefs(b.mcpToolCall.value, effectiveNs, origin + ".mcpToolCall", true);
        BaresConcat(refs, mcpRefs);
        FoundBelow(mcpRefs, origin, ".mcpToolCall");
        FoundAtConcat(refs, mcpRefs, origin);
        refs := refs + mcpRefs;
      }
      if b.agentRef.Some? {
        var agentRefs :- AgentRefSecretRefs(b.agentRef.value, effectiveNs, origin + ".agentRef");
        BaresConcat(refs, agentRefs);
        FoundBelow(agentRefs, origin, ".agentRef");
        FoundAtConcat(refs, agentRefs, origin);
        refs := refs + agentRefs;
      }
      DirectReadsFound(b, effectiveNs);
      return Success(refs);
    }

    method FetchStepTemplateStep(key: NamespacedName) returns (r: Result<LeafStep, WalkError>)
      ensures r.Success? ==> Found(store.templates, key) && r.value == store.templates[key].spec
      ensures r.Failure? ==> !Found(store.templates, key) && r.error == Unresolved(Read(TemplateKind, key))
    {
      if !Found(store.templates, key) {
        return Failure(Unresolved(Read(TemplateKind, key)));
      }
      return Success(store.templates[key].spec);
    }

    method WorkflowRefSecretRefs(ref: ObjectRef, effectiveNs: string, origin: string, depth: nat,
                                 ghost path: seq<NamespacedName>, ghost steps: seq<Step>, ghost step: Step)
      returns (r: Result<seq<SecretRef>, WalkError>)
      requires Valid() && At(path, steps, effectiveNs) && |path| == depth <= MAX_WORKFLOW_REF_DEPTH
      requires step in steps && Read(WorkflowKind, ref.In(effectiveNs)) in StepReads(store, Collect, step, effectiveNs)
      requires ref.In(effectiveNs) in StepsTargets(store, Collect, steps, effectiveNs)
      modifies this
      ensures r.Success? ==> Valid() && old(expanded) <= expanded && old(visited) <= visited
      ensures r.Success? ==> !Faulty(store, Collect, root, Read(WorkflowKind, ref.In(effectiveNs)))
      ensures r.Success? ==> Collected(store, root, old(visited), visited, {}, {ref.In(effectiveNs)}, r.value)
      ensures r.Success? ==> FoundAt(r.value, origin)
      ensures r.Failure? ==> Justified(store, Collect, root, r.error)
      decreases store.workflows.Keys - visited, 1
    {
      hide AtEnd, Explored, Collected, StepsCollected, StepCollected, Justified, StepReads, StepsTargets, StepsReads,
           NoFaults, IsPath;
      hide StepsRefs, BodiesRefs, Bodies, Bares, ReachableBelow, ContextBelow, FoundAt;
      var sub := ref.In(effectiveNs);
      NothingFound(origin);
      if depth >= MAX_WORKFLOW_REF_DEPTH {
        ChainIsTooDeep(store, Collect, root, visited, expanded, path, steps, effectiveNs, sub);
        return Failure(TooDeep);
      }
      if sub in visited {
        AlreadyMarked(store, root, visited, sub);
        return Success([]);
      }
      if !Found(store.workflows, sub) {
        ReadIsJustified(store, Collect, root, visited, expanded, path, steps, effectiveNs, step,
                        Read(WorkflowKind, sub));
        visited := visited + {sub};
        return Failure(Unresolved(Read(WorkflowKind, sub)));
      }
      EnterSub(store, Collect, root, visited, expanded, path, steps, effectiveNs, sub);
      visited := visited + {sub};
      expanded := expanded + [sub];
      var subSteps := store.workflows[sub].spec.steps;
      ghost var subPath := path + [sub];
      var refs := [];
      NoStepsCollected(store, root, visited, sub.ns);
      assert subSteps[..0] == [];
      for i := 0 to |subSteps|
        invariant Valid() && old(expanded) + [sub] <= expanded && old(visited) + {sub} <= visited
        invariant At(subPath, subSteps, sub.ns)
        invariant StepsCollected(store, root, old(visited) + {sub}, visited, subSteps[..i], sub.ns, refs)
        invariant FoundAt(refs, origin)
      {
        ghost var mid, had := visited, expanded;
        var part := " -> workflow " + Quoted(sub.name) + " step " + Quoted(subSteps[i].name);
        var stepRefs :- FromStep(subSteps[i], sub.ns, origin + part, depth + 1, subPath, subSteps);
        FoundBelow(stepRefs, origin, part);
        FoundAtConcat(refs, stepRefs, origin);
        AtEndGrows(store, Collect, root, had, expanded, subPath, subSteps, sub.ns);
        StepDone(store, root, old(visited) + {sub}, mid, visited, subSteps, i, sub.ns, refs, stepRefs);
        refs := refs + stepRefs;
      }
      assert subSteps[..|subSteps|] == subSteps;
      StepsDone(store, root, old(visited), sub, visited, refs);
      return Success(refs);
    }

    /** One body, with the workflowRef it may hold. */
    method FromRefFields(b: LeafStep, effectiveNs: string, origin: string, depth: nat,
                         ghost path: seq<NamespacedName>, ghost steps: seq<Step>, ghost step: Step)
      returns (r: Result<seq<SecretRef>, WalkError>)
      requires Valid() && At(path, steps, effectiveNs) && |path| == depth <= MAX_WORKFLOW_REF_DEPTH
      requires step in steps && b in Bodies(store, Collect, step, effectiveNs)
      modifies this
      ensures r.Success? ==> Valid() && old(expanded) <= expanded && old(visited) <= visited
      ensures r.Success? ==> BodiesCollected(store, root, old(visited), visited, {b}, effectiveNs, r.value)
      ensures r.Success? ==> FoundAt(r.value, origin)
      ensures r.Failure? ==> Justified(store, Collect, root, r.error)
      decreases store.workflows.Keys - visited, 2
    {
      hide ValidState, AtEnd, Collected, Justified, DirectCollected, BodiesCollected, Bodies, StepReads,
           StepsTargets, Faulty, FoundAt;
      BodyReadsOfStep(store, Collect, step, b, effectiveNs);
      BodyTargetOfStep(store, Collect, steps, step, b, effectiveNs);
      var direct :- DirectRefsAt(b, effectiveNs, origin, path, steps, step);
      if b.workflowRef.None? {
        NoWorkflow(store, root, visited, b, effectiveNs);
        BodyDone(store, root, visited, visited, b, effectiveNs, direct, []);
        assert direct + [] == direct;
        return Success(direct);
      }
      assert Targets({b}, effectiveNs) == {b.workflowRef.value.In(effectiveNs)};
      var wfRefs :- WorkflowRefSecretRefs(b.workflowRef.value, effectiveNs, origin + ".workflowRef", depth, path,
                                          steps, step);
      BodyDone(store, root, old(visited), visited, b, effectiveNs, direct, wfRefs);
      FoundBelow(wfRefs, origin, ".workflowRef");
      FoundAtConcat(direct, wfRefs, origin);
      return Success(direct + wfRefs);
    }

    method StepTemplateRefSecretRefs(ref: ObjectRef, effectiveNs: string, origin: string, depth: nat,
                                     ghost path: seq<NamespacedName>, ghost steps: seq<Step>, ghost step: Step)
      returns (r: Result<seq<SecretRef>, WalkError>)
      requires Valid() && At(path, steps, effectiveNs) && |path| == depth <= MAX_WORKFLOW_REF_DEPTH
      requires step in steps && Read(TemplateKind, ref.In(effectiveNs)) in StepReads(store, Collect, step, effectiveNs)
      requires TemplateBody(store, Some(ref), effectiveNs) <= Bodies(store, Collect, step, effectiveNs)
      modifies this
      ensures r.Success? ==> Valid() && old(expanded) <= expanded && old(visited) <= visited
      ensures r.Success? ==> TemplateOk(store, root, Some(ref), effectiveNs)
      ensures r.Success? ==> BodiesCollected(store, root, old(visited), visited,
                                             TemplateBody(store, Some(ref), effectiveNs), effectiveNs, r.value)
      ensures r.Success? ==> FoundAt(r.value, origin)
      ensures r.Failure? ==> Justified(store, Collect, root, r.error)
      decreases store.workflows.Keys - visited, 3
    {
      hide ValidState, AtEnd, Justified, BodiesCollected, Bodies, StepReads, FoundAt;
      var tplStep := FetchStepTemplateStep(ref.In(effectiveNs));
      if tplStep.Failure? {
        ReadIsJustified(store, Collect, root, visited, expanded, path, steps, effectiveNs, step, tplStep.error.read);
        return Failure(tplStep.error);
      }
      r := FromRefFields(tplStep.value, effectiveNs, origin, depth, path, steps, step);
    }

    /** DirectRefs, with an error traced back to the step that needs the read. */
    method DirectRefsAt(b: LeafStep, effectiveNs: string, origin: string,
                        ghost path: seq<NamespacedName>, ghost steps: seq<Step>, ghost step: Step)
      returns (r: Result<seq<SecretRef>, WalkError>)
      requires Valid() && At(path, steps, effectiveNs)
      requires step in steps
      requires BodyReads(store, Collect, b, effectiveNs) <= StepReads(store, Collect, step, effectiveNs)
      ensures r.Success? ==> DirectCollected(store, root, b, effectiveNs, r.value) && FoundAt(r.value, origin)
      ensures r.Failure? ==> Justified(store, Collect, root, r.error)
    {
      hide ValidState, AtEnd, Justified, DirectCollected, StepReads, BodyReads, Faulty, FoundAt;
      r := DirectRefs(b, effectiveNs, origin);
      if r.Failure? {
        ReadIsJustified(store, Collect, root, visited, expanded, path, steps, effectiveNs, step, r.error.read);
      }
    }

    method FromForEach(fe: ForEach, effectiveNs: string, origin: string, depth: nat,
                       ghost path: seq<NamespacedName>, ghost steps: seq<Step>, ghost step: Step)
      returns (r: Result<seq<SecretRef>, WalkError>)
      requires Valid() && At(path, steps, effectiveNs) && |path| == depth <= MAX_WORKFLOW_REF_DEPTH
      requires step in steps && step.forEach == Some(fe)
      modifies this
      ensures r.Success? ==> Valid() && old(expanded) <= expanded && old(visited) <= visited
      ensures r.Success? ==> TemplateOk(store, root, fe.stepTemplateRef, effectiveNs)
      ensures r.Success? ==> BodiesCollected(store, root, old(visited), visited, ForEachBodies(store, fe, effectiveNs),
                                             effectiveNs, r.value)
      ensures r.Success? ==> FoundAt(r.value, origin)
      ensures r.Failure? ==> Justified(store, Collect, root, r.error)
      decreases store.workflows.Keys - visited, 4
    {
      hide ValidState, AtEnd, Justified, BodiesCollected, Faulty, BodyReads, FoundAt;
      var refs := [];
      NothingFound(origin);
      ghost var before, had := visited, expanded;
      NoBodiesCollected(store, root, visited, effectiveNs);
      if fe.step.Some? {
        refs :- FromRefFields(fe.step.value, effectiveNs, origin + ".step", depth, path, steps, step);
        FoundBelow(refs, origin, ".step");
      }
      AtEndGrows(store, Collect, root, had, expanded, path, steps, effectiveNs);
      ghost var inline := if fe.step.Some? then {fe.step.value} else {};
      ghost var mid := visited;
      if fe.stepTemplateRef.Some? {
        var tplRefs :- StepTemplateRefSecretRefs(fe.stepTemplateRef.value, effectiveNs, origin + ".stepTemplateRef",
                                                 depth,
                                                 path, steps, step);
        BodiesThen(store, root, before, mid, visited, inline, TemplateBody(store, fe.stepTemplateRef, effectiveNs),
                   effectiveNs, refs, tplRefs);
        FoundBelow(tplRefs, origin, ".stepTemplateRef");
        FoundAtConcat(refs, tplRefs, origin);
        refs := refs + tplRefs;
      } else {
        assert ForEachBodies(store, fe, effectiveNs) == inline;
      }
      return Success(refs);
    }

    method FromStep(step: Step, effectiveNs: string, origin: string, depth: nat,
                    ghost path: seq<NamespacedName>, ghost steps: seq<Step>)
      returns (r: Result<seq<SecretRef>, WalkError>)
      requires Valid() && At(path, steps, effectiveNs) && |path| == depth <= MAX_WORKFLOW_REF_DEPTH
      requires step in steps
      modifies this
      ensures r.Success? ==> Valid() && old(expanded) <= expanded && old(visited) <= visited
      ensures r.Success? ==> StepCollected(store, root, old(visited), visited, step, effectiveNs, r.value)
      ensures r.Success? ==> FoundAt(r.value, origin)
      ensures r.Failure? ==> Justified(store, Collect, root, r.error)
      decreases store.workflows.Keys - visited, 5
    {
      hide ValidState, AtEnd, Justified, BodiesCollected, DirectCollected, Collected, StepCollected, Faulty, BodyReads,
           FoundAt;
      NothingFound(origin);
      ghost var before, had := visited, expanded;
      var direct :- DirectRefsAt(step.body, effectiveNs, origin, path, steps, step);

      var tplRefs := [];
      NoBodiesCollected(store, root, visited, effectiveNs);
      if step.stepTemplateRef.Some? {
        tplRefs :- StepTemplateRefSecretRefs(step.stepTemplateRef.value, effectiveNs, origin + ".stepTemplateRef",
                                             depth,
                                             path, steps, step);
        FoundBelow(tplRefs, origin, ".stepTemplateRef");
      }
      ghost var afterTpl := visited;
      AtEndGrows(store, Collect, root, had, expanded, path, steps, effectiveNs);

      var wfRefs := [];
      NoWorkflow(store, root, visited, step.body, effectiveNs);
      if step.body.workflowRef.Some? {
        BodyReadsOfStep(store, Collect, step, step.body, effectiveNs);
        BodyTargetOfStep(store, Collect, steps, step, step.body, effectiveNs);
        WorkflowTarget(store, step.body, effectiveNs);
        wfRefs :- WorkflowRefSecretRefs(step.body.workflowRef.value, effectiveNs, origin + ".workflowRef", depth, path,
                                        steps, step);
        FoundBelow(wfRefs, origin, ".workflowRef");
      }
      ghost var afterWf := visited;
      AtEndGrows(store, Collect, root, had, expanded, path, steps, effectiveNs);

      var feRefs := [];
      if step.forEach.Some? {
        feRefs :- FromForEach(step.forEach.value, effectiveNs, origin + ".forEach", depth, path, steps, step);
        FoundBelow(feRefs, origin, ".forEach");
      }
      FoundAtConcat(direct, tplRefs, origin);
      FoundAtConcat(direct + tplRefs, wfRefs, origin);
      FoundAtConcat(direct + tplRefs + wfRefs, feRefs, origin);
      StepPartsCollected(store, root, before, afterTpl, afterWf, visited, step, effectiveNs, direct, tplRefs, wfRefs,
                         feRefs);
      return Success(direct + tplRefs + wfRefs + feRefs);
    }
  }

  // ---------------------------------------------------------------- the whole walk

  /** Exactly the kubeconfig reference and the references of the contexts below the root. */
  ghost predicate CollectedExactly(store: Store, root: Root, run: Run, refs: seq<SecretRef>) {
    forall x :: x in Bares(refs) <==> x in KubeconfigRefs(run) || RefBelow(store, root, x)
  }

  ghost predicate RefBelow(store: Store, root: Root, x: SecretRef) {
    exists steps, ns :: ContextBelow(store, Collect, root, steps, ns) && x in StepsRefs(store, steps, ns)
  }

  ghost predicate RefReached(store: Store, root: Root, x: SecretRef) {
    exists steps, ns :: Context(store, Collect, root, steps, ns) && x in StepsRefs(store, steps, ns)
  }

  /** What a completed walk of the root's steps adds up to. */
  lemma WalkIsExact(store: Store, root: Root, visited: set<NamespacedName>, expanded: seq<NamespacedName>,
                    run: Run, kube: seq<SecretRef>, refs: seq<SecretRef>)
    requires ValidState(store, Collect, root, visited, expanded)
    requires StepsCollected(store, root, {root.key}, visited, root.steps, root.ns, refs)
    requires Bares(kube) == KubeconfigRefs(run)
    ensures CollectedExactly(store, root, run, kube + refs) && NoFaultsBelow(store, Collect, root)
  {
    hide StepsRefs, Bares, Faulty, StepsReads, StepsTargets, KubeconfigRefs;
    BaresConcat(kube, refs);
    ExploredIsReachable(store, Collect, root, visited);
    var nodes := visited - {root.key};
    forall x
      ensures x in StepsRefs(store, root.steps, root.ns) + NodesRefs(store, nodes) <==> RefBelow(store, root, x)
    {
      if x in StepsRefs(store, root.steps, root.ns) {
        assert ContextBelow(store, Collect, root, root.steps, root.ns);
      } else if x in NodesRefs(store, nodes) {
        var v :| v in nodes && x in StepsRefs(store, NodeSteps(store, v), v.ns);
        assert ContextBelow(store, Collect, root, NodeSteps(store, v), v.ns);
      }
      if RefBelow(store, root, x) {
        var steps, ns :| ContextBelow(store, Collect, root, steps, ns) && x in StepsRefs(store, steps, ns);
        if !(steps == root.steps && ns == root.ns) {
          var v :| ReachableBelow(store, Collect, root, v) && NodeSteps(store, v) == steps && v.ns == ns;
          assert v in nodes;
        }
      }
    }
  }

  const KUBECONFIG_ORIGIN := "workflowRun.spec.clusterRef.kubeConfigSecretRef"

  /** Every origin names the run's kubeconfig field or begins with a step of the root Workflow. */
  ghost predicate OriginsNameSteps(refs: seq<SecretRef>, steps: seq<Step>) {
    forall r :: r in refs ==>
      || (r.isKubeconfig && r.origin == "workflowRun.spec.clusterRef.kubeConfigSecretRef")
      || exists s :: s in steps && "step \"" + s.name + "\"" <= r.origin
  }

  lemma OriginsSnoc(refs: seq<SecretRef>, stepRefs: seq<SecretRef>, steps: seq<Step>, step: Step)
    requires OriginsNameSteps(refs, steps) && step in steps && FoundAt(stepRefs, "step " + Quoted(step.name))
    ensures OriginsNameSteps(refs + stepRefs, steps)
  {
    var name := "step " + Quoted(step.name);
    assert name == "step \"" + step.name + "\"";
    assert forall r :: r in stepRefs ==> name <= r.origin;
  }

  method CollectSecretRefs(store: Store, key: NamespacedName, workflow: Workflow, run: Run)
    returns (r: Result<seq<SecretRef>, WalkError>)
    ensures r.Success? ==> CollectedExactly(store, Root(key, workflow.steps, run.ns), run, r.value)
    ensures r.Success? ==> NoFaultsBelow(store, Collect, Root(key, workflow.steps, run.ns))
    ensures r.Success? ==> OriginsNameSteps(r.value, workflow.steps)
    ensures r.Failure? ==> Justified(store, Collect, Root(key, workflow.steps, run.ns), r.error)
  {
    hide ValidState, AtEnd, StepsCollected, StepCollected, Justified, CollectedExactly, NoFaultsBelow, Bares,
         FoundAt, OriginsNameSteps;
    var steps := workflow.steps;
    ghost var root := Root(key, steps, run.ns);
    var kube := Refs(None);
    if run.kubeConfigSecretRef.Some? {
      var k := run.kubeConfigSecretRef.value.In(run.ns);
      kube := Refs(Some(SecretRef(k.ns, k.name, "", KUBECONFIG_ORIGIN, true, "", false, true)));
    }
    KubeconfigNamed(kube, steps);
    var w := new SecretRefWalker(store, root, key);
    var refs := [];
    assert kube + refs == kube;
    NoStepsCollected(store, root, {key}, run.ns);
    assert steps[..0] == [];
    for i := 0 to |steps|
      invariant w.store == store && w.root == root && w.Valid() && w.At([], steps, run.ns)
      invariant StepsCollected(store, root, {key}, w.visited, steps[..i], run.ns, refs)
      invariant OriginsNameSteps(kube + refs, steps)
    {
      ghost var mid, had := w.visited, w.expanded;
      var stepRefs :- w.FromStep(steps[i], run.ns, "step " + Quoted(steps[i].name), 0, [], steps);
      AtEndGrows(store, Collect, root, had, w.expanded, [], steps, run.ns);
      StepDone(store, root, {key}, mid, w.visited, steps, i, run.ns, refs, stepRefs);
      OriginsSnoc(kube + refs, stepRefs, steps, steps[i]);
      assert kube + (refs + stepRefs) == kube + refs + stepRefs;
      refs := refs + stepRefs;
    }
    assert steps[..|steps|] == steps;
    WalkIsExact(store, root, w.visited, w.expanded, run, kube, refs);
    return Success(kube + refs);
  }

  lemma KubeconfigNamed(kube: seq<SecretRef>, steps: seq<Step>)
    requires forall r :: r in kube ==> r.isKubeconfig && r.origin == KUBECONFIG_ORIGIN
    ensures OriginsNameSteps(kube, steps)
  {
  }

  /** Under the run's own namespace, cutting the walk at the root loses nothing. */
  lemma NothingHiddenBehindRoot(store: Store, root: Root, x: SecretRef)
    requires RootIsStored(store, root)
    ensures RefBelow(store, root, x) <==> RefReached(store, root, x)
  {
    if RefReached(store, root, x) {
      var steps, ns :| Context(store, Collect, root, steps, ns) && x in StepsRefs(store, steps, ns);
      ContextsBelowAreAll(store, Collect, root, steps, ns);
    }
    if RefBelow(store, root, x) {
      var steps, ns :| ContextBelow(store, Collect, root, steps, ns) && x in StepsRefs(store, steps, ns);
      ContextsBelowAreAll(store, Collect, root, steps, ns);
    }
  }

  ghost predicate StoredAs(store: Store, root: Root) {
    root.key in store.workflows && store.workflows[root.key] == Object(Workflow(root.steps))
  }

  ghost predicate CollectsAll(store: Store, root: Root) {
    forall x :: RefReached(store, root, x) ==> RefBelow(store, root, x)
  }

  lemma RefsSplit(store: Store, root: Root, x: SecretRef)
    ensures RefReached(store, root, x)
       <==> || RefBelow(store, root, x)
            || (Reachable(store, Collect, root, root.key) && RefBelow(store, Refetched(store, root), x))
  {
    hide Context, ContextBelow, Reachable, StepsRefs, Refetched;
    forall steps, ns { ContextsSplit(store, Collect, root, steps, ns); }
    if RefBelow(store, root, x) {
      var steps, ns :| ContextBelow(store, Collect, root, steps, ns) && x in StepsRefs(store, steps, ns);
      assert Context(store, Collect, root, steps, ns);
    }
    if Reachable(store, Collect, root, root.key) && RefBelow(store, Refetched(store, root), x) {
      var steps, ns :| ContextBelow(store, Collect, Refetched(store, root), steps, ns)
          && x in StepsRefs(store, steps, ns);
      assert Context(store, Collect, root, steps, ns);
    }
    if RefReached(store, root, x) {
      var steps, ns :| Context(store, Collect, root, steps, ns) && x in StepsRefs(store, steps, ns);
      assert || ContextBelow(store, Collect, root, steps, ns)
             || ContextBelow(store, Collect, Refetched(store, root), steps, ns);
    }
  }

  /** For any one run, the walk finds every reachable reference exactly when no chain of workflowRefs comes
      back to the root, or coming back to it would find nothing new. */
  lemma CollectsAllIff(store: Store, root: Root)
    ensures CollectsAll(store, root)
       <==> || !Reachable(store, Collect, root, root.key)
            || forall x :: RefBelow(store, Refetched(store, root), x) ==> RefBelow(store, root, x)
  {
    hide RefReached, RefBelow, Reachable, Refetched;
    forall x { RefsSplit(store, root, x); }
  }

  /** The walk marks the root under the Workflow's namespace but walks it under the run's. So it finds
      every reference of every stored Workflow exactly when the two namespaces agree. */
  lemma RunNamespaceMustMatch(key: NamespacedName, ns: string)
    requires key.ns != ""
    ensures (forall store, steps {:trigger StoredAs(store, Root(key, steps, ns))} ::
               StoredAs(store, Root(key, steps, ns)) ==> CollectsAll(store, Root(key, steps, ns)))
       <==> ns == key.ns
  {
    if ns == key.ns {
      forall store, steps, x | StoredAs(store, Root(key, steps, ns)) && RefReached(store, Root(key, steps, ns), x)
        ensures RefBelow(store, Root(key, steps, ns), x)
      {
        NothingHiddenBehindRoot(store, Root(key, steps, ns), x);
      }
    } else {
      SelfReferenceIsMissed(key, ns);
      var store, steps := SelfReferringStore(key), [SelfReferringStep(key)];
      assert StoredAs(store, Root(key, steps, ns));
      assert !CollectsAll(store, Root(key, steps, ns));
    }
  }

  /** A Workflow that refers to itself by its full name and reads a CA bundle of its namespace. */
  function SelfReferringStep(key: NamespacedName): Step {
    Step("again",
         LeafStep(Some(ExternalAgentRef(Some(ObjectRef("ca", "")), None)), None, None,
                  Some(ObjectRef(key.name, key.ns))),
         None, None, [], "")
  }

  function SelfReferringStore(key: NamespacedName): Store {
    Store(map[key := Object(Workflow([SelfReferringStep(key)]))], map[], map[], map[])
  }

  lemma SelfReferenceIsMissed(key: NamespacedName, ns: string)
    requires key.ns != "" && ns != key.ns
    ensures var root := Root(key, [SelfReferringStep(key)], ns);
            var missed := KeyedRef(key.ns, "ca", "ca.crt", "", true);
            RefReached(SelfReferringStore(key), root, missed) && !RefBelow(SelfReferringStore(key), root, missed)
  {
    var store, step := SelfReferringStore(key), SelfReferringStep(key);
    var steps := [step];
    var root := Root(key, steps, ns);
    var missed := KeyedRef(key.ns, "ca", "ca.crt", "", true);
    forall n ensures StepsBodies(store, Collect, steps, n) == {step.body} {
      assert Bodies(store, Collect, step, n) == {step.body};
    }
    forall n ensures StepsRefs(store, steps, n) == {KeyedRef(n, "ca", "ca.crt", "", true)} {
      BodiesRefsSingle(store, step.body, n);
    }
    forall n ensures StepsTargets(store, Collect, steps, n) == {key} {
    }
    assert IsPath(store, Collect, root, [key]);
    assert Reachable(store, Collect, root, key) by { assert [key][|[key]| - 1] == key; }
    assert Context(store, Collect, root, steps, key.ns);
    forall p | IsPath(store, Collect, root, p) ensures root.key in p {
      assert p[0] in StepsTargets(store, Collect, root.steps, root.ns);
    }
  }

  /** internal/workflow/controller/secret_refs.go validateSecretRefPolicy: a reference outside the
      run's namespace needs the allowlist, and a mounted one is never allowed there. */
  ghost predicate PolicyAllows(r: SecretRef, runNs: string, allowed: set<string>) {
    r.ns == runNs || (!r.needsRunnerMount && r.ns in allowed)
  }

  method ValidateSecretRefPolicy(refs: seq<SecretRef>, runNs: string, allowed: set<string>) returns (ok: bool)
    ensures ok <==> forall r :: r in refs ==> PolicyAllows(r, runNs, allowed)
  {
    for i := 0 to |refs|
      invariant forall j :: 0 <= j < i ==> PolicyAllows(refs[j], runNs, allowed)
    {
      var ref := refs[i];
      if ref.ns == runNs { continue; }
      if ref.needsRunnerMount {
        assert ref in refs;
        return false;
      }
      if ref.ns in allowed { continue; }
      assert ref in refs;
      return false;
    }
    return true;
  }
}
