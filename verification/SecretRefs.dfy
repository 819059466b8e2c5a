/** internal/workflow/controller/secret_refs.go: the Secret references of one resource, and the sets of
    references that a body, a list of steps or a set of Workflows holds. */
module SecretRefs {
  import opened Wrappers
  import opened Cluster
  import opened Reachability
  import opened Text

  datatype SecretRef = SecretRef(
    ns: string, name: string, key: string, origin: string,
    isKubeconfig: bool, envVarName: string, optional: bool, needsRunnerMount: bool)
  {
    /** The reference without the text saying where it came from. */
    function Bare(): SecretRef { this.(origin := "") }
  }

  /** WorkflowRun.spec.clusterRef.kubeConfigSecretRef and the run's namespace. */
  datatype Run = Run(ns: string, kubeConfigSecretRef: Option<ObjectRef>)

  function KeyedRef(ns: string, name: string, key: string, origin: string, mount: bool): SecretRef {
    SecretRef(ns, name, key, origin, false, "", false, mount)
  }

  function Quoted(s: string): string { "\"" + s + "\"" }

  // ---------------------------------------------------------------- reference sets

  ghost function Bares(refs: seq<SecretRef>): set<SecretRef> {
    set r | r in refs :: r.Bare()
  }

  lemma BaresConcat(a: seq<SecretRef>, b: seq<SecretRef>)
    ensures Bares(a + b) == Bares(a) + Bares(b)
  {
    forall x | x in Bares(a) + Bares(b) ensures x in Bares(a + b) {
      if x in Bares(a) {
        var r :| r in a && r.Bare() == x;
        assert r in a + b;
      } else {
        var r :| r in b && r.Bare() == x;
        assert r in a + b;
      }
    }
  }

  lemma BaresSingle(r: SecretRef)
    ensures Bares([r]) == {r.Bare()}
  {
  }

  lemma BaresPair(r: SecretRef, s: SecretRef)
    ensures Bares([r, s]) == {r.Bare(), s.Bare()}
  {
    BaresConcat([r], [s]);
    assert [r, s] == [r] + [s];
  }

  /** At most one reference, or a pair sharing an origin. */
  function Refs(r: Option<SecretRef>): (refs: seq<SecretRef>)
    ensures Bares(refs) == if r.None? then {} else {r.value.Bare()}
  {
    if r.None? then assert Bares([]) == {}; [] else BaresSingle(r.value); [r.value]
  }

  function KeyPair(ns: string, name: string, key1: string, key2: string, origin: string, mount: bool)
    : (refs: seq<SecretRef>)
    ensures Bares(refs) == {KeyedRef(ns, name, key1, "", mount), KeyedRef(ns, name, key2, "", mount)}
  {
    BaresPair(KeyedRef(ns, name, key1, origin, mount), KeyedRef(ns, name, key2, origin, mount));
    [KeyedRef(ns, name, key1, origin, mount), KeyedRef(ns, name, key2, origin, mount)]
  }

  // ---------------------------------------------------------------- origins

  /** Every reference says that it was found at `origin` or below it. */
  ghost predicate FoundAt(refs: seq<SecretRef>, origin: string) {
    forall r :: r in refs ==> HasPrefix(r.origin, origin)
  }

  lemma FoundAtConcat(a: seq<SecretRef>, b: seq<SecretRef>, origin: string)
    requires FoundAt(a, origin) && FoundAt(b, origin)
    ensures FoundAt(a + b, origin)
  {
  }

  lemma FoundBelow(refs: seq<SecretRef>, origin: string, part: string)
    requires FoundAt(refs, origin + part)
    ensures FoundAt(refs, origin)
  {
    forall r | r in refs ensures HasPrefix(r.origin, origin) {
      assert origin == (origin + part)[..|origin|] == r.origin[..|origin|];
    }
  }

  // ---------------------------------------------------------------- the references of one object

  ghost function ExternalRefs(ref: Option<ExternalAgentRef>, ns: string): set<SecretRef> {
    if ref.None? then {} else
    (if ref.value.caSecretRef.Some? then
       var k := ref.value.caSecretRef.value.In(ns);
       {KeyedRef(k.ns, k.name, "ca.crt", "", true)}
     else {}) +
    (if ref.value.authSecretRef.Some? then
       var sr := ref.value.authSecretRef.value;
       {KeyedRef(sr.Ns(ns), sr.name, sr.key, "", true)}
     else {})
  }

  ghost function EnvRefs(env: seq<EnvVar>, ns: string, mount: bool): set<SecretRef> {
    set ev | ev in env && ev.secretKeyRef.Some? ::
      SecretRef(ns, ev.secretKeyRef.value.name, ev.secretKeyRef.value.key, "", false, ev.name,
                ev.secretKeyRef.value.optional, mount)
  }

  function EnvRef(ev: EnvVar, ns: string, base: string, mount: bool): seq<SecretRef> {
    if ev.secretKeyRef.None? then []
    else
      var sel := ev.secretKeyRef.value;
      [SecretRef(ns, sel.name, sel.key, base + " env " + Quoted(ev.name), false, ev.name, sel.optional, mount)]
  }

  /** The references of an environment, in its order. */
  function EnvRefList(env: seq<EnvVar>, ns: string, base: string, mount: bool): seq<SecretRef> {
    if env == [] then [] else EnvRefList(env[..|env| - 1], ns, base, mount) + EnvRef(env[|env| - 1], ns, base, mount)
  }

  lemma {:induction false} EnvRefListIs(env: seq<EnvVar>, ns: string, base: string, mount: bool)
    ensures Bares(EnvRefList(env, ns, base, mount)) == EnvRefs(env, ns, mount)
    ensures FoundAt(EnvRefList(env, ns, base, mount), base)
  {
    if env != [] {
      hide EnvRef, EnvRefs, Bares, FoundAt;
      var init, ev := env[..|env| - 1], env[|env| - 1];
      assert env == init + [ev];
      EnvRefListIs(init, ns, base, mount);
      EnvRefIs(init, ev, ns, base, mount);
      BaresConcat(EnvRefList(init, ns, base, mount), EnvRef(ev, ns, base, mount));
      FoundAtConcat(EnvRefList(init, ns, base, mount), EnvRef(ev, ns, base, mount), base);
    }
  }

  lemma EnvRefIs(init: seq<EnvVar>, ev: EnvVar, ns: string, base: string, mount: bool)
    ensures EnvRefs(init + [ev], ns, mount) == EnvRefs(init, ns, mount) + Bares(EnvRef(ev, ns, base, mount))
    ensures FoundAt(EnvRef(ev, ns, base, mount), base)
  {
    hide Quoted;
    if ev.secretKeyRef.Some? { BaresSingle(EnvRef(ev, ns, base, mount)[0]); }
  }

  ghost function AuthRefs(auth: AuthConfig, ns: string, mount: bool): set<SecretRef> {
    OwnAuthRefs(auth, ns, mount) + OAuth2Refs(auth.oauth2, ns, mount)
  }

  ghost function OwnAuthRefs(auth: AuthConfig, ns: string, mount: bool): set<SecretRef> {
    if auth.secretRef.None? then {}
    else
      var sr := auth.secretRef.value;
      if auth.kind == "basic" then
        {KeyedRef(sr.Ns(ns), sr.name, "username", "", mount), KeyedRef(sr.Ns(ns), sr.name, "password", "", mount)}
      else {KeyedRef(sr.Ns(ns), sr.name, sr.key, "", mount)}
  }

  ghost function OAuth2Refs(oauth2: Option<OAuth2Config>, ns: string, mount: bool): set<SecretRef> {
    if oauth2.None? then {}
    else ClientSecretBares(oauth2.value, ns, mount) + ClientCredentialsBares(oauth2.value, ns, mount)
  }

  ghost function ClientSecretBares(oauth2: OAuth2Config, ns: string, mount: bool): set<SecretRef> {
    if oauth2.clientSecretRef.None? then {}
    else var sr := oauth2.clientSecretRef.value;
         {KeyedRef(sr.Ns(ns), sr.name, sr.key, "", mount)}
  }

  ghost function ClientCredentialsBares(oauth2: OAuth2Config, ns: string, mount: bool): set<SecretRef> {
    if oauth2.clientCredentialsRef.None? then {}
    else var k := oauth2.clientCredentialsRef.value.In(ns);
         {KeyedRef(k.ns, k.name, "client_id", "", mount), KeyedRef(k.ns, k.name, "client_secret", "", mount)}
  }

  ghost function ServerRefs(store: Store, key: NamespacedName, mount: bool): set<SecretRef> {
    if !Found(store.servers, key) then {} else
    var server := store.servers[key].spec;
    EnvRefs(server.env, key.ns, mount) +
    (if server.auth.Some? then AuthRefs(server.auth.value, key.ns, mount) else {})
  }

  /** An Agent's MCP servers resolve in the Agent's namespace and are never mounted for the runner. */
  ghost function AgentRefs(store: Store, key: NamespacedName): set<SecretRef> {
    if !Found(store.agents, key) then {} else
    set s, b | s in AgentServers(store.agents[key].spec, key.ns) && b in ServerRefs(store, s, false) :: b
  }

  ghost function BodyRefs(store: Store, b: LeafStep, ns: string): set<SecretRef> {
    ExternalRefs(b.externalAgentRef, ns) +
    (if b.mcpToolCall.Some? && b.mcpToolCall.value != ""
     then ServerRefs(store, NamespacedName(ns, b.mcpToolCall.value), true) else {}) +
    (if b.agentRef.Some? then AgentRefs(store, b.agentRef.value.In(ns)) else {})
  }

  // ---------------------------------------------------------------- namespaces, on the fields as written

  /** A reference's own namespace, or its consumer's when it names none. */
  predicate Lands(ns: string, written: string, consumer: string) {
    ns == if written != "" then written else consumer
  }

  /** Each reference of an auth block names the Secret and the namespace that its field names. */
  lemma AuthRefsLand(auth: AuthConfig, ns: string, mount: bool)
    ensures auth.secretRef.Some? ==>
              var sr := auth.secretRef.value;
              && OwnAuthRefs(auth, ns, mount) != {}
              && forall r :: r in OwnAuthRefs(auth, ns, mount) ==> r.name == sr.name && Lands(r.ns, sr.ns, ns)
    ensures auth.oauth2.Some? && auth.oauth2.value.clientSecretRef.Some? ==>
              var sr := auth.oauth2.value.clientSecretRef.value;
              && ClientSecretBares(auth.oauth2.value, ns, mount) != {}
              && forall r :: r in ClientSecretBares(auth.oauth2.value, ns, mount) ==>
                   r.name == sr.name && r.key == sr.key && Lands(r.ns, sr.ns, ns)
    ensures auth.oauth2.Some? && auth.oauth2.value.clientCredentialsRef.Some? ==>
              var ref := auth.oauth2.value.clientCredentialsRef.value;
              && ClientCredentialsBares(auth.oauth2.value, ns, mount) != {}
              && forall r :: r in ClientCredentialsBares(auth.oauth2.value, ns, mount) ==>
                   r.name == ref.name && Lands(r.ns, ref.ns, ns)
  {
    if auth.secretRef.Some? {
      var sr := auth.secretRef.value;
      var key := if auth.kind == "basic" then "username" else sr.key;
      assert KeyedRef(if sr.ns != "" then sr.ns else ns, sr.name, key, "", mount) in OwnAuthRefs(auth, ns, mount);
    }
    if auth.oauth2.Some? && auth.oauth2.value.clientSecretRef.Some? {
      var sr := auth.oauth2.value.clientSecretRef.value;
      assert KeyedRef(if sr.ns != "" then sr.ns else ns, sr.name, sr.key, "", mount)
          in ClientSecretBares(auth.oauth2.value, ns, mount);
    }
    if auth.oauth2.Some? && auth.oauth2.value.clientCredentialsRef.Some? {
      var ref := auth.oauth2.value.clientCredentialsRef.value;
      assert KeyedRef(if ref.ns != "" then ref.ns else ns, ref.name, "client_id", "", mount)
          in ClientCredentialsBares(auth.oauth2.value, ns, mount);
    }
  }

  /** They are mandatory, no kubeconfigs, without a variable, and mounted when the server is called directly. */
  lemma AuthRefsAreKeyed(auth: AuthConfig, ns: string, mount: bool)
    ensures forall r :: r in AuthRefs(auth, ns, mount) ==>
              r == SecretRef(r.ns, r.name, r.key, "", false, "", false, mount)
  {
  }

  /** The same for an external agent: the key ca.crt of its CA Secret, and its token. */
  lemma ExternalRefsLand(ref: ExternalAgentRef, ns: string)
    ensures ref.caSecretRef.Some? ==>
              var ca := ref.caSecretRef.value;
              KeyedRef(if ca.ns != "" then ca.ns else ns, ca.name, "ca.crt", "", true) in ExternalRefs(Some(ref), ns)
    ensures ref.authSecretRef.Some? ==>
              var sr := ref.authSecretRef.value;
              KeyedRef(if sr.ns != "" then sr.ns else ns, sr.name, sr.key, "", true) in ExternalRefs(Some(ref), ns)
    ensures forall r :: r in ExternalRefs(Some(ref), ns) ==>
              || (ref.caSecretRef.Some? && r.name == ref.caSecretRef.value.name && r.key == "ca.crt"
                  && Lands(r.ns, ref.caSecretRef.value.ns, ns))
              || (ref.authSecretRef.Some? && r.name == ref.authSecretRef.value.name
                  && r.key == ref.authSecretRef.value.key && Lands(r.ns, ref.authSecretRef.value.ns, ns))
    ensures forall r :: r in ExternalRefs(Some(ref), ns) ==>
              r == SecretRef(r.ns, r.name, r.key, "", false, "", false, true)
  {
  }

  /** The namespaces that the mounted reference fields of a body name outright: those of its external
      agent, and of the auth block of the server it calls. */
  ghost function WrittenNamespaces(store: Store, b: LeafStep, ns: string): set<string> {
    (if b.externalAgentRef.Some? && b.externalAgentRef.value.caSecretRef.Some?
     then {b.externalAgentRef.value.caSecretRef.value.ns} else {}) +
    (if b.externalAgentRef.Some? && b.externalAgentRef.value.authSecretRef.Some?
     then {b.externalAgentRef.value.authSecretRef.value.ns} else {}) +
    (if b.mcpToolCall.Some? && b.mcpToolCall.value != "" && NamespacedName(ns, b.mcpToolCall.value) in store.servers
        && store.servers[NamespacedName(ns, b.mcpToolCall.value)].Object?
        && store.servers[NamespacedName(ns, b.mcpToolCall.value)].spec.auth.Some?
     then AuthNamespaces(store.servers[NamespacedName(ns, b.mcpToolCall.value)].spec.auth.value) else {})
  }

  ghost function AuthNamespaces(auth: AuthConfig): set<string> {
    (if auth.secretRef.Some? then {auth.secretRef.value.ns} else {}) +
    (if auth.oauth2.Some? && auth.oauth2.value.clientSecretRef.Some?
     then {auth.oauth2.value.clientSecretRef.value.ns} else {}) +
    (if auth.oauth2.Some? && auth.oauth2.value.clientCredentialsRef.Some?
     then {auth.oauth2.value.clientCredentialsRef.value.ns} else {})
  }

  lemma AuthNamespaceIsRead(auth: AuthConfig, ns: string, written: string) returns (r: SecretRef)
    requires written in AuthNamespaces(auth) && written != ""
    ensures r in AuthRefs(auth, ns, true) && r.ns == written && r.needsRunnerMount
  {
    AuthRefsLand(auth, ns, true);
    if auth.secretRef.Some? && written == auth.secretRef.value.ns {
      r :| r in OwnAuthRefs(auth, ns, true);
    } else if auth.oauth2.value.clientSecretRef.Some? && written == auth.oauth2.value.clientSecretRef.value.ns {
      r :| r in ClientSecretBares(auth.oauth2.value, ns, true);
    } else {
      r :| r in ClientCredentialsBares(auth.oauth2.value, ns, true);
    }
  }

  /** A namespace written in a body is the namespace of one of its mounted references. */
  lemma WrittenNamespaceIsRead(store: Store, b: LeafStep, ns: string, written: string) returns (r: SecretRef)
    requires written in WrittenNamespaces(store, b, ns) && written != ""
    ensures r in BodyRefs(store, b, ns) && r.ns == written && r.needsRunnerMount
  {
    hide AuthRefs, EnvRefs, AgentRefs, AuthNamespaces;
    if b.externalAgentRef.Some? {
      ExternalRefsLand(b.externalAgentRef.value, ns);
    }
    if b.externalAgentRef.Some? && b.externalAgentRef.value.caSecretRef.Some?
       && written == b.externalAgentRef.value.caSecretRef.value.ns {
      r := KeyedRef(written, b.externalAgentRef.value.caSecretRef.value.name, "ca.crt", "", true);
    } else if b.externalAgentRef.Some? && b.externalAgentRef.value.authSecretRef.Some?
              && written == b.externalAgentRef.value.authSecretRef.value.ns {
      var sr := b.externalAgentRef.value.authSecretRef.value;
      r := KeyedRef(written, sr.name, sr.key, "", true);
    } else {
      r := AuthNamespaceIsRead(store.servers[NamespacedName(ns, b.mcpToolCall.value)].spec.auth.value, ns, written);
    }
  }

  ghost function BodiesRefs(store: Store, bodies: set<LeafStep>, ns: string): set<SecretRef> {
    set b, r | b in bodies && r in BodyRefs(store, b, ns) :: r
  }

  ghost function StepsRefs(store: Store, steps: seq<Step>, ns: string): set<SecretRef> {
    BodiesRefs(store, StepsBodies(store, Collect, steps, ns), ns)
  }

  /** The references of a set of stored Workflows, each under its own namespace. */
  ghost function NodesRefs(store: Store, nodes: set<NamespacedName>): set<SecretRef> {
    set v, r | v in nodes && r in StepsRefs(store, NodeSteps(store, v), v.ns) :: r
  }

  ghost function KubeconfigRefs(run: Run): set<SecretRef> {
    if run.kubeConfigSecretRef.None? then {} else
    var k := run.kubeConfigSecretRef.value.In(run.ns);
    {SecretRef(k.ns, k.name, "", "", true, "", false, true)}
  }

  lemma BodiesRefsUnion(store: Store, a: set<LeafStep>, b: set<LeafStep>, ns: string)
    ensures BodiesRefs(store, a + b, ns) == BodiesRefs(store, a, ns) + BodiesRefs(store, b, ns)
  {
  }

  lemma BodiesRefsSingle(store: Store, b: LeafStep, ns: string)
    ensures BodiesRefs(store, {b}, ns) == BodyRefs(store, b, ns)
  {
  }

  lemma NodesRefsUnion(store: Store, a: set<NamespacedName>, b: set<NamespacedName>)
    ensures NodesRefs(store, a + b) == NodesRefs(store, a) + NodesRefs(store, b)
  {
  }

  lemma StepsRefsSnoc(store: Store, steps: seq<Step>, i: nat, ns: string)
    requires i < |steps|
    ensures StepsRefs(store, steps[..i + 1], ns)
         == StepsRefs(store, steps[..i], ns) + BodiesRefs(store, Bodies(store, Collect, steps[i], ns), ns)
    ensures StepsTargets(store, Collect, steps[..i + 1], ns)
         == StepsTargets(store, Collect, steps[..i], ns) + Targets(Bodies(store, Collect, steps[i], ns), ns)
    ensures StepsReads(store, Collect, steps[..i + 1], ns)
         == StepsReads(store, Collect, steps[..i], ns) + StepReads(store, Collect, steps[i], ns)
  {
    hide Bodies, StepReads, BodiesRefs, Targets;
    var init, b := steps[..i], Bodies(store, Collect, steps[i], ns);
    assert steps[..i + 1] == init + [steps[i]];
    assert StepsBodies(store, Collect, steps[..i + 1], ns) == StepsBodies(store, Collect, init, ns) + b;
    BodiesRefsUnion(store, StepsBodies(store, Collect, init, ns), b, ns);
    TargetsUnion(StepsBodies(store, Collect, init, ns), b, ns);
  }

  lemma TargetsUnion(a: set<LeafStep>, b: set<LeafStep>, ns: string)
    ensures Targets(a + b, ns) == Targets(a, ns) + Targets(b, ns)
  {
  }
}
