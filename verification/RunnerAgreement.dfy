/** The controller and the runner agree: what the runner reads from the files the controller mounted is
    what it would have read from the API. */
module RunnerAgreement {
  import opened Wrappers
  import opened Text
  import opened Cluster
  import opened Paths
  import opened Reachability
  import opened WalkState
  import opened SecretMount
  import opened SecretRefs
  import opened SecretRefWalk
  import opened SecretMounts
  import opened MountLayout
  import opened RunnerConfig

  // ---------------------------------------------------------------- the pod

  /** The runner pod beside its generated volumes: the Secrets of the cluster, and the mount paths and
      files that spec.execution.job adds. */
  datatype Pod = Pod(ns: string, secrets: Secrets, otherMounts: set<string>, otherFiles: map<string, string>)

  /** Mandatory volumes keep the pod from starting until their Secret and every listed key exist. */
  ghost predicate PodStarts(l: Layout, pod: Pod) {
    forall i :: 0 <= i < |l.volumes| && !l.volumes[i].optional ==> VolumeReady(l.volumes[i], pod)
  }

  ghost predicate VolumeReady(v: Volume, pod: Pod) {
    && (pod.ns, v.secretName) in pod.secrets
    && forall it :: it in v.items ==> it.key in pod.secrets[(pod.ns, v.secretName)]
  }

  /** Volume `i` puts `content`, found under `key` of its Secret, in the file `path`. */
  ghost predicate VolumeFile(l: Layout, pod: Pod, i: nat, key: string, path: string, content: string) {
    && i < |l.volumes| == |l.mounts|
    && (pod.ns, l.volumes[i].secretName) in pod.secrets
    && key in pod.secrets[(pod.ns, l.volumes[i].secretName)]
    && content == pod.secrets[(pod.ns, l.volumes[i].secretName)][key]
    && if l.volumes[i].items == [] then path == l.mounts[i].mountPath + "/" + key
       else exists it :: it in l.volumes[i].items && it.key == key && path == l.mounts[i].mountPath + "/" + it.path
  }

  ghost predicate FileHolds(l: Layout, pod: Pod, path: string, content: string) {
    exists i: nat, key :: VolumeFile(l, pod, i, key, path, content)
  }

  /** Of two mounts above a path the deeper one provides it. */
  ghost predicate Shadows(l: Layout, other: string, path: string) {
    && Under(path, other)
    && forall i :: 0 <= i < |l.mounts| && Under(path, l.mounts[i].mountPath) ==>
         |Resolved(l.mounts[i].mountPath)| <= |Resolved(other)|
  }

  ghost predicate Shadowed(l: Layout, pod: Pod, path: string) {
    exists other :: other in pod.otherMounts && Shadows(l, other, path)
  }

  ghost predicate Unshadowed(l: Layout, pod: Pod) {
    forall x :: x in l.lookup ==> !Shadowed(l, pod, l.lookup[x])
  }

  /** internal/secretmount/mounts.go Mounts.ReadFile, on the files of the pod. */
  ghost function ReadFile(l: Layout, pod: Pod, ns: string, name: string, key: string): Lookup {
    if Key(ns, name, key) !in l.lookup then NotFound
    else
      var path := l.lookup[Key(ns, name, key)];
      if Shadowed(l, pod, path) then
        if path in pod.otherFiles then Value(pod.otherFiles[path]) else NotFound
      else if exists content :: FileHolds(l, pod, path, content)
      then var content :| FileHolds(l, pod, path, content); Value(content)
      else NotFound
  }

  // ---------------------------------------------------------------- one key

  lemma KubeconfigDirCut(k: string, j: nat, k': string)
    ensures KUBECONFIG_DIR + "/" + k != Dir(j) + "/" + k'
  {
    hide Itoa;
    var n := |SECRET_MOUNT_BASE_DIR + "/"|;
    assert IsDigit(Itoa(j)[0]) && "kubeconfig"[0] == 'k';
    if KUBECONFIG_DIR + "/" + k == Dir(j) + "/" + k' {
      assert (KUBECONFIG_DIR + "/" + k)[n..] == "kubeconfig" + ['/'] + k;
      assert (Dir(j) + "/" + k')[n..] == Itoa(j) + ['/'] + k';
      CutUnique("kubeconfig", k, Itoa(j), k', '/');
    }
  }

  /** No other generated volume puts a file at the path of a projected key. */
  lemma FileIsUnique(refs: seq<SecretRef>, pod: Pod, i: nat, name: string, key: string, path: string,
                     i': nat, key': string, content: string)
    requires ProjectsKey(LayoutOf(refs, pod.ns), i, name, key, path)
    requires VolumeFile(LayoutOf(refs, pod.ns), pod, i', key', path, content)
    ensures i' == i && key' == key
  {
    hide LayoutOf, Plan, GroupKeys, NameOf, VolumeName, Dir, Base;
    var l, base := LayoutOf(refs, pod.ns), Base(refs);
    VolumeGroup(refs, pod.ns, i);
    VolumeGroup(refs, pod.ns, i');
    if i' < base {
      KubeconfigDirCut(key', i - base, key);
    } else if l.volumes[i'].items != [] {
      DirCut(i - base, key, i' - base, key');
    } else {
      GroupIsNotEmpty(refs, pod.ns, i');
    }
  }

  lemma GroupIsNotEmpty(refs: seq<SecretRef>, runNs: string, i: nat)
    requires Base(refs) <= i < |LayoutOf(refs, runNs).volumes|
    ensures LayoutOf(refs, runNs).volumes[i].items != []
  {
    hide LayoutOf, Plan, GroupKeys, NameOf, VolumeName, Dir, Base;
    VolumeGroup(refs, runNs, i);
    PlanMembers(refs);
    var g := Plan(refs)[i - Base(refs)];
    assert g in Plan(refs);
    var k :| k in GroupKeys(refs, g);
    assert Item(k, k) in LayoutOf(refs, runNs).volumes[i].items;
  }

  /** What the generated volumes hold at the path of a mounted reference is what the API serves. */
  lemma VolumesHoldSecret(refs: seq<SecretRef>, pod: Pod, r: SecretRef, i: nat, path: string, content: string)
    requires ProjectsKey(LayoutOf(refs, pod.ns), i, r.name, r.key, path) && r.ns == pod.ns
    ensures FileHolds(LayoutOf(refs, pod.ns), pod, path, content)
       <==> ResolveFromAPI(pod.secrets, r.ns, r.name, r.key) == Value(content)
  {
    hide LayoutOf;
    var l := LayoutOf(refs, pod.ns);
    if FileHolds(l, pod, path, content) {
      var i': nat, key' :| VolumeFile(l, pod, i', key', path, content);
      FileIsUnique(refs, pod, i, r.name, r.key, path, i', key', content);
    }
    if ResolveFromAPI(pod.secrets, r.ns, r.name, r.key) == Value(content) {
      assert VolumeFile(l, pod, i, r.key, path, content);
    }
  }

  /** For a reference that was mounted, reading the file and reading the API give the same answer, the
      value or its absence, whatever other files the pod has, exactly when no other mount covers the path. */
  lemma FileEqualsAPI(refs: seq<SecretRef>, pod: Pod, r: SecretRef)
    requires NoBadRefs(refs, pod.ns) && r in refs && Mountable(r)
    ensures Key(r.ns, r.name, r.key) in LayoutOf(refs, pod.ns).lookup
    ensures !Shadowed(LayoutOf(refs, pod.ns), pod, LayoutOf(refs, pod.ns).lookup[Key(r.ns, r.name, r.key)])
       <==> forall files :: ReadFile(LayoutOf(refs, pod.ns), pod.(otherFiles := files), r.ns, r.name, r.key)
                         == ResolveFromAPI(pod.secrets, r.ns, r.name, r.key)
  {
    hide LayoutOf, Key, BadRef, ProjectsKey, FileHolds, ResolveFromAPI, Shadows;
    var l := LayoutOf(refs, pod.ns);
    var i := RefIsMounted(refs, pod.ns, r);
    MountedNs(r, pod.ns);
    assert !BadRef(r, pod.ns);
    var path := l.lookup[Key(r.ns, r.name, r.key)];
    ResolveIsValueOrNotFound(pod.secrets, r.ns, r.name, r.key);
    forall files ensures Shadowed(l, pod.(otherFiles := files), path) <==> Shadowed(l, pod, path) {
    }
    if Shadowed(l, pod, path) {
      var wrong := OtherFiles(path, ResolveFromAPI(pod.secrets, r.ns, r.name, r.key));
      assert ReadFile(l, pod.(otherFiles := wrong), r.ns, r.name, r.key)
          != ResolveFromAPI(pod.secrets, r.ns, r.name, r.key);
    } else {
      forall files, content ensures FileHolds(l, pod.(otherFiles := files), path, content)
                               <==> ResolveFromAPI(pod.secrets, r.ns, r.name, r.key) == Value(content)
      {
        VolumesHoldSecret(refs, pod.(otherFiles := files), r, i, path, content);
      }
    }
  }

  /** In a pod that has started, a key that some reference demands is there, and uncovered files have its value. */
  lemma DemandedKeyIsPresent(refs: seq<SecretRef>, pod: Pod, r: SecretRef)
    requires NoBadRefs(refs, pod.ns) && r in refs && Mountable(r) && !r.optional
    requires PodStarts(LayoutOf(refs, pod.ns), pod) && Unshadowed(LayoutOf(refs, pod.ns), pod)
    ensures (r.ns, r.name) in pod.secrets && r.key in pod.secrets[(r.ns, r.name)]
    ensures ReadFile(LayoutOf(refs, pod.ns), pod, r.ns, r.name, r.key) == Value(pod.secrets[(r.ns, r.name)][r.key])
  {
    hide LayoutOf, Key, BadRef, FileHolds, Shadowed, ReadFile;
    var i := RefIsMounted(refs, pod.ns, r);
    MountedNs(r, pod.ns);
    assert !BadRef(r, pod.ns);
    FileEqualsAPI(refs, pod, r);
    assert pod.(otherFiles := pod.otherFiles) == pod;
    assert VolumeReady(LayoutOf(refs, pod.ns).volumes[i], pod);
  }

  /** Files of another mount that give a wrong answer at `path`. */
  function OtherFiles(path: string, right: Lookup): map<string, string> {
    if right.Value? then map[] else map[path := ""]
  }

  lemma ResolveIsValueOrNotFound(secrets: Secrets, ns: string, name: string, key: string)
    ensures !ResolveFromAPI(secrets, ns, name, key).Broken?
  {
  }

  lemma DirIsBelowBase(j: nat)
    ensures Under(Dir(j), SECRET_MOUNT_BASE_DIR)
  {
    hide Resolved;
    NumberIsPlain(j);
    ResolvedChild(SECRET_MOUNT_BASE_DIR, Itoa(j));
  }

  /** Job mounts that stay out of the base directory, however they are spelled, cover no generated path. */
  lemma OutsideIsUnshadowed(refs: seq<SecretRef>, pod: Pod)
    requires NoBadRefs(refs, pod.ns)
    requires forall other :: other in pod.otherMounts ==> !Under(other, SECRET_MOUNT_BASE_DIR)
    ensures Unshadowed(LayoutOf(refs, pod.ns), pod)
  {
    hide LayoutOf, NoBadRefs, VolumeName, Base, Plan, GroupKeys, NameOf, Dir, Resolved;
    var l := LayoutOf(refs, pod.ns);
    forall x, other | x in l.lookup && Shadows(l, other, l.lookup[x]) ensures Under(other, SECRET_MOUNT_BASE_DIR) {
      var j, k := EntryIsOfGroup(refs, pod.ns, x);
      GroupVolume(refs, pod.ns, j);
      ResolvedChild(Dir(j), k);
      DirIsBelowBase(j);
      assert l.mounts[Base(refs) + j].mountPath == Dir(j) && Under(l.lookup[x], Dir(j));
      PrefixesNest(Resolved(SECRET_MOUNT_BASE_DIR), Resolved(Dir(j)), Resolved(other), Resolved(l.lookup[x]));
    }
  }

  lemma PrefixesNest<T>(base: seq<T>, dir: seq<T>, other: seq<T>, path: seq<T>)
    requires base <= dir <= path && other <= path && |dir| <= |other|
    ensures base <= other
  {
  }

  lemma EntryIsOfGroup(refs: seq<SecretRef>, runNs: string, x: string) returns (j: nat, k: string)
    requires NoBadRefs(refs, runNs) && x in LayoutOf(refs, runNs).lookup
    ensures j < |Plan(refs)| && LayoutOf(refs, runNs).lookup[x] == Dir(j) + "/" + k && PlainName(k)
  {
    hide BadRef, Plan, NameOf, Dir, LayoutOfPlan, WellNamed;
    PlanMembers(refs);
    PlanIsWellNamed(refs, runNs);
    LookupShape(refs, runNs, Plan(refs));
    assert HasEntry(refs, runNs, Plan(refs), x);
    j, k :| EntryOf(refs, runNs, Plan(refs), j, k, x);
    var g := Plan(refs)[j];
    assert k in KeysOf(refs, g.id, g.optional);
    var r :| r in refs && InGroup(r, g.id, g.optional) && r.key == k;
    ValidKeyIsPlain(r, runNs);
  }

  lemma ValidKeyIsPlain(r: SecretRef, runNs: string)
    requires Mountable(r) && !BadRef(r, runNs)
    ensures PlainName(r.key)
  {
    assert ValidDataKey(r.key);
    assert ".." <= "..";
  }

  /** A mount that spells a generated path in another way covers it, although as a text it is neither that
      path nor a directory above it. */
  lemma OtherSpellingShadows(l: Layout, j: nat, k: string)
    requires PlainName(k)
    ensures var path, other := Dir(j) + "/" + k, Dir(j) + "/" + ("./" + k);
            other != path && !HasPrefix(path, other + "/") && Under(other, Dir(j)) && Shadows(l, other, path)
  {
    hide Resolved, Dir;
    var path, other := Dir(j) + "/" + k, Dir(j) + "/" + ("./" + k);
    assert |other| == |path| + 2;
    OtherSpellings(Dir(j), k);
    ResolvedChild(Dir(j), k);
  }

  // ---------------------------------------------------------------- one server

  /** The collector's own reading of a server's spec covers the runner's. */
  lemma ServerKeysAreCollected(store: Store, key: NamespacedName, k: SecretKey) returns (r: SecretRef)
    requires Found(store.servers, key) && k in ServerKeys(store.servers[key].spec, key.ns)
    ensures r in ServerRefs(store, key, true) && Mountable(r) && SecretKey(r.ns, r.name, r.key) == k
  {
    var server := store.servers[key].spec;
    if server.transport == "stdio" {
      var ev :| ev in server.env && ev.value == "" && ev.secretKeyRef.Some?
          && k == SecretKey(key.ns, ev.secretKeyRef.value.name, ev.secretKeyRef.value.key);
      r := SecretRef(key.ns, k.name, k.key, "", false, ev.name, ev.secretKeyRef.value.optional, true);
      assert r in EnvRefs(server.env, key.ns, true);
    } else {
      r := KeyedRef(k.ns, k.name, k.key, "", true);
      assert r in AuthRefs(server.auth.value, key.ns, true);
    }
  }

  /** What the runner reads for an external agent: the CA bundle and the bearer token. */
  ghost function ExternalKeys(ref: Option<ExternalAgentRef>, ns: string): set<SecretKey> {
    (if ref.Some? && ref.value.caSecretRef.Some?
     then {SecretKey(ref.value.caSecretRef.value.In(ns).ns, ref.value.caSecretRef.value.name, "ca.crt")} else {}) +
    (if ref.Some? && ref.value.authSecretRef.Some?
     then {SecretKey(ref.value.authSecretRef.value.Ns(ns), ref.value.authSecretRef.value.name,
                     ref.value.authSecretRef.value.key)} else {})
  }

  /** Every Secret key the runner may resolve while executing one body. */
  ghost function RunnerKeys(store: Store, b: LeafStep, ns: string): set<SecretKey> {
    ExternalKeys(b.externalAgentRef, ns) +
    (if b.mcpToolCall.Some? && b.mcpToolCall.value != ""
     && Found(store.servers, NamespacedName(ns, b.mcpToolCall.value))
     then ServerKeys(store.servers[NamespacedName(ns, b.mcpToolCall.value)].spec, ns) else {})
  }

  lemma RunnerKeysAreCollected(store: Store, b: LeafStep, ns: string, k: SecretKey) returns (r: SecretRef)
    requires k in RunnerKeys(store, b, ns)
    ensures r in BodyRefs(store, b, ns) && Mountable(r) && SecretKey(r.ns, r.name, r.key) == k
  {
    hide ServerKeys, ServerRefs, AgentRefs;
    if k in ExternalKeys(b.externalAgentRef, ns) {
      r := KeyedRef(k.ns, k.name, k.key, "", true);
      assert r in ExternalRefs(b.externalAgentRef, ns);
    } else {
      r := ServerKeysAreCollected(store, NamespacedName(ns, b.mcpToolCall.value), k);
    }
  }

  // ---------------------------------------------------------------- the whole Job

  ghost predicate ReachableBody(store: Store, root: Root, b: LeafStep, ns: string) {
    exists steps :: ContextBelow(store, Collect, root, steps, ns) && b in StepsBodies(store, Collect, steps, ns)
  }

  /** Every key the runner may need has a lookup entry, and in any pod, unless a mount of the Job covers it,
      a file whose content is the API's. */
  ghost predicate RunnerSeesSecrets(store: Store, root: Root, runNs: string, l: Layout) {
    forall b, ns, k :: ReachableBody(store, root, b, ns) && k in RunnerKeys(store, b, ns) ==> KeyIsServed(l, runNs, k)
  }

  ghost predicate KeyIsServed(l: Layout, runNs: string, k: SecretKey) {
    && Key(k.ns, k.name, k.key) in l.lookup
    && forall pod: Pod ::
         pod.ns == runNs && !Shadowed(l, pod, l.lookup[Key(k.ns, k.name, k.key)]) ==>
         ReadFile(l, pod, k.ns, k.name, k.key) == ResolveFromAPI(pod.secrets, k.ns, k.name, k.key)
  }

  lemma RefIsServed(refs: seq<SecretRef>, runNs: string, r: SecretRef)
    requires NoBadRefs(refs, runNs) && r in refs && Mountable(r)
    ensures KeyIsServed(LayoutOf(refs, runNs), runNs, SecretKey(r.ns, r.name, r.key))
  {
    hide LayoutOf, Key, NoBadRefs, ReadFile, ResolveFromAPI, Shadowed, Mountable;
    var l := LayoutOf(refs, runNs);
    var i := RefIsMounted(refs, runNs, r);
    forall pod: Pod | pod.ns == runNs && !Shadowed(l, pod, l.lookup[Key(r.ns, r.name, r.key)])
      ensures ReadFile(l, pod, r.ns, r.name, r.key) == ResolveFromAPI(pod.secrets, r.ns, r.name, r.key)
    {
      FileEqualsAPI(refs, pod, r);
      assert pod.(otherFiles := pod.otherFiles) == pod;
    }
  }

  lemma BodyRefIsCollected(store: Store, root: Root, run: Run, refs: seq<SecretRef>, b: LeafStep, ns: string,
                           x: SecretRef)
    returns (r: SecretRef)
    requires CollectedExactly(store, root, run, refs) && ReachableBody(store, root, b, ns)
             && x in BodyRefs(store, b, ns)
    ensures r in refs && r.Bare() == x
  {
    hide BodyRefs;
    var steps :| ContextBelow(store, Collect, root, steps, ns) && b in StepsBodies(store, Collect, steps, ns);
    assert x in StepsRefs(store, steps, ns);
    assert RefBelow(store, root, x);
    r :| r in refs && r.Bare() == x;
  }

  lemma LayoutServesRunner(store: Store, root: Root, run: Run, refs: seq<SecretRef>)
    requires CollectedExactly(store, root, run, refs) && NoBadRefs(refs, run.ns)
    ensures RunnerSeesSecrets(store, root, run.ns, LayoutOf(refs, run.ns))
  {
    hide NoBadRefs, LayoutOf, BodyRefs, RunnerKeys, ReachableBody, KeyIsServed, CollectedExactly;
    forall b, ns, k | ReachableBody(store, root, b, ns) && k in RunnerKeys(store, b, ns)
      ensures KeyIsServed(LayoutOf(refs, run.ns), run.ns, k)
    {
      var x := RunnerKeysAreCollected(store, b, ns, k);
      var r := BodyRefIsCollected(store, root, run, refs, b, ns, x);
      RefIsServed(refs, run.ns, r);
    }
  }

  /** Connecting to an MCPServer from the runner pod gives the client configuration, or the error, that
      live API access would have given. */
  lemma SameClientConfig(store: Store, root: Root, l: Layout, pod: Pod, b: LeafStep, ns: string,
                         fromFiles: Reader, fromAPI: Reader, kubeconfigPath: string)
    requires RunnerSeesSecrets(store, root, pod.ns, l) && Unshadowed(l, pod)
    requires ReachableBody(store, root, b, ns) && b.mcpToolCall.Some? && b.mcpToolCall.value != ""
    requires Found(store.servers, NamespacedName(ns, b.mcpToolCall.value))
    requires forall ns, name, key :: fromFiles(ns, name, key) == ReadFile(l, pod, ns, name, key)
    requires forall ns, name, key :: fromAPI(ns, name, key) == ResolveFromAPI(pod.secrets, ns, name, key)
    ensures var key := NamespacedName(ns, b.mcpToolCall.value);
            var server := store.servers[key].spec;
            ConfigOf(fromFiles, key, server, kubeconfigPath) == ConfigOf(fromAPI, key, server, kubeconfigPath)
  {
    hide ReachableBody, ReadFile, ResolveFromAPI, Key, ServerKeys, ConfigOf, Shadowed;
    var key := NamespacedName(ns, b.mcpToolCall.value);
    var server := store.servers[key].spec;
    forall k | k in ServerKeys(server, ns) ensures fromFiles(k.ns, k.name, k.key) == fromAPI(k.ns, k.name, k.key) {
      assert k in RunnerKeys(store, b, ns);
      assert KeyIsServed(l, pod.ns, k);
    }
    ConfigDependsOnKeys(fromFiles, fromAPI, key, server, kubeconfigPath);
  }

  /** Some body of a Workflow the root reaches, by whatever chain. */
  ghost predicate ReachedBody(store: Store, root: Root, b: LeafStep, ns: string) {
    exists steps :: Context(store, Collect, root, steps, ns) && b in StepsBodies(store, Collect, steps, ns)
  }

  /** With the root stored in the run's namespace the files serve every reachable body, chains that
      come back to the root included. */
  lemma EveryReachedBodyIsServed(store: Store, root: Root, runNs: string, l: Layout, b: LeafStep, ns: string,
                                 k: SecretKey)
    requires RootIsStored(store, root) && RunnerSeesSecrets(store, root, runNs, l)
    requires ReachedBody(store, root, b, ns) && k in RunnerKeys(store, b, ns)
    ensures KeyIsServed(l, runNs, k)
  {
    hide KeyIsServed, RunnerKeys, Context, ContextBelow, StepsBodies, RootIsStored;
    var steps :| Context(store, Collect, root, steps, ns) && b in StepsBodies(store, Collect, steps, ns);
    ContextsBelowAreAll(store, Collect, root, steps, ns);
    assert ReachableBody(store, root, b, ns);
  }

  datatype PrepareError = Walk(e: WalkError) | PolicyDenied | Mount(m: MountError)
  datatype Prepared = Prepared(refs: seq<SecretRef>, layout: Layout)

  ghost predicate Needed(store: Store, root: Root, run: Run, x: SecretRef) {
    x in KubeconfigRefs(run) || RefBelow(store, root, x)
  }

  /** A reference the run really needs is outside the policy. */
  ghost predicate PolicyViolated(store: Store, root: Root, run: Run, allowed: set<string>) {
    exists x :: Needed(store, root, run, x) && !PolicyAllows(x, run.ns, allowed)
  }

  /** A volume of the Job template has a reserved name, or a reference the run needs cannot be mounted. */
  ghost predicate MountRefused(store: Store, root: Root, run: Run, existingVolumeNames: set<string>) {
    || (exists name :: name in existingVolumeNames && Reserved(name))
    || exists x :: Needed(store, root, run, x) && BadRef(x, run.ns)
  }

  lemma CollectedIsNeeded(store: Store, root: Root, run: Run, refs: seq<SecretRef>)
    requires CollectedExactly(store, root, run, refs)
    ensures forall r :: r in refs ==> Needed(store, root, run, r.Bare())
    ensures forall x :: Needed(store, root, run, x) ==> exists r :: r in refs && r.Bare() == x
  {
    hide KubeconfigRefs, RefBelow;
    forall r | r in refs ensures Needed(store, root, run, r.Bare()) {
      assert r.Bare() in Bares(refs);
    }
    forall x | Needed(store, root, run, x) ensures exists r :: r in refs && r.Bare() == x {
      assert x in Bares(refs);
    }
  }

  /** Policy and mountability look at the references and never at where they came from. */
  lemma RefusalsAreAboutNeeds(store: Store, root: Root, run: Run, refs: seq<SecretRef>, allowed: set<string>,
                              existingVolumeNames: set<string>)
    requires CollectedExactly(store, root, run, refs)
    ensures PolicyViolated(store, root, run, allowed) <==> exists r :: r in refs && !PolicyAllows(r, run.ns, allowed)
    ensures MountRefused(store, root, run, existingVolumeNames) <==>
            (exists name :: name in existingVolumeNames && Reserved(name)) || exists r :: r in refs && BadRef(r, run.ns)
  {
    hide Needed, CollectedExactly;
    CollectedIsNeeded(store, root, run, refs);
    forall r: SecretRef
      ensures PolicyAllows(r.Bare(), run.ns, allowed) <==> PolicyAllows(r, run.ns, allowed)
      ensures BadRef(r.Bare(), run.ns) <==> BadRef(r, run.ns)
    {
    }
  }

  /** The three stages in buildWorkflowRunnerJob, workflowrun_controller.go. Success means that the runner
      sees every Secret it needs, and a failure has the reason it names. */
  method PrepareRunnerSecrets(store: Store, key: NamespacedName, workflow: Workflow, run: Run,
                              allowed: set<string>, existingVolumeNames: set<string>)
    returns (r: Result<Prepared, PrepareError>)
    ensures var root := Root(key, workflow.steps, run.ns);
            r.Success? ==>
              && CollectedExactly(store, root, run, r.value.refs) && NoFaultsBelow(store, Collect, root)
              && !PolicyViolated(store, root, run, allowed)
              && !MountRefused(store, root, run, existingVolumeNames)
              && r.value.layout == LayoutOf(r.value.refs, run.ns)
              && RunnerSeesSecrets(store, root, run.ns, r.value.layout)
    ensures var root := Root(key, workflow.steps, run.ns);
            r.Failure? ==>
              match r.error
              case Walk(e) => Justified(store, Collect, root, e)
              case PolicyDenied => PolicyViolated(store, root, run, allowed)
              case Mount(_) => MountRefused(store, root, run, existingVolumeNames)
  {
    hide CollectedExactly, LayoutOf, RunnerSeesSecrets, PolicyAllows, BadRef, PolicyViolated, MountRefused, Justified,
         NoFaultsBelow;
    var refs := CollectSecretRefs(store, key, workflow, run);
    if refs.Failure? { return Failure(Walk(refs.error)); }
    RefusalsAreAboutNeeds(store, Root(key, workflow.steps, run.ns), run, refs.value, allowed, existingVolumeNames);
    var ok := ValidateSecretRefPolicy(refs.value, run.ns, allowed);
    if !ok { return Failure(PolicyDenied); }
    var layout := BuildSecretMounts(refs.value, run.ns, existingVolumeNames);
    if layout.Failure? { return Failure(Mount(layout.error)); }
    LayoutServesRunner(store, Root(key, workflow.steps, run.ns), run, refs.value);
    return Success(Prepared(refs.value, layout.value));
  }

  /** A reachable body that names, outright, another namespace for a mounted Secret is refused whatever the
      allowlist, so its run is never prepared. */
  lemma ForeignNamespaceIsRefused(store: Store, root: Root, run: Run, b: LeafStep, ns: string, written: string,
                                  allowed: set<string>)
    requires ReachableBody(store, root, b, ns) && written in WrittenNamespaces(store, b, ns)
    requires written != "" && written != run.ns
    ensures PolicyViolated(store, root, run, allowed)
  {
    hide ContextBelow, StepsBodies, BodyRefs, WrittenNamespaces;
    var r := WrittenNamespaceIsRead(store, b, ns, written);
    var steps :| ContextBelow(store, Collect, root, steps, ns) && b in StepsBodies(store, Collect, steps, ns);
    assert r in StepsRefs(store, steps, ns);
    assert RefBelow(store, root, r);
    assert Needed(store, root, run, r) && !PolicyAllows(r, run.ns, allowed);
  }

  /** The keys of an external agent on the fields as written. */
  lemma ExternalKeysAre(ref: ExternalAgentRef, ns: string)
    ensures forall k :: k in ExternalKeys(Some(ref), ns) <==>
              || (ref.caSecretRef.Some? && k.name == ref.caSecretRef.value.name && k.key == "ca.crt"
                  && Lands(k.ns, ref.caSecretRef.value.ns, ns))
              || (ref.authSecretRef.Some? && k.name == ref.authSecretRef.value.name
                  && k.key == ref.authSecretRef.value.key && Lands(k.ns, ref.authSecretRef.value.ns, ns))
  {
  }

  /** The keys of a body: those of its external agent, and those of the server it calls by name. */
  lemma RunnerKeysAre(store: Store, b: LeafStep, ns: string, k: SecretKey)
    ensures k in RunnerKeys(store, b, ns) <==>
              || (b.externalAgentRef.Some? && k in ExternalKeys(b.externalAgentRef, ns))
              || exists name, server ::
                   && b.mcpToolCall == Some(name) && name != "" && NamespacedName(ns, name) in store.servers
                   && store.servers[NamespacedName(ns, name)] == Object(server) && k in ServerKeys(server, ns)
  {
    hide ServerKeys;
  }
}
