# Ottoflow verification

A Dafny model of the parts of ottoflow in which separate pieces of code have to agree, or in which
concurrent and crashing actors share state, with proofs of what they promise together.

Verify the whole project with `dafny verify dfyconfig.toml`.

## What is modelled

**Secrets for the runner** (`Cluster`, `Reachability`, `WalkState`, `SecretRefs`, `SecretRefWalk`,
`SecretMount`, `SecretMounts`, `MountLayout`, `Paths`, `RunnerConfig`, `RunnerAgreement`). The controller walks
the graph of Workflows, StepTemplates, forEach bodies, Agents and MCPServers, checks the Secret references
it finds against the policy and lays them out as volumes, files and a lookup map. The runner, in another
process and with its own code, later derives which Secret keys a server needs and looks them up.
`Reachability` defines by paths what a Workflow reaches; the walk is a class with a visited set and a depth
cap proved against that definition. `RunnerAgreement.SameClientConfig` and `PrepareRunnerSecrets` join the
two sides: whatever the graph, if preparation succeeds the runner gets from its files what the API would
have answered, as long as no mount that the Job adds covers a generated path.

**Needs of a run** (`AgentNeeds`). The second walk over the same graph exits early and, in its credentials
mode, skips steps that may not run. Its "false" is proved to mean that nothing below the root
matches, and when that is all that is reachable.

**Stuck pods** (`Attribution`). The regular expression that recognises minted volume names in kubelet
messages, as a scanner proved against a definition by maximal runs.

**MCP client cache** (`McpCache`, `McpCacheRuns`). The critical sections are methods of a class, each
proved equal to a function on the cache's state; its `Refresh` and `GetClient` compose them with others at work
in between. A state machine interleaves those functions with any number of calls that read and build outside the
lock, and with changes of the servers. Its invariants give ownership of clients, freedom from lost
updates, freshness and the grace period.

**Audit redaction** (`Redaction`), **tool loop** (`ToolLoop`), **Event notes** (`EventNotes`),
**A2A admission** (`RunAdmission`, `RunPhases`), **cron scheduler** (`Scheduler`), **exposure finalizer**
(`Exposure`) and **RBAC generation** (`Rbac`) follow the same pattern: the code's form, an independent
definition of what it should do, and lemmas over all inputs or all runs that join them.
`Ordering`, `Text` and `Wrappers` hold sorted sequences, decimal numbers and small datatypes.

## What was found

- The collector marks the root Workflow under its own namespace but walks it under the run's. A Workflow
  that refers back to itself by its full name is then never walked under its own namespace.
  `SecretRefWalk.CollectsAllIff` states for any one run exactly when all references are found,
  `RunNamespaceMustMatch` for all stores at once, and `SelfReferenceIsMissed` exhibits the Workflow. The walk for
  credentials shares the marking: `AgentNeeds.AnswerIsCompleteIff` and `NeedBehindRootIsMissed`. The comment
  above `collectSecretRefs` (`internal/workflow/controller/secret_refs.go`, lines 88-92) promises everything
  the Workflow can reach; the model follows the code.
- Pruning stale Agents deletes by name without a precondition. `Exposure.OnlyManagedAgentsChange` states
  in terms of outside events when a prune touches managed Agents only, and `PruneMayDeleteAReplacement` exhibits
  a run in which it does not.
- The volume mounts a Job adds are not checked against the directory of the generated ones.
  `RunnerAgreement.FileEqualsAPI` states exactly when a mounted reference still reads as from the API, and
  `OutsideIsUnshadowed` gives the condition a caller can check. Both compare paths by the segments they resolve
  to, and `OtherSpellingShadows` shows a mount that no comparison of texts would catch.
- The unchecked-mounts note keeps its 1023 byte limit as long as at most 999999 origins are left over.
  `EventNotes.NoteKeepsLimitIff` states exactly when it does beyond that, and `MillionOverflows` a list whose
  note is a byte too long. Pods hold far fewer volumes.

## Assumptions

The cluster is an immutable snapshot during one preparation of a run, shared by the controller and the
runner. Walk results and layouts are compared up to the text of origins. Clients from the factory are new, and
the hash that stands for a configuration (hexadecimal, so without '|') is another one for another configuration.
List, create and status updates of runs are atomic, a terminal phase is final, one server or one scheduler
is the sole creator of a workflow's runs, and fires of one schedule do not overlap. The reconciler of a
Workflow runs one pass at a time, reads current objects and is the only editor of its finalizer.

## Model

| member | source | states |
|---|---|---|
| Reachability.ExploredIsReachable | internal/workflow/controller/secret_refs.go:108-149 | A finished walk has marked exactly the Workflows that a chain of workflowRefs reaches without passing through the root, on cyclic graphs too |
| Reachability.ExploredTransitive | internal/workflow/controller/secret_refs.go:316-351 | Parts of a walk compose: what two consecutive parts explored is explored by both together |
| Reachability.SplitAtRoot | internal/workflow/controller/secret_refs.go:316-351 | A chain of workflowRefs either avoids the root or, cut where it last leaves the root, is a chain below the root as stored |
| Reachability.ContextsSplit | internal/workflow/controller/secret_refs.go:117-149 | For any root: what it reaches is what lies below it and, if some chain comes back to it, what lies below its stored form |
| Reachability.ContextsBelowAreAll | internal/workflow/controller/secret_refs.go:108-149 | For a root stored as given in the run's namespace both are the same |
| Reachability.TargetsAre | internal/workflow/controller/secret_refs.go:316-330 | One link of a chain on the fields: some step holds a body, its own, its template's or its forEach's, whose workflowRef names the Workflow in the namespace written or else the consumer's |
| Reachability.BodyReadsAre | internal/workflow/controller/secret_refs.go:153-200 | The objects a body has fetched, kind by kind and on its fields, a server of an Agent being one that a tool of the Agent names |
| Reachability.ServerOfIs | internal/workflow/controller/secret_refs.go:378-387 | A tool names a server iff that server, not empty, stands before the first colon of the text trimmed of white space |
| WalkState.EnterSub | internal/workflow/controller/secret_refs.go:316-351 | Following a workflowRef keeps the walk's state valid: every sub-Workflow is below the root and is fetched once |
| WalkState.ChainIsTooDeep | internal/workflow/controller/secret_refs.go:27-31 | A depth error proves a chain of workflowRefs through ten different Workflows with yet another reference behind it |
| WalkState.ReadIsJustified | internal/workflow/controller/secret_refs.go:153-200 | A read error names an object that a reachable step refers to and that cannot be fetched |
| WalkState.ErrorsAreFaults | internal/workflow/controller/secret_refs.go:108-149 | No walk error occurs unless a reachable reference is broken or a too deep chain exists |
| SecretRefs.AuthRefsLand | internal/workflow/controller/secret_refs.go:440-494 | On the fields: a reference of an auth block has the Secret its field names, in the namespace its field writes, and the server's when none is written |
| SecretRefs.ExternalRefsLand | internal/workflow/controller/secret_refs.go:499-532 | The same for the CA bundle and the token of an external agent |
| SecretRefWalk.SecretRefWalker.McpServerSecretRefs | internal/workflow/controller/secret_refs.go:406-494 | Returns the env and then the auth references of the server in order, as a set exactly those it holds, each origin beginning with the given one; or the error of the one missing server |
| SecretRefWalk.SecretRefWalker.AgentRefSecretRefs | internal/workflow/controller/secret_refs.go:367-395 | Returns the references of the servers in the Agent's mcpTools tool by tool, in the Agent's namespace; an error names a read that fails |
| SecretRefWalk.ExternalAgentRefSecretRefs | internal/workflow/controller/secret_refs.go:499-532 | As a set the references are those of the CA bundle and the auth Secret, namespaces defaulted, with origins below the given one |
| SecretRefWalk.AuthSecretRefs | internal/workflow/controller/secret_refs.go:440-494 | As a set the references are those of every auth form: keyed secretRef, basic pair, both oauth2 forms; origins lie below the server's |
| SecretRefWalk.AuthRefsListed | internal/workflow/controller/secret_refs.go:440-494 | The same references one by one in the order of the code, each with the field it stands in as its origin |
| SecretRefWalk.ExternalRefsListed | internal/workflow/controller/secret_refs.go:499-532 | The same for an external agent: the CA bundle and then the token |
| SecretRefWalk.SecretRefWalker.DirectRefs | internal/workflow/controller/secret_refs.go:153-200 | The references of one body's external agent, MCP call and agent, all of whose reads were made |
| SecretRefWalk.SecretRefWalker.FromRefFields | internal/workflow/controller/secret_refs.go:252-290 | A body is collected with everything its workflowRef leads to that was not marked before |
| SecretRefWalk.SecretRefWalker.WorkflowRefSecretRefs | internal/workflow/controller/secret_refs.go:316-351 | A workflowRef is explored once; the measure is the stored Workflows not marked yet, so the walk ends on every store |
| SecretRefWalk.SecretRefWalker.StepTemplateRefSecretRefs | internal/workflow/controller/secret_refs.go:293-313 | A StepTemplate is fetched by its own namespace and its body collected under the referring step's |
| SecretRefWalk.SecretRefWalker.FromForEach | internal/workflow/controller/secret_refs.go:203-249 | A forEach contributes its inline child and its StepTemplate body |
| SecretRefWalk.SecretRefWalker.FromStep | internal/workflow/controller/secret_refs.go:153-200 | A step contributes all of its bodies and all they lead to, with every read of the step made |
| SecretRefWalk.WalkIsExact | internal/workflow/controller/secret_refs.go:108-149 | Pruning visited Workflows loses nothing: the collected set equals the references of all contexts below the root |
| SecretRefWalk.CollectSecretRefs | internal/workflow/controller/secret_refs.go:108-149 | On success the result is, up to origin, exactly the kubeconfig reference and the references below the root, and no reachable read fails; every origin names the kubeconfig field or begins with a step of the root; on error the error is real |
| SecretRefWalk.NothingHiddenBehindRoot | internal/workflow/controller/secret_refs.go:108-149 | With the root stored in the run's namespace a reference is collected iff any chain reaches it |
| SecretRefWalk.RefsSplit | internal/workflow/controller/secret_refs.go:117-149 | A reference is reached iff it lies below the root or, when some chain comes back to the root, below its stored form |
| SecretRefWalk.CollectsAllIff | internal/workflow/controller/secret_refs.go:117-149 | For any one run: all reachable references are found iff no chain comes back to the root, or what lies below its stored form lies below it anyway |
| SecretRefWalk.RunNamespaceMustMatch | internal/workflow/controller/secret_refs.go:117-149 | Over all stores: every stored Workflow of a given name has all its references found iff the run's namespace is the Workflow's |
| SecretRefWalk.SelfReferenceIsMissed | internal/workflow/controller/secret_refs.go:117-149 | The Workflow that shows it: it refers to itself by full name and its CA reference in its own namespace is missed |
| SecretRefWalk.ValidateSecretRefPolicy | internal/workflow/controller/secret_refs.go:546-589 | Accepts iff every reference is in the run's namespace, or is allow-listed and not mounted |
| AgentNeeds.AgentStepWalker.AgentRefNeeds | internal/workflow/controller/secret_needs_creds.go:163-184 | True has a matching Agent below the root, false means no match and no failed read; in the credentials mode a missing Agent is no error |
| AgentNeeds.AgentStepWalker.FromWorkflowRef | internal/workflow/controller/secret_needs_creds.go:320-347 | Not found leaves every newly marked Workflow free of matches and faults |
| AgentNeeds.AgentStepWalker.FromLeafRefs | internal/workflow/controller/secret_needs_creds.go:305-316 | Not found means that neither the body nor what it leads to matches |
| AgentNeeds.AgentStepWalker.FromForEach | internal/workflow/controller/secret_needs_creds.go:271-300 | The credentials mode never enters a forEach; the presence mode covers both of its bodies |
| AgentNeeds.AgentStepWalker.FromStep | internal/workflow/controller/secret_needs_creds.go:219-268 | Not found means that no body of the step matches, a step that may not run having none in the credentials mode |
| AgentNeeds.NotFoundIsExact | internal/workflow/controller/secret_needs_creds.go:71-93 | A walk that found nothing proves that no context below the root holds a match, although marked Workflows were pruned |
| AgentNeeds.WalkAgentSteps | internal/workflow/controller/secret_needs_creds.go:71-93 | Without an error the answer is true iff a match exists below the root; false also means every reachable read succeeds |
| AgentNeeds.WorkflowNeedsAgentExecutor | internal/workflow/controller/secret_needs_creds.go:50-63 | Without an error, true iff an agentRef lies below the root, which under the condition of AnswerIsCompleteIff means reachable; errors come only from broken references or a too deep chain |
| AgentNeeds.WorkflowNeedsNirmataLLMCredentials | internal/workflow/controller/secret_needs_creds.go:206-215 | Without an error, true iff a nirmata or empty-provider Agent lies below the root using only steps that must run and no forEach, under the same condition reachable; true implies an agentRef below the root |
| AgentNeeds.AnswerIsCompleteIff | internal/workflow/controller/secret_needs_creds.go:71-93 | For any root and mode the answer speaks of everything reachable iff no chain comes back to the root, or coming back to it finds no match that is not there anyway |
| AgentNeeds.NeedBehindRootIsMissed | internal/workflow/controller/secret_needs_creds.go:71-93 | A Workflow run from another namespace whose need for a token is missed without any error |
| AgentNeeds.TokenNeedsExecutor | internal/workflow/controller/secret_needs_creds.go:142-184 | Whatever needs the token also needs the executor |
| AgentNeeds.ConditionalRootNeedsNothing | internal/workflow/controller/secret_needs_creds.go:142-147 | A root all of whose steps have a match condition or the failure policy Continue needs no token, and no read of the walk fails |
| AgentNeeds.UnconditionalStepNeeds | internal/workflow/controller/secret_needs_creds.go:142-147 | A root step with neither that calls an Agent with an empty or the nirmata provider does need one |
| SecretMount.KeyInjective | internal/secretmount/mounts.go:104-106 | Slash-free namespaces and names make the map key injective |
| SecretMount.AcceptedKeys | internal/secretmount/mounts.go:79-97 | A key is accepted iff it consists of letters, digits, dots, dashes and underscores, is not empty, is not "." and does not begin with ".." |
| SecretMount.FixedKeysAreAccepted | internal/secretmount/mounts.go:79-97 | The keys the code asks for by name are accepted |
| SecretMounts.SubdomainIs | internal/workflow/controller/secret_refs.go:706-710 | A Secret name is accepted iff it has at most 253 lower-case letters, digits, dashes and dots, with a letter or digit at both ends and around every dot |
| SecretMounts.SubdomainHasNoSlash | internal/workflow/controller/secret_refs.go:700-720 | What the name validation accepts holds no slash |
| SecretMounts.GroupBySecret | internal/workflow/controller/secret_refs.go:668-730 | Fails iff some mounted reference is foreign, misnamed or has an invalid key, naming the first such reference and the first thing wrong with it; else keys and origins per Secret are exact |
| SecretMounts.EmitGroup | internal/workflow/controller/secret_refs.go:772-836 | One volume per group with the group's keys sorted, and one lookup entry per key |
| SecretMounts.BuildSecretMounts | internal/workflow/controller/secret_refs.go:656-836 | Fails iff a volume name is reserved or a reference cannot be mounted, naming a reserved volume or else the first bad reference; otherwise returns the declared layout |
| MountLayout.PlanMembers | internal/workflow/controller/secret_refs.go:733-790 | A Secret has a mandatory volume iff some key is required, an optional one iff some key is only ever optional, and never two of a kind |
| MountLayout.VolumeNamesAreFresh | internal/workflow/controller/secret_refs.go:596-609 | Volume names are pairwise distinct and new to the pod |
| MountLayout.LookupShape | internal/workflow/controller/secret_refs.go:800-825 | The lookup map holds one entry per grouped key, with that volume's directory in its path, and nothing else |
| MountLayout.RefIsMounted | internal/workflow/controller/secret_refs.go:733-836 | Every mounted reference has a lookup entry whose path is the file of exactly its Secret and key, in exactly one volume, optional iff every reference to the key is |
| MountLayout.OnlyVolume | internal/workflow/controller/secret_refs.go:733-825 | One volume projects a given key of a given Secret |
| MountLayout.OptionalIffAll | internal/workflow/controller/secret_refs.go:733-750 | The volume projecting a key is optional iff every reference to the key is |
| MountLayout.PathsAreDistinct | internal/workflow/controller/secret_refs.go:800-825 | Two entries with one path are the same entry |
| MountLayout.ProjectedKeyHasOrigin | internal/workflow/controller/secret_refs.go:730-836 | Every projected key comes from a reference of the same optionality whose origin is listed for its volume |
| MountLayout.OrderIndependent | internal/workflow/controller/secret_refs.go:687-825 | Reordering, repeating or relabelling references changes neither acceptance nor volumes, mounts and lookup map, for kubeconfig references of one name |
| MountLayout.MountedAt | internal/workflow/controller/secret_refs.go:772-825 | A mounted key is projected under its own name by a volume "ottoflow-secret-<n>" of its Secret, mounted at "/etc/ottoflow/secrets/<n>", and the lookup map names that file |
| MountLayout.MapEntryHasRef | internal/workflow/controller/secret_refs.go:800-825 | Every entry of the lookup map is that of a mounted reference |
| MountLayout.KubeconfigAt | internal/workflow/controller/secret_refs.go:712-718 | The first kubeconfig reference becomes the whole-Secret volume in front of all others, at its fixed path and with its origin |
| MountLayout.OriginsInOrder | internal/workflow/controller/secret_refs.go:721-731 | The origins listed for a group are those of its references, each once, in the order in which they first occur |
| RunnerConfig.BuildMCPClientConfig | internal/agent/mcp_client_impl.go:154-231 | Succeeds with a configuration iff every setting of it is what the server, or a read under the key and namespace that the field names, gives: KUBECONFIG and then the environment in order, the timeouts, the token, user name, password, client ID and secret each in its own place; and fails iff the first thing wrong is the one reported |
| RunnerConfig.ResolveAuthIff | internal/agent/mcp_client_impl.go:258-352 | Bearer, apiKey, basic and both oauth2 forms: the settings are resolved iff each credential is the value read under its own key |
| RunnerConfig.EnvIff | internal/agent/mcp_client_impl.go:202-219 | The environment is resolved iff it lists, in order, name=value of each variable that has a value, given or read |
| RunnerConfig.AuthKeysAre | internal/agent/mcp_client_impl.go:258-352 | The Secret keys of an auth block on its fields as written |
| RunnerConfig.EnvDependsOnKeys | internal/agent/mcp_client_impl.go:234-255 | The environment depends only on the Secret keys the derivation lists |
| RunnerConfig.AuthDependsOnKeys | internal/agent/mcp_client_impl.go:258-352 | So do bearer, apiKey, basic and both oauth2 forms |
| RunnerConfig.ConfigDependsOnKeys | internal/agent/mcp_client_impl.go:154-352 | Two Secret readers that agree on a server's keys give the same configuration or the same error |
| RunnerAgreement.FileIsUnique | internal/secretmount/mounts.go:174-192 | No generated volume but the one that projects a key puts a file at its path |
| RunnerAgreement.FileEqualsAPI | internal/secretmount/mounts.go:150-192 | Reading a mounted reference from its file gives the value, or the absence, that the API gives, whatever files the Job adds, iff no mount of the Job covers the path |
| RunnerAgreement.DemandedKeyIsPresent | internal/workflow/controller/secret_refs.go:596-654 | In a pod that has started, the file of a key that some reference demands holds the value of the Secret |
| RunnerAgreement.OutsideIsUnshadowed | internal/workflow/controller/workflowrun_controller.go:1236-1243 | Job mounts that resolve to places outside the base directory, however spelled, cover no generated path |
| RunnerAgreement.OtherSpellingShadows | api/v1alpha1/workflowrun_types.go:239-248 | A mount path with a "." segment covers a generated file although as a text it is neither that path nor above it |
| Paths.ResolvedChild | internal/secretmount/mounts.go:81-106 | A directory and a plain name resolve to the segments of the directory and the name |
| Paths.OtherSpellings | api/v1alpha1/workflowrun_types.go:239-248 | Doubled slashes, "." segments and a leading slash do not change where a path leads |
| RunnerAgreement.ServerKeysAreCollected | internal/agent/mcp_client_impl.go:234-352 | Every key the runner derives from a server is among the keys the controller derives from it |
| RunnerAgreement.RunnerKeysAreCollected | internal/workflow/executor/a2a_client.go:425-457 | The same for a whole body, external agents included |
| RunnerAgreement.LayoutServesRunner | internal/workflow/controller/secret_refs.go:656-836 | If collection and mounting succeed, every key resolved for any body below the root has an entry and, unless a mount of the Job covers it, reads as from the API |
| RunnerAgreement.EveryReachedBodyIsServed | internal/workflow/controller/secret_refs.go:108-149 | With the root stored in the run's namespace this covers every body any chain reaches |
| RunnerAgreement.SameClientConfig | internal/agent/mcp_client_impl.go:154-352 | In a pod whose other mounts cover no generated path, a runner using files connects with the configuration, or fails with the error, that API access would have given |
| RunnerAgreement.RefusalsAreAboutNeeds | internal/workflow/controller/secret_refs.go:546-589 | Policy and mount refusals hold of the references really needed iff they hold of the collected ones |
| RunnerAgreement.PrepareRunnerSecrets | internal/workflow/controller/workflowrun_controller.go:1308-1322 | Collect, check, mount: success serves the runner, and each of the three failures has its real cause |
| RunnerAgreement.ForeignNamespaceIsRefused | internal/workflow/controller/secret_refs.go:548-569 | A body below the root whose mounted references name, in any of their fields, a namespace other than the run's violates the policy under every allow-list |
| Attribution.FindTokens | internal/workflow/controller/stuck_runner_pod.go:273 | The scanner finds exactly the maximal runs of token characters that start with the reserved prefix and are longer |
| Attribution.SecretVolumeAttribution | internal/workflow/controller/stuck_runner_pod.go:297-327 | The text has one sentence for each origins key named in the message, sorted, each once |
| Attribution.RunsAreDisjoint | internal/workflow/controller/stuck_runner_pod.go:253-273 | Overlapping runs coincide: no name is read out of a longer token |
| Attribution.MintedNamesAreAttributed | internal/workflow/controller/stuck_runner_pod.go:253-327 | A volume name of the layout standing as a whole word in any message is attributed |
| Attribution.NameIs | internal/workflow/controller/stuck_runner_pod.go:273 | A name stands in a message iff it is the prefix "ottoflow-secret-" and more, of letters, digits and dashes, with none of them before or behind |
| Attribution.OneHit | internal/workflow/controller/stuck_runner_pod.go:319-327 | The sentence for one hit: the quoted volume and what it was generated for |
| Attribution.HitsInTurn | internal/workflow/controller/stuck_runner_pod.go:319-327 | The text for several hits is their sentences one after the other |
| McpCache.MCPClientManager.SweepRetiredLocked | internal/agent/mcp_client.go:178-188 | Keeps the retired clients still in grace, in order, and closes the others |
| McpCache.MCPClientManager.Refresh | internal/agent/mcp_client.go:100-141 | With others at work in between: a client returned is the cached one under the fingerprint read; a first refresh replaces only the entry it began with and yields only after a change |
| McpCache.MCPClientManager.GetClient | internal/agent/mcp_client.go:81-95 | At most two refreshes, superseded is never the answer, a client returned is the cached one under the fingerprint of a read of this call, and a server not found leaves none cached |
| McpCache.MCPClientManager.CommitRefresh | internal/agent/mcp_client.go:117-140 | Hit, yield or replace, with the whole new state of the cache |
| McpCache.MCPClientManager.EvictClient | internal/agent/mcp_client.go:154-173 | Removes the client if it is still the given one; with none given, a missing entry still moves the version |
| McpCache.MCPClientManager.EvictIdleClients | internal/agent/mcp_client.go:190-218 | Removes and closes idle entries in some order of the map |
| McpCache.MCPClientManager.Close | internal/agent/mcp_client.go:248-274 | Closes the cached clients in some order and then the retired ones; the maps stay |
| McpCacheRuns.SweepSplits | internal/agent/mcp_client.go:178-188 | A sweep divides the retired clients between kept and closed, each exactly once |
| McpCacheRuns.StepKeepsOwnership | internal/agent/mcp_client.go:100-218 | Every step keeps each stored client in exactly one of cached, retired, closed, and the three maps on one domain |
| McpCacheRuns.StepKeepsCalls | internal/agent/mcp_client.go:81-140 | Every step keeps what the calls in flight know in line with the cache |
| McpCacheRuns.InvHolds | internal/agent/mcp_client.go:81-218 | Both hold after any interleaving of calls, evictions, idle sweeps and time |
| McpCacheRuns.VersionsGuardEntries | internal/agent/mcp_client.go:48-53 | Over any stretch of any run an unchanged version means an unchanged client and fingerprint |
| McpCacheRuns.FirstRoundMemory | internal/agent/mcp_client.go:100-117 | A first refresh in flight remembers the version and entry of the moment it began |
| McpCacheRuns.StoreReplacesWhatItSaw | internal/agent/mcp_client.go:100-140 | A first refresh that stores replaces the entry present when it began, which stayed throughout |
| McpCacheRuns.EvictionInvalidatesRefresh | internal/agent/mcp_client.go:154-165 | A first refresh that began before an unconditional eviction never stores |
| McpCacheRuns.ReturnedIsFresh | internal/agent/mcp_client.go:81-141 | In every run a call that returned a client began, then read the server as it was stored, then committed: the client has the fingerprint of that server and was the cached one right after the commit |
| McpCacheRuns.ReturnedClientIsCached | internal/agent/mcp_client.go:117-140 | One commit: a returned client is cached under this call's fingerprint, and a second refresh never yields |
| McpCacheRuns.BuiltFromOwnRead | internal/agent/mcp_client.go:107-116 | The candidate in flight carries the fingerprint of the server object as stored at a moment of this call |
| McpCacheRuns.FingerprintTells | internal/agent/mcp_client.go:118-118 | Servers with another configuration or another UID have another fingerprint |
| McpCacheRuns.ReturnedWasBuiltFromRead | internal/agent/mcp_client.go:81-141 | In every run a client that a call returned was built, by that call or an earlier one, from a server with the configuration and UID that the call itself read |
| McpCacheRuns.FirstRefreshYields | internal/agent/mcp_client.go:117-128 | A first refresh yields iff the version of the key has moved since the call began and what is cached now has another fingerprint |
| McpCacheRuns.WorldIsAsEventsSay | internal/agent/mcp_client.go:102-116 | What a call reads is what was last stored under the key, and the clock shows the time passed |
| McpCacheRuns.CallsOnlyAdvance | internal/agent/mcp_client.go:81-99 | A call never goes back to an earlier stage and every step of it brings it closer to its end, so it takes at most six |
| McpCacheRuns.AtMostTwoRefreshes | internal/agent/mcp_client.go:81-99 | GetClient begins once and begins again at most once |
| McpCacheRuns.RetiredUntilGrace | internal/agent/mcp_client.go:178-188 | One step keeps a retired client unless its grace is over, and then closes it |
| McpCacheRuns.ClosedForGood | internal/agent/mcp_client.go:130-218 | A closed client is never cached or retired again and is never closed twice |
| McpCacheRuns.GraceIsKept | internal/agent/mcp_client.go:178-188 | Over any run a retired client is closed only after its grace |
| McpCacheRuns.ReturnedClientLives | internal/agent/mcp_client.go:130-218 | In every run a client returned at a commit is closed only after the grace period from then on, or by an idle sweep that found it unused for longer than its idle time |
| McpCacheRuns.EvictIdleExact | internal/agent/mcp_client.go:190-218 | Exactly the idle entries go, whatever the order of the map |
| McpCacheRuns.CloseHandsOverTheRest | internal/agent/mcp_client.go:248-274 | After Close every stored client has been closed exactly once |
| Redaction.RedactTwice | internal/workflow/executor/audit_redaction.go:56-96 | Redacting by S and then by T is redacting by their union |
| Redaction.RedactContextLaws | internal/workflow/executor/audit_redaction.go:48-54 | Hence redaction of a context is idempotent and commutative, nil contexts included |
| Redaction.RedactedCopyAt | internal/workflow/executor/audit_redaction.go:56-96 | Above redacted positions the copy keeps keys, lengths and leaves; at them it has the placeholder |
| Redaction.AgreeingRedactAlike | internal/workflow/executor/audit_redaction.go:56-96 | Values alike outside redacted positions have one copy |
| Redaction.SameCopyIffAgree | internal/workflow/executor/audit_redaction.go:48-96 | Two contexts have the same copy iff they differ at redacted positions only |
| Redaction.SensitiveIsHidden | internal/workflow/executor/audit_redaction.go:56-96 | Wherever outside the two sections a map holds "outputs" or "variables" with a sensitive name, the copy has "<redacted:sensitive>" there |
| Redaction.SensitiveContextIsHidden | internal/workflow/executor/audit_redaction.go:48-96 | In particular in the context itself |
| Redaction.SensitiveValueIsFree | internal/workflow/executor/audit_redaction.go:48-96 | Contexts that differ in such a value only have the same copy |
| Redaction.OthersAreShown | internal/workflow/executor/audit_redaction.go:56-96 | Outside the sections, and in them under names that are not sensitive, the copy shows the same keys, lengths and leaves |
| Redaction.SensitiveOutputNames | internal/workflow/executor/audit_redaction.go:21-40 | The set holds exactly the names marked sensitive in some output of the workflow, a step or an inline forEach step |
| ToolLoop.DispatchToolCalls | internal/agent/toolloop/loop.go:120-142 | All calls answered in order, or the first that fails decides the error |
| ToolLoop.ReadStream | internal/agent/toolloop/loop.go:66-100 | Text, calls, candidate flag and usage of everything before the first nil response; a stream error anywhere before it fails |
| ToolLoop.ReadRound | internal/agent/toolloop/loop.go:66-114 | The round is the one the reply and the tools determine |
| ToolLoop.Run | internal/agent/toolloop/loop.go:51-118 | The messages sent and the outcome form a conversation of at most the effective limit, with the last usage seen |
| ToolLoop.ResultsAnswerCalls | internal/agent/toolloop/loop.go:107-142 | Each later send has one result per call of the round before, in order, under the same IDs and names, every tool having worked |
| ToolLoop.AnswerIffNoCalls | internal/agent/toolloop/loop.go:96-106 | Success iff the last round had a candidate and no calls, with that round's text |
| ToolLoop.RoundUnique | internal/agent/toolloop/loop.go:66-142 | Reply and tools leave no choice in a round |
| ToolLoop.ConversationUnique | internal/agent/toolloop/loop.go:51-118 | Nor in the whole conversation |
| ToolLoop.LastRound | internal/agent/toolloop/loop.go:51-118 | A conversation ends on a round that would go on only at the limit, and then with the limit error |
| EventNotes.CutAtRuneStart | internal/workflow/controller/scheduler_events.go:60-69 | A valid text cut at the start of a character is valid |
| EventNotes.RuneStartNearby | internal/workflow/controller/scheduler_events.go:60-69 | In a valid text a character starts at any position or at most three bytes before |
| EventNotes.ValidIsEncoded | internal/workflow/controller/scheduler_events.go:60-69 | Bytes count as valid only if they are the encoding of a text, by the table of RFC 3629, section 3 |
| EventNotes.EncodedIsValid | internal/workflow/controller/scheduler_events.go:60-69 | And the encoding of every text is valid |
| EventNotes.TruncateEventNote | internal/workflow/controller/scheduler_events.go:60-69 | A prefix of at most 1024 bytes, valid when the input is, the latest cut that splits no character, and at least 1021 bytes of a longer valid text |
| EventNotes.RecordUncheckedSecretMounts | internal/workflow/controller/secret_mount_check.go:90-111 | Lists as many origins as fit, counts exactly the rest, and stays within 1023 bytes for up to 999999 of them |
| EventNotes.NoteSays | internal/workflow/controller/secret_mount_check.go:90-111 | The words of the note: the fixed beginning, the listed origins, and how many more there are |
| Text.ItoaReadsBack | internal/workflow/controller/secret_mount_check.go:107-110 | Reading the digits of the count back gives the count |
| EventNotes.NoteIsShort | internal/workflow/controller/secret_mount_check.go:90-111 | Within the limit for up to 999999 origins left over, and beyond that over it by at most the extra digits of the count |
| EventNotes.NoteKeepsLimitIff | internal/workflow/controller/secret_mount_check.go:98-110 | A note leaving origins out is within the limit iff its trimmed list, fourteen bytes and the digits of the count are |
| EventNotes.ListedIsUnique | internal/workflow/controller/secret_mount_check.go:97-107 | Only one number of listed origins fits while one more does not |
| EventNotes.MillionOverflows | internal/workflow/controller/secret_mount_check.go:90-111 | A list of 1000001 origins whose note has 1024 bytes |
| RunAdmission.StepKeepsInv | internal/a2a/server.go:403-491 | Every step keeps mutual exclusion, with the lock held exactly by the call in the critical section, and a count that the real number of active runs never exceeds |
| RunAdmission.CapHolds | internal/a2a/server.go:403-491 | No interleaving of calls and finishing runs exceeds a positive limit |
| RunAdmission.HolderMovesOn | internal/a2a/server.go:403-428 | The call in possession of the lock can take its next step, failed lists and creates included, and reaches the release |
| RunAdmission.CreateAddsRun | internal/a2a/server.go:430-472 | A create past the count adds one active run under its name, changes no other, and stays within the limit |
| RunAdmission.RefusedOnlyAtLimit | internal/a2a/server.go:417-428 | A counted call is turned away iff the limit is exactly reached |
| RunAdmission.UncappedWithoutLimit | internal/a2a/server.go:417-428 | Without a positive limit two calls leave two active runs |
| RunPhases.ProgressShrinks | api/v1alpha1/workflowrun_types.go:463-472 | With terminal phases final, other controllers only shrink the sets of active runs |
| Scheduler.TablesMatchHistory | internal/workflow/controller/scheduler.go:86-127 | After any operations live entries and registered keys are in bijection, a key is registered iff its last operation registered it, and its workflow and trigger are those last added |
| Scheduler.PerformConsistent | internal/workflow/controller/scheduler.go:86-127 | One operation keeps the bijection |
| Scheduler.CronScheduler.AddSchedule | internal/workflow/controller/scheduler.go:86-113 | The tables after adding, a schedule that does not parse losing the old entry |
| Scheduler.CronScheduler.RemoveSchedule | internal/workflow/controller/scheduler.go:116-127 | The tables after removing |
| Scheduler.HasActiveWorkflowRun | internal/workflow/controller/scheduler.go:222-239 | True iff a cron run is active |
| Scheduler.CountActiveWorkflowRuns | internal/workflow/controller/scheduler.go:205-220 | The number of active runs outside the given names |
| Scheduler.CancelActiveWorkflowRuns | internal/workflow/controller/scheduler.go:241-265 | On success no cron run is active; undisturbed it succeeds and fails exactly the active cron runs |
| Scheduler.Admit | internal/workflow/controller/scheduler.go:182-193 | Admitted means below the limit when the create comes; undisturbed, iff below it |
| Scheduler.CronScheduler.HandleCronFire | internal/workflow/controller/scheduler.go:149-201 | With others at work the fire is progress followed by at most one create, past the guards of policy and limit; undisturbed, a run is created iff they permit, with the exact resulting runs |
| Scheduler.CreateKeepsPolicy | internal/workflow/controller/scheduler.go:163-201 | A run created past the guards of a fire is the only active cron run under Forbid and Replace and stays within the limit |
| Scheduler.PolicyHolds | internal/workflow/controller/scheduler.go:149-201 | Over any history of such fires Forbid and Replace keep at most one active cron run and no policy exceeds a positive limit |
| Exposure.StepKeepsInv | internal/workflow/controller/exposure_controller.go:94-156 | Every API call, crash or outside change keeps the invariant behind the finalizer protocol |
| Exposure.CreatedAgentIsGuarded | internal/workflow/controller/exposure_controller.go:94-156 | In every state of every run an Agent created under the computed name exists only while the Workflow carries the finalizer |
| Exposure.NothingLeftBehind | internal/workflow/controller/exposure_controller.go:113-126 | A Workflow gone or without finalizer leaves no such Agent |
| Exposure.PassPublishes | internal/workflow/controller/exposure_controller.go:94-156 | An undisturbed pass over a Workflow to be exposed sets the finalizer and leaves the Agent of the computed name with the three labels and the spec, the others with those labels gone and all without them untouched; or it refuses because another Agent has that name, and changes none |
| Exposure.PassTearsDown | internal/workflow/controller/exposure_controller.go:113-126 | An undisturbed pass over a Workflow deleted or not to be exposed removes the Agent and the finalizer |
| Exposure.WorkflowIsAsWanted | internal/workflow/controller/exposure_controller.go:94-136 | Over any run the reconciler loses no edit of the users: UID, exposure and deletion of the Workflow are those of the last edits |
| Exposure.OnlyManagedAgentsChange | internal/workflow/controller/exposure_controller.go:241-308 | In every run a create, update or prune leaves alone all Agents without the three labels, exactly unless somebody replaced a listed Agent by such a one, and nothing else happened to it, while the prune was under way |
| Exposure.ListedInPass | internal/workflow/controller/exposure_controller.go:279-300 | What a prune still has to delete was found, with the three labels, when this pass listed the Agents |
| Exposure.UntouchedInPass | internal/workflow/controller/exposure_controller.go:288-308 | Until its delete a listed Agent changes through outside events only |
| Exposure.PruneMayDeleteAReplacement | internal/workflow/controller/exposure_controller.go:279-308 | The run that shows it: an Agent put in the place of a listed one is deleted despite other labels |
| Rbac.Scoped | cli/internal/rbac/generator.go:206-232 | A rule is confined iff the namespace is a literal, bare or in double quotes, and then to that literal |
| Rbac.GroupVerbs | cli/internal/rbac/generator.go:242-270 | Each key has exactly the verbs of its rules |
| Rbac.CoalesceRules | cli/internal/rbac/generator.go:242-294 | One rule per key, keys strictly increasing, verbs sorted |
| Rbac.CoalesceConserves | cli/internal/rbac/generator.go:242-294 | Merging keeps the set of grants, and merged keys and verbs are strictly sorted |
| Rbac.BuildObjects | cli/internal/rbac/generator.go:299-331 | The objects in the order of the code: account, roles by namespace with bindings, cluster role |
| Rbac.ObjectsConserve | cli/internal/rbac/generator.go:299-434 | As tuples, the objects hold a grant for the account iff the rules contain it |
| Rbac.ObjectsPermit | cli/internal/rbac/generator.go:299-434 | By RBAC authorization, with wildcards, unnamed rules and ClusterRoles serving every namespace, the objects permit a request iff a grant of the rules covers it |
| Rbac.RunnerMayExactly | cli/internal/rbac/generator.go:67-134 | The runner may make a request iff a grant extracted from the steps covers it, which is iff a body of some step or inline forEach asks for it: get and list on a queried kind, get, patch and update on a mutated one, in the literal namespace or else everywhere, and invoke on the caller resource in the executor's namespace |
| Rbac.GrantsAreNeeds | cli/internal/rbac/generator.go:82-191 | The grants extracted from the steps cover a request iff the fields of a step ask for it |
| Rbac.GroupIs | cli/internal/rbac/generator.go:477-484 | The group is what stands before the slash, and a bare version belongs to the core group |
| Rbac.PluralAfterConsonant | cli/internal/rbac/generator.go:515-520 | A y after a consonant becomes ies |
| Rbac.PluralAfterHiss | cli/internal/rbac/generator.go:521-524 | Kinds ending in ss, x, ch or sh take es |
| Rbac.PluralOtherwise | cli/internal/rbac/generator.go:525 | All other kinds take s, "endpoints" being one already |
| Rbac.PluralOfKind | cli/internal/rbac/generator.go:506-511 | A kind with a capital is made plural in lower case, and a name without one is a resource already |
| Rbac.PluralExamples | cli/internal/rbac/generator.go:498-526 | Deployment, NetworkPolicy, Ingress and others in full |
| Rbac.SameGrantsSameRules | cli/internal/rbac/generator.go:242-294 | Two rule lists merge alike iff they grant the same |
| Rbac.RulesOfGrants | cli/internal/rbac/generator.go:67-134 | The rules of all steps grant the union of what is extracted from each step |
| Rbac.GenerateForWorkflow | cli/internal/rbac/generator.go:67-80 | The generated objects permit the runner exactly the requests that the fields of the steps ask for, and hold exactly the extracted grants |
| Rbac.ObjectsAreCanonical | cli/internal/rbac/generator.go:67-80 | Two Workflows of one name get the same objects iff the same grants are extracted from their steps |
| Rbac.ReorderingStepsKeepsObjects | cli/internal/rbac/generator.go:67-80 | Reordering the steps gives the same objects |
| Ordering.SortedUnique | cli/internal/rbac/generator.go:528-535 | Sorting keys is canonical: two strictly sorted lists of the same members are equal |
| Ordering.StringLessIs | cli/internal/rbac/generator.go:528-535 | A string comes first iff it ends, or has the smaller character, where the two first differ |

## Left out

- Error message texts; errors are told apart by kind and object only.
- The quoting of names in origins and in the diagnosis follows Go's `%q` without its escapes.
- JSON encoding of the mount map and of the origins annotation, and the size cap of the latter.
- RunnerConfig.BuildMCPClientConfig: durations arrive parsed and are cut to whole seconds exactly, without the rounding of a float; the choice of the kubeconfig path is a parameter.
- SecretRefWalk.AuthSecretRefs: its own contract states the references as a set; their order and origins are in SecretRefWalk.AuthRefsListed.
- SecretRefWalk.ExternalAgentRefSecretRefs: the same, with SecretRefWalk.ExternalRefsListed.
- SecretRefWalk.CollectSecretRefs: states the references as a set and how their origins begin, since the layout depends on no more; order and repetition across steps are left out.
- SecretRefWalk.RunNamespaceMustMatch: speaks of all stores at once; the statement for one run is SecretRefWalk.CollectsAllIff.
- RunnerAgreement.FileEqualsAPI: compares with an API that answers; API failures other than NotFound, unreadable files, a mount map that does not parse and symbolic links are left out.
- RunnerAgreement.FileIsUnique: speaks of the generated volumes; files of other mounts are covered by RunnerAgreement.FileEqualsAPI.
- McpCacheRuns.BuiltFromOwnRead: reading the server object and resolving its Secrets count as one step.
- The kubeconfig reader (internal/workflow/cluster/resolve.go); the kubeconfig volume itself is part of the layout.
- The DAG builder and the step executor: no claim says which steps run.
- Objects that change between the controller's preparation and the runner's own reads.
- Exact per-volume origins: an optional origin stays listed when its only key was promoted to mandatory, so only the presence of a true origin is stated.
- MountLayout.OrderIndependent: leaves the origins map out, because origins are listed in order of first appearance.
- The MCP manager after Close, whose maps stay filled, and overflow of version counters.
- Any grace period for idle eviction, which closes at once.
- Redaction of an "outputs" map directly under a "variables" map: it is walked as a plain value, and positions are defined by the two functions as written.
- Values in a context other than maps, lists, strings, numbers, booleans and nil.
- The contents of a run created by the scheduler or the A2A server, its inputs and labels; only its phase and trigger matter here.
- The status patch after the scheduler's create, polling for a terminal phase, and the Event a failed fire records.
- Scheduler.CronScheduler.HandleCronFire: when others interfere during a fire it states safety only, because the outcome then depends on them.
- Stale caches and phases that leave a terminal state: assumed away as listed above.
- Exposure: teardown deletes by computed name whoever owns the Agent, so no ownership is claimed there; RBAC fixtures and the Agent's contents are left out.
- StepTemplates, sub-Workflows and templated forEach bodies in RBAC generation: the generator does not follow them.
- RBAC warnings, labels and YAML output; lower-casing is that of ASCII, which covers Kubernetes kinds.
- The check of Secrets before Job creation, its failure reasons, and the handling of stuck pods around the attribution text.
- The callback server, HTTP and SSE handling, certificates and tracing: input and output only.
