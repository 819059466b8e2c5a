/** The custom resources the walkers read, reduced to the fields they look at, and the API server
    as an immutable snapshot of them. */
module Cluster {
  import opened Wrappers

  datatype NamespacedName = NamespacedName(ns: string, name: string)

  /** What a Get returns for a stored name: the object, or an API error other than NotFound.
      A name that is not stored at all is NotFound. */
  datatype Entry<+T> = Object(spec: T) | Unavailable

  /** A reference whose empty namespace defaults to its consumer's. */
  datatype ObjectRef = ObjectRef(name: string, ns: string) {
    function In(effectiveNs: string): NamespacedName {
      NamespacedName(if ns == "" then effectiveNs else ns, name)
    }
  }

  datatype SecretReference = SecretReference(name: string, ns: string, key: string) {
    function Ns(effectiveNs: string): string { if ns == "" then effectiveNs else ns }
  }

  datatype ExternalAgentRef = ExternalAgentRef(caSecretRef: Option<ObjectRef>, authSecretRef: Option<SecretReference>)

  /** The reference-bearing fields shared by a Step, a forEach child and a StepTemplate body. */
  datatype LeafStep = LeafStep(
    externalAgentRef: Option<ExternalAgentRef>,
    mcpToolCall: Option<string>,  // the server called
    agentRef: Option<ObjectRef>,
    workflowRef: Option<ObjectRef>)

  datatype ForEach = ForEach(step: Option<LeafStep>, stepTemplateRef: Option<ObjectRef>)

  datatype Step = Step(
    name: string,
    body: LeafStep,
    stepTemplateRef: Option<ObjectRef>,
    forEach: Option<ForEach>,
    matchConditions: seq<string>,
    failurePolicy: string)

  datatype Workflow = Workflow(steps: seq<Step>)

  datatype Agent = Agent(mcpTools: seq<string>, modelProvider: string)

  datatype SecretKeySelector = SecretKeySelector(name: string, key: string, optional: bool)
  datatype EnvVar = EnvVar(name: string, value: string, secretKeyRef: Option<SecretKeySelector>)
  datatype OAuth2Config = OAuth2Config(
    tokenURL: string, scopes: seq<string>,
    clientID: string, clientSecretRef: Option<SecretReference>, clientCredentialsRef: Option<ObjectRef>)
  datatype AuthConfig = AuthConfig(kind: string, secretRef: Option<SecretReference>, oauth2: Option<OAuth2Config>)
  /** `timeout` is spec.timeout in nanoseconds, None when it is empty or no duration. */
  datatype MCPServer = MCPServer(
    transport: string, address: string, headers: map<string, string>, command: seq<string>, timeout: Option<int>,
    env: seq<EnvVar>, auth: Option<AuthConfig>)

  datatype Store = Store(
    workflows: map<NamespacedName, Entry<Workflow>>,
    templates: map<NamespacedName, Entry<LeafStep>>,
    agents: map<NamespacedName, Entry<Agent>>,
    servers: map<NamespacedName, Entry<MCPServer>>)

  predicate Found<T>(m: map<NamespacedName, Entry<T>>, key: NamespacedName) {
    key in m && m[key].Object?
  }
}
