/** internal/agent/mcp_client_impl.go: the Secret lookups the runner makes to connect to an MCPServer,
    derived from the server's spec on their own and in another process than the collector. */
module RunnerConfig {
  import opened Wrappers
  import opened Cluster
  import opened SecretMount

  /** Reads one Secret key: from the API or from the mounted files. */
  type Reader = (string, string, string) -> Lookup

  datatype ConfigError =
    | StdioNeedsCommand | HttpNeedsAddress | UnsupportedTransport
    | EnvUnresolved(envVar: string) | SecretRefRequired | OAuth2Required
    | CredentialUnresolved(what: string) | EmptyCredentials

  datatype AuthSettings = AuthSettings(kind: string, token: string, apiKey: string, username: string, password: string)
  datatype OAuthSettings = OAuthSettings(tokenURL: string, scopes: seq<string>, clientID: string, clientSecret: string)
  datatype ClientConfig = ClientConfig(
    name: string, command: string, args: seq<string>, timeout: int, env: seq<string>,
    url: string, useStreaming: bool, headers: map<string, string>,
    auth: Option<AuthSettings>, oauth: Option<OAuthSettings>)

  const EMPTY_CONFIG := ClientConfig("", "", [], 0, [], "", false, map[], None, None)

  const NANOSECONDS := 1_000_000_000
  const DEFAULT_STDIO_TIMEOUT := 90

  /** int(d.Seconds()): truncated toward zero. */
  function Seconds(d: int): (s: int)
    ensures d >= 0 ==> s * NANOSECONDS <= d < (s + 1) * NANOSECONDS
    ensures d < 0 ==> (s - 1) * NANOSECONDS < d <= s * NANOSECONDS
  {
    if d >= 0 then d / NANOSECONDS else -(-d / NANOSECONDS)
  }

  function StdioTimeout(timeout: Option<int>): int {
    if timeout.Some? && timeout.value > 0 && Seconds(timeout.value) > 0 then Seconds(timeout.value)
    else DEFAULT_STDIO_TIMEOUT
  }

  function HttpTimeout(timeout: Option<int>): int { if timeout.Some? then Seconds(timeout.value) else 0 }

  /** None leaves the variable unset. */
  function ResolveEnvValue(read: Reader, ns: string, ev: EnvVar): Result<Option<string>, ConfigError> {
    if ev.value != "" then Success(Some(ev.value))
    else if ev.secretKeyRef.Some? then
      var sel := ev.secretKeyRef.value;
      match read(ns, sel.name, sel.key)
      case Value(v) => Success(Some(v))
      case NotFound => if sel.optional then Success(None) else Failure(EnvUnresolved(ev.name))
      case Broken => Failure(EnvUnresolved(ev.name))
    else Success(Some(""))
  }

  /** The environment in order, or the first variable that cannot be resolved. */
  function EnvOf(read: Reader, ns: string, env: seq<EnvVar>): Result<seq<string>, ConfigError> {
    if env == [] then Success([])
    else
      var val :- ResolveEnvValue(read, ns, env[0]);
      var rest :- EnvOf(read, ns, env[1..]);
      Success((if val.Some? then [env[0].name + "=" + val.value] else []) + rest)
  }

  function Credential(read: Reader, ns: string, name: string, key: string, what: string): Result<string, ConfigError> {
    var v := read(ns, name, key);
    if v.Value? then Success(v.value) else Failure(CredentialUnresolved(what))
  }

  function ResolveAuthConfigs(read: Reader, ns: string, auth: AuthConfig)
    : Result<(AuthSettings, Option<OAuthSettings>), ConfigError>
  {
    var ac := AuthSettings(if auth.kind == "apiKey" then "api-key" else auth.kind, "", "", "", "");
    if auth.kind == "bearer" || auth.kind == "apiKey" then
      if auth.secretRef.None? then Failure(SecretRefRequired)
      else
        var sr := auth.secretRef.value;
        var token :- Credential(read, sr.Ns(ns), sr.name, sr.key, "auth secret");
        Success((ac.(token := token, apiKey := if auth.kind == "apiKey" then token else ""), None))
    else if auth.kind == "basic" then
      if auth.secretRef.None? then Failure(SecretRefRequired)
      else
        var sr := auth.secretRef.value;
        var username :- Credential(read, sr.Ns(ns), sr.name, "username", "username");
        var password :- Credential(read, sr.Ns(ns), sr.name, "password", "password");
        if username == "" || password == "" then Failure(EmptyCredentials)
        else Success((ac.(username := username, password := password), None))
    else if auth.kind == "oauth2" then
      if auth.oauth2.None? then Failure(OAuth2Required)
      else
        var oauth :- ResolveOAuth2(read, ns, auth.oauth2.value);
        if oauth.clientID == "" || oauth.clientSecret == "" then Failure(EmptyCredentials)
        else Success((ac, Some(oauth)))
    else Success((ac, None))
  }

  function ResolveOAuth2(read: Reader, ns: string, oauth2: OAuth2Config): Result<OAuthSettings, ConfigError> {
    if oauth2.clientCredentialsRef.Some? then
      var k := oauth2.clientCredentialsRef.value.In(ns);
      var clientID :- Credential(read, k.ns, k.name, "client_id", "client_id");
      var clientSecret :- Credential(read, k.ns, k.name, "client_secret", "client_secret");
      Success(OAuthSettings(oauth2.tokenURL, oauth2.scopes, clientID, clientSecret))
    else if oauth2.clientID != "" && oauth2.clientSecretRef.Some? then
      var sr := oauth2.clientSecretRef.value;
      var v :- Credential(read, sr.Ns(ns), sr.name, sr.key, "client secret");
      Success(OAuthSettings(oauth2.tokenURL, oauth2.scopes, oauth2.clientID, v))
    else Success(OAuthSettings(oauth2.tokenURL, oauth2.scopes, "", ""))
  }

  /** The client configuration of the server `key` as a function of what its Secrets hold. */
  function ConfigOf(read: Reader, key: NamespacedName, server: MCPServer, kubeconfigPath: string)
    : Result<ClientConfig, ConfigError>
  {
    if server.transport == "stdio" then
      if server.command == [] then Failure(StdioNeedsCommand)
      else
        var env :- EnvOf(read, key.ns, server.env);
        Success(EMPTY_CONFIG.(name := key.name, command := server.command[0], args := server.command[1..],
                              timeout := StdioTimeout(server.timeout),
                              env := (if kubeconfigPath != "" then ["KUBECONFIG=" + kubeconfigPath] else []) + env))
    else if server.transport == "http" || server.transport == "sse" then
      if server.address == "" then Failure(HttpNeedsAddress)
      else
        var cfg := EMPTY_CONFIG.(name := key.name, url := server.address, useStreaming := server.transport == "sse",
                                 timeout := HttpTimeout(server.timeout), headers := server.headers);
        if server.auth.None? then Success(cfg)
        else
          var auth :- ResolveAuthConfigs(read, key.ns, server.auth.value);
          Success(cfg.(auth := Some(auth.0), oauth := auth.1))
    else Failure(UnsupportedTransport)
  }

  // ---------------------------------------------------------------- what each setting holds

  /** `v` is what is read under `key` of the Secret `name`, in the namespace written or else in `ns`. */
  ghost predicate ReadAs(read: Reader, written: string, ns: string, name: string, key: string, v: string) {
    read(if written != "" then written else ns, name, key) == Value(v)
  }

  ghost predicate OAuthIs(read: Reader, ns: string, oauth2: OAuth2Config, o: OAuthSettings) {
    && o.tokenURL == oauth2.tokenURL && o.scopes == oauth2.scopes && o.clientID != "" && o.clientSecret != ""
    && if oauth2.clientCredentialsRef.Some? then
         var ref := oauth2.clientCredentialsRef.value;
         && ReadAs(read, ref.ns, ns, ref.name, "client_id", o.clientID)
         && ReadAs(read, ref.ns, ns, ref.name, "client_secret", o.clientSecret)
       else
         && oauth2.clientSecretRef.Some? && o.clientID == oauth2.clientID
         && var sr := oauth2.clientSecretRef.value;
            ReadAs(read, sr.ns, ns, sr.name, sr.key, o.clientSecret)
  }

  /** Every credential in its own place, and nothing else set. */
  ghost predicate AuthIs(read: Reader, ns: string, auth: AuthConfig, s: AuthSettings, o: Option<OAuthSettings>) {
    match auth.kind
    case "bearer" =>
      && o.None? && s == AuthSettings("bearer", s.token, "", "", "") && auth.secretRef.Some?
      && var sr := auth.secretRef.value; ReadAs(read, sr.ns, ns, sr.name, sr.key, s.token)
    case "apiKey" =>
      && o.None? && s == AuthSettings("api-key", s.token, s.token, "", "") && auth.secretRef.Some?
      && var sr := auth.secretRef.value; ReadAs(read, sr.ns, ns, sr.name, sr.key, s.token)
    case "basic" =>
      && o.None? && s == AuthSettings("basic", "", "", s.username, s.password) && auth.secretRef.Some?
      && s.username != "" && s.password != ""
      && var sr := auth.secretRef.value;
         && ReadAs(read, sr.ns, ns, sr.name, "username", s.username)
         && ReadAs(read, sr.ns, ns, sr.name, "password", s.password)
    case "oauth2" =>
      && s == AuthSettings("oauth2", "", "", "", "") && o.Some? && auth.oauth2.Some?
      && OAuthIs(read, ns, auth.oauth2.value, o.value)
    case _ => o.None? && s == AuthSettings(auth.kind, "", "", "", "")
  }

  lemma ResolveOAuth2Iff(read: Reader, ns: string, oauth2: OAuth2Config, o: OAuthSettings)
    ensures OAuthIs(read, ns, oauth2, o)
       <==> ResolveOAuth2(read, ns, oauth2) == Success(o) && o.clientID != "" && o.clientSecret != ""
  {
  }

  /** The credentials are resolved to exactly those settings. */
  lemma ResolveAuthIff(read: Reader, ns: string, auth: AuthConfig, s: AuthSettings, o: Option<OAuthSettings>)
    ensures AuthIs(read, ns, auth, s, o) <==> ResolveAuthConfigs(read, ns, auth) == Success((s, o))
  {
    hide ResolveOAuth2, OAuthIs;
    if auth.kind == "oauth2" && auth.oauth2.Some? {
      forall x { ResolveOAuth2Iff(read, ns, auth.oauth2.value, x); }
    }
  }

  /** A variable's value as given, as read, or left out when an optional one is absent. */
  ghost predicate ValueIs(read: Reader, ns: string, ev: EnvVar, v: Option<string>) {
    if ev.value != "" then v == Some(ev.value)
    else if ev.secretKeyRef.None? then v == Some("")
    else
      var sel := ev.secretKeyRef.value;
      var at := read(ns, sel.name, sel.key);
      (at.Value? && v == Some(at.value)) || (at.NotFound? && sel.optional && v.None?)
  }

  ghost function Entries(env: seq<EnvVar>, values: seq<Option<string>>): seq<string>
    requires |env| == |values|
  {
    if env == [] then []
    else (if values[0].Some? then [env[0].name + "=" + values[0].value] else []) + Entries(env[1..], values[1..])
  }

  ghost predicate EnvIs(read: Reader, ns: string, env: seq<EnvVar>, values: seq<Option<string>>, out: seq<string>) {
    && |values| == |env| && (forall i :: 0 <= i < |env| ==> ValueIs(read, ns, env[i], values[i]))
    && out == Entries(env, values)
  }

  lemma {:induction false} EnvHasValues(read: Reader, ns: string, env: seq<EnvVar>, out: seq<string>)
    returns (values: seq<Option<string>>)
    requires EnvOf(read, ns, env) == Success(out)
    ensures EnvIs(read, ns, env, values, out)
  {
    if env == [] {
      values := [];
    } else {
      var rest := EnvHasValues(read, ns, env[1..], EnvOf(read, ns, env[1..]).value);
      values := [ResolveEnvValue(read, ns, env[0]).value] + rest;
      assert values[1..] == rest;
    }
  }

  lemma {:induction false} ValuesGiveEnv(read: Reader, ns: string, env: seq<EnvVar>, values: seq<Option<string>>,
                                         out: seq<string>)
    requires EnvIs(read, ns, env, values, out)
    ensures EnvOf(read, ns, env) == Success(out)
  {
    if env != [] {
      ValuesGiveEnv(read, ns, env[1..], values[1..], Entries(env[1..], values[1..]));
      assert ValueIs(read, ns, env[0], values[0]);
    }
  }

  ghost predicate EnvResolved(read: Reader, ns: string, env: seq<EnvVar>, out: seq<string>) {
    exists values :: EnvIs(read, ns, env, values, out)
  }

  /** A whole configuration, setting by setting. */
  ghost predicate ConfigIs(read: Reader, key: NamespacedName, server: MCPServer, kubeconfigPath: string,
                           cfg: ClientConfig) {
    && cfg.name == key.name
    && (server.transport == "stdio" ==>
          && server.command == [cfg.command] + cfg.args && cfg.url == "" && !cfg.useStreaming && cfg.headers == map[]
          && cfg.auth.None? && cfg.oauth.None?
          && (if server.timeout.Some? && server.timeout.value >= 1_000_000_000
              then Truncated(server.timeout.value, cfg.timeout) else cfg.timeout == 90)
          && exists out :: && EnvResolved(read, key.ns, server.env, out)
                           && cfg.env == (if kubeconfigPath != "" then ["KUBECONFIG=" + kubeconfigPath] else []) + out)
    && (server.transport != "stdio" ==>
          && (server.transport == "http" || server.transport == "sse")
          && cfg.url == server.address != "" && (cfg.useStreaming <==> server.transport == "sse")
          && cfg.headers == server.headers && cfg.command == "" && cfg.args == [] && cfg.env == []
          && (if server.timeout.Some? then Truncated(server.timeout.value, cfg.timeout) else cfg.timeout == 0)
          && if server.auth.None? then cfg.auth.None? && cfg.oauth.None?
             else cfg.auth.Some? && AuthIs(read, key.ns, server.auth.value, cfg.auth.value, cfg.oauth))
  }

  /** `s` is `d` nanoseconds in whole seconds, truncated toward zero. */
  predicate Truncated(d: int, s: int) {
    if d >= 0 then s * 1_000_000_000 <= d < (s + 1) * 1_000_000_000
    else (s - 1) * 1_000_000_000 < d <= s * 1_000_000_000
  }

  lemma EnvIff(read: Reader, ns: string, env: seq<EnvVar>, out: seq<string>)
    ensures EnvResolved(read, ns, env, out) <==> EnvOf(read, ns, env) == Success(out)
  {
    hide EnvIs, EnvOf;
    if EnvResolved(read, ns, env, out) {
      var values :| EnvIs(read, ns, env, values, out);
      ValuesGiveEnv(read, ns, env, values, out);
    }
    if EnvOf(read, ns, env) == Success(out) {
      var values := EnvHasValues(read, ns, env, out);
    }
  }

  /** The configuration succeeds exactly with those settings. */
  lemma ConfigOfIff(read: Reader, key: NamespacedName, server: MCPServer, kubeconfigPath: string, cfg: ClientConfig)
    ensures ConfigIs(read, key, server, kubeconfigPath, cfg)
       <==> ConfigOf(read, key, server, kubeconfigPath) == Success(cfg)
  {
    hide EnvOf, EnvResolved, AuthIs, ResolveAuthConfigs;
    forall out { EnvIff(read, key.ns, server.env, out); }
    if server.auth.Some? {
      forall s, o { ResolveAuthIff(read, key.ns, server.auth.value, s, o); }
    }
  }

  // ---------------------------------------------------------------- what each failure means

  ghost predicate HasNoValue(read: Reader, ns: string, ev: EnvVar) {
    && ev.value == "" && ev.secretKeyRef.Some?
    && var sel := ev.secretKeyRef.value;
       var at := read(ns, sel.name, sel.key);
       at.Broken? || (at.NotFound? && !sel.optional)
  }

  /** The error names the first variable that is demanded and cannot be read. */
  ghost predicate EnvFailsWith(read: Reader, ns: string, env: seq<EnvVar>, e: ConfigError) {
    exists i :: 0 <= i < |env| && HasNoValue(read, ns, env[i]) && e == EnvUnresolved(env[i].name)
             && forall j :: 0 <= j < i ==> !HasNoValue(read, ns, env[j])
  }

  lemma {:induction false} EnvFailsIff(read: Reader, ns: string, env: seq<EnvVar>, e: ConfigError)
    ensures EnvFailsWith(read, ns, env, e) <==> EnvOf(read, ns, env) == Failure(e)
  {
    if env != [] {
      EnvFailsIff(read, ns, env[1..], e);
      if !HasNoValue(read, ns, env[0]) {
        assert ResolveEnvValue(read, ns, env[0]).Success?;
        if EnvFailsWith(read, ns, env, e) {
          var i :| 0 <= i < |env| && HasNoValue(read, ns, env[i]) && e == EnvUnresolved(env[i].name)
                   && forall j :: 0 <= j < i ==> !HasNoValue(read, ns, env[j]);
          assert env[1..][i - 1] == env[i];
        }
        if EnvFailsWith(read, ns, env[1..], e) {
          var i :| 0 <= i < |env| - 1 && HasNoValue(read, ns, env[1..][i]) && e == EnvUnresolved(env[1..][i].name)
                   && forall j :: 0 <= j < i ==> !HasNoValue(read, ns, env[1..][j]);
          assert env[1..][i] == env[i + 1];
          assert forall j :: 0 < j < i + 1 ==> env[j] == env[1..][j - 1];
        }
      }
    }
  }

  /** Two credentials read one after the other: the first is missing, or the second, or one is empty. */
  ghost predicate PairFailsWith(u: Lookup, p: Lookup, first: string, second: string, e: ConfigError) {
    || (!u.Value? && e == CredentialUnresolved(first))
    || (u.Value? && !p.Value? && e == CredentialUnresolved(second))
    || (u.Value? && p.Value? && (u.value == "" || p.value == "") && e == EmptyCredentials)
  }

  ghost predicate AuthFailsWith(read: Reader, ns: string, auth: AuthConfig, e: ConfigError) {
    match auth.kind
    case "oauth2" =>
      if auth.oauth2.None? then e == OAuth2Required else OAuth2FailsWith(read, ns, auth.oauth2.value, e)
    case _ =>
      && (auth.kind == "bearer" || auth.kind == "apiKey" || auth.kind == "basic")
      && if auth.secretRef.None? then e == SecretRefRequired
         else
           var sr := auth.secretRef.value;
           var at := if sr.ns != "" then sr.ns else ns;
           if auth.kind == "basic" then
             PairFailsWith(read(at, sr.name, "username"), read(at, sr.name, "password"), "username", "password", e)
           else !read(at, sr.name, sr.key).Value? && e == CredentialUnresolved("auth secret")
  }

  ghost predicate OAuth2FailsWith(read: Reader, ns: string, oauth2: OAuth2Config, e: ConfigError) {
    if oauth2.clientCredentialsRef.Some? then
      var ref := oauth2.clientCredentialsRef.value;
      var at := if ref.ns != "" then ref.ns else ns;
      PairFailsWith(read(at, ref.name, "client_id"), read(at, ref.name, "client_secret"), "client_id",
                    "client_secret", e)
    else if oauth2.clientID == "" || oauth2.clientSecretRef.None? then e == EmptyCredentials
    else
      var sr := oauth2.clientSecretRef.value;
      PairFailsWith(Value(oauth2.clientID), read(if sr.ns != "" then sr.ns else ns, sr.name, sr.key), "",
                    "client secret", e)
  }

  lemma AuthFailsIff(read: Reader, ns: string, auth: AuthConfig, e: ConfigError)
    ensures AuthFailsWith(read, ns, auth, e) <==> ResolveAuthConfigs(read, ns, auth) == Failure(e)
  {
    hide ResolveOAuth2, OAuth2FailsWith;
    if auth.oauth2.Some? { OAuth2FailsIff(read, ns, auth.oauth2.value, e); }
  }

  lemma OAuth2FailsIff(read: Reader, ns: string, oauth2: OAuth2Config, e: ConfigError)
    ensures OAuth2FailsWith(read, ns, oauth2, e)
       <==> var r := ResolveOAuth2(read, ns, oauth2);
            || r == Failure(e)
            || (r.Success? && (r.value.clientID == "" || r.value.clientSecret == "") && e == EmptyCredentials)
  {
  }

  ghost predicate ConfigFailsWith(read: Reader, key: NamespacedName, server: MCPServer, e: ConfigError) {
    if server.transport == "stdio" then
      if server.command == [] then e == StdioNeedsCommand else EnvFailsWith(read, key.ns, server.env, e)
    else if server.transport == "http" || server.transport == "sse" then
      if server.address == "" then e == HttpNeedsAddress
      else server.auth.Some? && AuthFailsWith(read, key.ns, server.auth.value, e)
    else e == UnsupportedTransport
  }

  /** The configuration fails exactly with the first thing that is wrong with the server or its Secrets. */
  lemma ConfigFailsIff(read: Reader, key: NamespacedName, server: MCPServer, kubeconfigPath: string, e: ConfigError)
    ensures ConfigFailsWith(read, key, server, e) <==> ConfigOf(read, key, server, kubeconfigPath) == Failure(e)
  {
    hide EnvOf, EnvFailsWith, AuthFailsWith, ResolveAuthConfigs;
    EnvFailsIff(read, key.ns, server.env, e);
    if server.auth.Some? { AuthFailsIff(read, key.ns, server.auth.value, e); }
  }

  // ---------------------------------------------------------------- the loop's progress

  function Prepend(a: seq<string>, r: Result<seq<string>, ConfigError>): Result<seq<string>, ConfigError> {
    if r.Failure? then r else Success(a + r.value)
  }

  lemma PrependNothing(r: Result<seq<string>, ConfigError>)
    ensures Prepend([], r) == r
  {
    if r.Success? { assert [] + r.value == r.value; }
  }

  lemma PrependTwice(a: seq<string>, b: seq<string>, r: Result<seq<string>, ConfigError>)
    ensures Prepend(a, Prepend(b, r)) == Prepend(a + b, r)
  {
    if r.Success? { assert a + (b + r.value) == a + b + r.value; }
  }

  /** The loop over spec.env. */
  method ResolveEnv(read: Reader, ns: string, env: seq<EnvVar>) returns (r: Result<seq<string>, ConfigError>)
    ensures r == EnvOf(read, ns, env)
  {
    hide ResolveEnvValue;
    var added := [];
    assert env[0..] == env;
    PrependNothing(EnvOf(read, ns, env));
    for i := 0 to |env|
      invariant EnvOf(read, ns, env) == Prepend(added, EnvOf(read, ns, env[i..]))
    {
      var ev := env[i];
      assert env[i..][0] == ev && env[i..][1..] == env[i + 1..];
      PrependTwice(added, [], EnvOf(read, ns, env[i + 1..]));
      PrependNothing(EnvOf(read, ns, env[i + 1..]));
      var val :- ResolveEnvValue(read, ns, ev);
      if val.None? { continue; }
      var entry := [ev.name + "=" + val.value];
      PrependTwice(added, entry, EnvOf(read, ns, env[i + 1..]));
      added := added + entry;
    }
    assert EnvOf(read, ns, env[|env|..]) == Success([]);
    assert added + [] == added;
    return Success(added);
  }

  method BuildMCPClientConfig(read: Reader, key: NamespacedName, server: MCPServer, kubeconfigPath: string)
    returns (r: Result<ClientConfig, ConfigError>)
    ensures r == ConfigOf(read, key, server, kubeconfigPath)
    ensures forall cfg :: r == Success(cfg) <==> ConfigIs(read, key, server, kubeconfigPath, cfg)
    ensures forall e :: r == Failure(e) <==> ConfigFailsWith(read, key, server, e)
  {
    hide ConfigIs, ConfigFailsWith;
    forall e { ConfigFailsIff(read, key, server, kubeconfigPath, e); }
    forall cfg { ConfigOfIff(read, key, server, kubeconfigPath, cfg); }
    var ns := key.ns;
    var cfg := EMPTY_CONFIG.(name := key.name);
    if server.transport == "stdio" {
      if server.command == [] { return Failure(StdioNeedsCommand); }
      cfg := cfg.(command := server.command[0], args := server.command[1..]);
      if server.timeout.Some? && server.timeout.value > 0 { cfg := cfg.(timeout := Seconds(server.timeout.value)); }
      if cfg.timeout <= 0 { cfg := cfg.(timeout := DEFAULT_STDIO_TIMEOUT); }
      if kubeconfigPath != "" { cfg := cfg.(env := ["KUBECONFIG=" + kubeconfigPath]); }
      var env :- ResolveEnv(read, ns, server.env);
      cfg := cfg.(env := cfg.env + env);
    } else if server.transport == "http" || server.transport == "sse" {
      if server.address == "" { return Failure(HttpNeedsAddress); }
      cfg := cfg.(url := server.address, useStreaming := server.transport == "sse");
      if server.timeout.Some? { cfg := cfg.(timeout := Seconds(server.timeout.value)); }
      cfg := cfg.(headers := server.headers);
      if server.auth.Some? {
        var auth :- ResolveAuthConfigs(read, ns, server.auth.value);
        cfg := cfg.(auth := Some(auth.0), oauth := auth.1);
      }
    } else {
      return Failure(UnsupportedTransport);
    }
    return Success(cfg);
  }

  // ---------------------------------------------------------------- which keys matter

  datatype SecretKey = SecretKey(ns: string, name: string, key: string)

  ghost function EnvKeys(env: seq<EnvVar>, ns: string): set<SecretKey> {
    set ev | ev in env && ev.value == "" && ev.secretKeyRef.Some? ::
      SecretKey(ns, ev.secretKeyRef.value.name, ev.secretKeyRef.value.key)
  }

  ghost function AuthKeys(auth: AuthConfig, ns: string): set<SecretKey> {
    if (auth.kind == "bearer" || auth.kind == "apiKey") && auth.secretRef.Some? then
      var sr := auth.secretRef.value;
      {SecretKey(sr.Ns(ns), sr.name, sr.key)}
    else if auth.kind == "basic" && auth.secretRef.Some? then
      var sr := auth.secretRef.value;
      {SecretKey(sr.Ns(ns), sr.name, "username"), SecretKey(sr.Ns(ns), sr.name, "password")}
    else if auth.kind == "oauth2" && auth.oauth2.Some? && auth.oauth2.value.clientCredentialsRef.Some? then
      var k := auth.oauth2.value.clientCredentialsRef.value.In(ns);
      {SecretKey(k.ns, k.name, "client_id"), SecretKey(k.ns, k.name, "client_secret")}
    else if auth.kind == "oauth2" && auth.oauth2.Some? && auth.oauth2.value.clientID != ""
        && auth.oauth2.value.clientSecretRef.Some? then
      var sr := auth.oauth2.value.clientSecretRef.value;
      {SecretKey(sr.Ns(ns), sr.name, sr.key)}
    else {}
  }

  /** The keys on the fields as written: a namespace left empty is the server's. */
  lemma AuthKeysAre(auth: AuthConfig, ns: string)
    ensures (auth.kind == "bearer" || auth.kind == "apiKey") && auth.secretRef.Some? ==>
              var sr := auth.secretRef.value;
              AuthKeys(auth, ns) == {SecretKey(if sr.ns != "" then sr.ns else ns, sr.name, sr.key)}
    ensures auth.kind == "basic" && auth.secretRef.Some? ==>
              var sr := auth.secretRef.value;
              var at := if sr.ns != "" then sr.ns else ns;
              AuthKeys(auth, ns) == {SecretKey(at, sr.name, "username"), SecretKey(at, sr.name, "password")}
    ensures auth.kind == "oauth2" && auth.oauth2.Some? && auth.oauth2.value.clientCredentialsRef.Some? ==>
              var ref := auth.oauth2.value.clientCredentialsRef.value;
              var at := if ref.ns != "" then ref.ns else ns;
              AuthKeys(auth, ns) == {SecretKey(at, ref.name, "client_id"), SecretKey(at, ref.name, "client_secret")}
    ensures auth.kind == "oauth2" && auth.oauth2.Some? && auth.oauth2.value.clientCredentialsRef.None?
            && auth.oauth2.value.clientID != "" && auth.oauth2.value.clientSecretRef.Some? ==>
              var sr := auth.oauth2.value.clientSecretRef.value;
              AuthKeys(auth, ns) == {SecretKey(if sr.ns != "" then sr.ns else ns, sr.name, sr.key)}
  {
  }

  /** Every Secret key the runner may resolve for a server. */
  ghost function ServerKeys(server: MCPServer, ns: string): set<SecretKey> {
    if server.transport == "stdio" then EnvKeys(server.env, ns)
    else if (server.transport == "http" || server.transport == "sse") && server.auth.Some? then
      AuthKeys(server.auth.value, ns)
    else {}
  }

  ghost predicate AgreeOn(read: Reader, read': Reader, keys: set<SecretKey>) {
    forall k :: k in keys ==> read(k.ns, k.name, k.key) == read'(k.ns, k.name, k.key)
  }

  lemma {:induction false} EnvDependsOnKeys(read: Reader, read': Reader, ns: string, env: seq<EnvVar>)
    requires AgreeOn(read, read', EnvKeys(env, ns))
    ensures EnvOf(read, ns, env) == EnvOf(read', ns, env)
  {
    if env != [] {
      assert env == [env[0]] + env[1..];
      var ev := env[0];
      if ev.value == "" && ev.secretKeyRef.Some? {
        assert SecretKey(ns, ev.secretKeyRef.value.name, ev.secretKeyRef.value.key) in EnvKeys(env, ns);
      }
      assert EnvKeys(env[1..], ns) <= EnvKeys(env, ns);
      EnvDependsOnKeys(read, read', ns, env[1..]);
    }
  }

  lemma AuthDependsOnKeys(read: Reader, read': Reader, ns: string, auth: AuthConfig)
    requires AgreeOn(read, read', AuthKeys(auth, ns))
    ensures ResolveAuthConfigs(read, ns, auth) == ResolveAuthConfigs(read', ns, auth)
  {
    var keys := AuthKeys(auth, ns);
    if auth.secretRef.Some? {
      var sr := auth.secretRef.value;
      assert auth.kind == "bearer" || auth.kind == "apiKey" ==> SecretKey(sr.Ns(ns), sr.name, sr.key) in keys;
      assert auth.kind == "basic" ==>
               SecretKey(sr.Ns(ns), sr.name, "username") in keys && SecretKey(sr.Ns(ns), sr.name, "password") in keys;
    }
    if auth.kind == "oauth2" && auth.oauth2.Some? {
      OAuth2DependsOnKeys(read, read', ns, auth);
    }
  }

  lemma OAuth2DependsOnKeys(read: Reader, read': Reader, ns: string, auth: AuthConfig)
    requires auth.kind == "oauth2" && auth.oauth2.Some?
    requires AgreeOn(read, read', AuthKeys(auth, ns))
    ensures ResolveOAuth2(read, ns, auth.oauth2.value) == ResolveOAuth2(read', ns, auth.oauth2.value)
  {
    var keys, oauth2 := AuthKeys(auth, ns), auth.oauth2.value;
    if oauth2.clientCredentialsRef.Some? {
      var k := oauth2.clientCredentialsRef.value.In(ns);
      assert SecretKey(k.ns, k.name, "client_id") in keys && SecretKey(k.ns, k.name, "client_secret") in keys;
    } else if oauth2.clientID != "" && oauth2.clientSecretRef.Some? {
      var sr := oauth2.clientSecretRef.value;
      assert SecretKey(sr.Ns(ns), sr.name, sr.key) in keys;
    }
  }

  /** The configuration depends on the Secrets through those keys only. */
  lemma ConfigDependsOnKeys(read: Reader, read': Reader, key: NamespacedName, server: MCPServer, kubeconfigPath: string)
    requires AgreeOn(read, read', ServerKeys(server, key.ns))
    ensures ConfigOf(read, key, server, kubeconfigPath) == ConfigOf(read', key, server, kubeconfigPath)
  {
    hide EnvOf, EnvKeys, AuthKeys, ResolveAuthConfigs, AgreeOn;
    if server.transport == "stdio" {
      EnvDependsOnKeys(read, read', key.ns, server.env);
    } else if (server.transport == "http" || server.transport == "sse") && server.auth.Some? {
      AuthDependsOnKeys(read, read', key.ns, server.auth.value);
    }
  }
}
