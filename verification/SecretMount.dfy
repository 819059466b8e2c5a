/** internal/secretmount/mounts.go: the key and path contract shared by the controller, which builds
    the mount map, and the runner, which looks values up in it. */
module SecretMount {
  import opened Text

  const KUBECONFIG_DIR := "/etc/ottoflow/secrets/kubeconfig"

  predicate IsDataKeyChar(c: char) {
    c == '-' || c == '.' || c == '_' || 'a' <= c <= 'z' || 'A' <= c <= 'Z' || IsDigit(c)
  }

  /** ValidateDataKey returns no error. */
  predicate ValidDataKey(key: string) {
    && key != "" && key != "." && !HasPrefix(key, "..")
    && forall i :: 0 <= i < |key| ==> IsDataKeyChar(key[i])
  }

  /** A key of letters, digits, '-', '.' and '_' is accepted unless it is empty, "." or starts with "..";
      no other key is. */
  lemma AcceptedKeys(key: string)
    ensures ValidDataKey(key) <==>
              && key != "" && key != "." && !(|key| >= 2 && key[0] == '.' && key[1] == '.')
              && forall c :: c in key ==>
                   || 'a' <= c <= 'z' || 'A' <= c <= 'Z' || '0' <= c <= '9' || c == '-' || c == '.' || c == '_'
  {
    assert HasPrefix(key, "..") <==> |key| >= 2 && key[..2] == "..";
    assert |key| >= 2 ==> key[..2] == [key[0], key[1]];
    assert forall i :: 0 <= i < |key| ==> key[i] in key;
  }

  /** The keys that the code itself asks for are accepted. */
  lemma FixedKeysAreAccepted()
    ensures ValidDataKey("username") && ValidDataKey("password") && ValidDataKey("client_id")
    ensures ValidDataKey("client_secret") && ValidDataKey("ca.crt")
  {
    AcceptedKeys("username");
    AcceptedKeys("password");
    AcceptedKeys("client_id");
    AcceptedKeys("client_secret");
    AcceptedKeys("ca.crt");
  }

  function Key(ns: string, name: string, key: string): string {
    ns + "/" + name + "/" + key
  }

  /** In one namespace a map key determines the Secret name and key. */
  lemma KeyCut(ns: string, name: string, key: string, name': string, key': string)
    requires '/' !in name && '/' !in name'
    requires Key(ns, name, key) == Key(ns, name', key')
    ensures name == name' && key == key'
  {
    var n := |ns + "/"|;
    assert Key(ns, name, key)[n..] == name + ['/'] + key;
    assert Key(ns, name', key')[n..] == name' + ['/'] + key';
    CutUnique(name, key, name', key', '/');
  }

  /** Distinct keys of distinct Secrets never share a map key: no Secret or namespace name holds '/'. */
  lemma KeyInjective(ns: string, name: string, key: string, ns': string, name': string, key': string)
    requires '/' !in ns && '/' !in ns' && '/' !in name && '/' !in name'
    requires Key(ns, name, key) == Key(ns', name', key')
    ensures ns == ns' && name == name' && key == key'
  {
    assert Key(ns, name, key) == ns + ['/'] + (name + "/" + key);
    assert Key(ns', name', key') == ns' + ['/'] + (name' + "/" + key');
    CutUnique(ns, name + "/" + key, ns', name' + "/" + key', '/');
    KeyCut(ns, name, key, name', key');
  }

  /** Secrets as the API server stores them: data by (namespace, name), then by key. */
  type Secrets = map<(string, string), map<string, string>>

  /** The outcome of reading one Secret key. Only NotFound counts as absence. */
  datatype Lookup = Value(value: string) | NotFound | Broken

  /** Resolve with useAPI: a live read of the Secret. */
  function ResolveFromAPI(secrets: Secrets, ns: string, name: string, key: string): Lookup {
    if (ns, name) !in secrets then NotFound
    else if key !in secrets[(ns, name)] then NotFound
    else Value(secrets[(ns, name)][key])
  }
}
