/** cli/internal/rbac/generator.go: the permissions a Workflow's steps need, merged into RBAC objects. */
module Rbac {
  import opened Wrappers
  import opened Text
  import opened Ordering

  /** The target of a resourceQuery or mutate step. */
  datatype Target = Target(apiVersion: string, kind: string, ns: string)
  datatype StepBody = StepBody(resourceQuery: Option<Target>, mutate: Option<Target>, agentRef: bool)
  datatype Step = Step(body: StepBody, forEach: Option<StepBody>)
  datatype Options = Options(ns: string, agentExecutorNs: string)

  datatype PolicyRule = PolicyRule(
    group: string, resource: string, resName: string, verbs: seq<string>, clustered: bool, targetNs: string)
  datatype RuleKey = RuleKey(group: string, resource: string, resName: string, clustered: bool, targetNs: string)

  function KeyOf(r: PolicyRule): RuleKey { RuleKey(r.group, r.resource, r.resName, r.clustered, r.targetNs) }

  // ---------------------------------------------------------------- extracting rules from steps

  predicate IsLiteralNamespace(ns: string) {
    ns != "" && ns[0] != '-' && forall i :: 0 <= i < |ns| ==> IsLabelChar(ns[i])
  }

  function Unquoted(ns: string): string {
    if |ns| >= 2 && ns[0] == '"' && ns[|ns| - 1] == '"' then ns[1..|ns| - 1] else ns
  }

  /** The namespace a rule is confined to; None makes it cluster-wide. An empty namespace and a dynamic
      expression both do. */
  function Scoped(ns: string): (r: Option<string>)
    ensures r.Some? ==> IsLiteralNamespace(r.value) && (ns == r.value || ns == "\"" + r.value + "\"")
    ensures r.None? ==> !IsLiteralNamespace(ns)
    ensures r.None? ==> forall inner :: ns == "\"" + inner + "\"" ==> !IsLiteralNamespace(inner)
  {
    if IsLiteralNamespace(ns) then Some(ns)
    else if IsLiteralNamespace(Unquoted(ns)) then
      assert ns == "\"" + Unquoted(ns) + "\"";
      Some(Unquoted(ns))
    else
      assert forall inner :: ns == "\"" + inner + "\"" ==> Unquoted(ns) == inner;
      None
  }

  function LowerChar(c: char): char { if 'A' <= c <= 'Z' then (c as int + 32) as char else c }

  function Lower(s: string): (r: string)
    ensures |r| == |s|
    ensures forall i :: 0 <= i < |s| && !('A' <= s[i] <= 'Z') ==> r[i] == s[i]
    ensures forall i :: 0 <= i < |s| && 'A' <= s[i] <= 'Z' ==> 'a' <= r[i] <= 'z' && r[i] - 'a' == s[i] - 'A'
  {
    seq(|s|, i requires 0 <= i < |s| => LowerChar(s[i]))
  }

  predicate HasSuffix(s: string, suffix: string) { |suffix| <= |s| && s[|s| - |suffix|..] == suffix }

  /** Kinds start with a capital, so a name in lower case is a resource already. */
  function PluralizeKind(kind: string): string {
    if kind == Lower(kind) then kind else PluralOf(Lower(kind))
  }

  function PluralOf(lower: string): string {
    if lower == "endpoints" then "endpoints"
    else if lower == "endpointslice" then "endpointslices"
    else if |lower| >= 2 && lower[|lower| - 1] == 'y' && lower[|lower| - 2] !in "aeiou" then
      lower[..|lower| - 1] + "ies"
    else if HasSuffix(lower, "ss") || HasSuffix(lower, "x") || HasSuffix(lower, "ch") || HasSuffix(lower, "sh") then
      lower + "es"
    else lower + "s"
  }

  function BeforeSlash(s: string): Option<string> {
    if s == "" then None
    else if s[0] == '/' then Some("")
    else var rest := BeforeSlash(s[1..]); if rest.None? then None else Some([s[0]] + rest.value)
  }

  function GroupOf(apiVersion: string): string {
    var g := BeforeSlash(apiVersion);
    if g.None? then "" else g.value
  }

  function TargetRule(t: Target, verbs: seq<string>): PolicyRule {
    var scope := Scoped(t.ns);
    PolicyRule(GroupOf(t.apiVersion), PluralizeKind(t.kind), "", verbs, scope.None?,
               if scope.Some? then scope.value else "")
  }

  const CALLER_API_GROUP := "gate.ottoflow.nirmata.io"

  function AgentRefRule(opts: Options): PolicyRule {
    PolicyRule(CALLER_API_GROUP, "callers", "agent-executor-caller", ["invoke"], false,
               if opts.agentExecutorNs == "" then opts.ns else opts.agentExecutorNs)
  }

  /** Every rule grants something, and a cluster-wide one names no namespace. */
  predicate RuleOk(r: PolicyRule) { r.verbs != [] && (r.clustered ==> r.targetNs == "") }
  predicate AllOk(rules: seq<PolicyRule>) { forall i :: 0 <= i < |rules| ==> RuleOk(rules[i]) }

  function AnalyzeBody(b: StepBody, opts: Options): (rules: seq<PolicyRule>)
    ensures AllOk(rules)
  {
    TargetRulesOk(b);
    (if b.resourceQuery.Some? then [TargetRule(b.resourceQuery.value, ["get", "list"])] else []) +
    (if b.mutate.Some? then [TargetRule(b.mutate.value, ["get", "patch", "update"])] else []) +
    (if b.agentRef then [AgentRefRule(opts)] else [])
  }

  lemma TargetRulesOk(b: StepBody)
    ensures b.resourceQuery.Some? ==> RuleOk(TargetRule(b.resourceQuery.value, ["get", "list"]))
    ensures b.mutate.Some? ==> RuleOk(TargetRule(b.mutate.value, ["get", "patch", "update"]))
  {
    hide GroupOf, PluralizeKind, Scoped;
  }

  function AnalyzeStep(s: Step, opts: Options): (rules: seq<PolicyRule>)
    ensures AllOk(rules)
  {
    AnalyzeBody(s.body, opts) + (if s.forEach.Some? then AnalyzeBody(s.forEach.value, opts) else [])
  }

  // ---------------------------------------------------------------- what rules and objects grant

  datatype Scope = ClusterWide | InNamespace(ns: string)
  /** One verb on one resource; an empty resourceName means every object. */
  datatype Grant = Grant(scope: Scope, group: string, resource: string, resName: string, verb: string)

  function ScopeOf(k: RuleKey): Scope { if k.clustered then ClusterWide else InNamespace(k.targetNs) }

  ghost function RuleGrants(rules: seq<PolicyRule>): set<Grant> {
    set r, v | r in rules && v in r.verbs :: Grant(ScopeOf(KeyOf(r)), r.group, r.resource, r.resName, v)
  }

  ghost function StepGrants(steps: seq<Step>, opts: Options): set<Grant> {
    set s, g | s in steps && g in RuleGrants(AnalyzeStep(s, opts)) :: g
  }

  /** rbacv1.PolicyRule. No resource names means no restriction by name. */
  datatype K8sRule = K8sRule(apiGroups: seq<string>, resources: seq<string>, resourceNames: seq<string>,
                             verbs: seq<string>)

  datatype Object =
    | ServiceAccount(name: string, ns: string)
    | Role(name: string, ns: string, rules: seq<K8sRule>)
    | RoleBinding(name: string, ns: string, role: string, saName: string, saNs: string)
    | ClusterRole(name: string, rules: seq<K8sRule>)
    | ClusterRoleBinding(name: string, role: string, saName: string, saNs: string)

  ghost predicate RuleAllows(r: K8sRule, g: Grant) {
    && g.group in r.apiGroups && g.resource in r.resources && g.verb in r.verbs
    && if r.resourceNames == [] then g.resName == "" else g.resName in r.resourceNames
  }

  ghost predicate RulesAllow(rules: seq<K8sRule>, g: Grant) {
    exists r :: r in rules && RuleAllows(r, g)
  }

  /** What the objects give a ServiceAccount: through a Role and its binding in the same namespace, or
      through a ClusterRole and its binding. */
  ghost predicate Authorizes(objects: seq<Object>, saName: string, saNs: string, g: Grant) {
    match g.scope
    case InNamespace(ns) =>
      exists o, b :: o in objects && b in objects && o.Role? && o.ns == ns && RulesAllow(o.rules, g)
                  && b.RoleBinding? && b.ns == ns && b.role == o.name && b.saName == saName && b.saNs == saNs
    case ClusterWide =>
      exists o, b :: o in objects && b in objects && o.ClusterRole? && RulesAllow(o.rules, g)
                  && b.ClusterRoleBinding? && b.role == o.name && b.saName == saName && b.saNs == saNs
  }

  // ---------------------------------------------------------------- coalesceRules

  /** Namespace-scoped rules first, then by namespace, group, resource and resource name. */
  predicate KeyLess(a: RuleKey, b: RuleKey) {
    if a.clustered != b.clustered then !a.clustered
    else if a.targetNs != b.targetNs then StringLess(a.targetNs, b.targetNs)
    else if a.group != b.group then StringLess(a.group, b.group)
    else if a.resource != b.resource then StringLess(a.resource, b.resource)
    else StringLess(a.resName, b.resName)
  }

  /** The order of two rules is that of the first part in which their keys differ. */
  lemma KeyLessIs(a: RuleKey, b: RuleKey)
    ensures !a.clustered && b.clustered ==> KeyLess(a, b)
    ensures a.clustered == b.clustered && StringLess(a.targetNs, b.targetNs) ==> KeyLess(a, b)
    ensures a.clustered == b.clustered && a.targetNs == b.targetNs && StringLess(a.group, b.group) ==> KeyLess(a, b)
    ensures a == b.(resource := a.resource, resName := a.resName) && StringLess(a.resource, b.resource) ==>
              KeyLess(a, b)
    ensures a == b.(resName := a.resName) && StringLess(a.resName, b.resName) ==> KeyLess(a, b)
  {
    hide StringLess;
    StringLessIsStrictOrder();
  }

  lemma KeyLessIsStrictOrder()
    ensures StrictOrder(KeyLess)
  {
    hide StringLess;
    StringLessIsStrictOrder();
    forall a, b, c | KeyLess(a, b) && KeyLess(b, c) ensures KeyLess(a, c) {
    }
    forall a, b ensures !KeyLess(a, a) && (a != b ==> KeyLess(a, b) || KeyLess(b, a)) {
    }
  }

  ghost function Keys(rules: seq<PolicyRule>): set<RuleKey> {
    set r | r in rules :: KeyOf(r)
  }

  ghost function Verbs(rules: seq<PolicyRule>, k: RuleKey): set<string> {
    set r, v | r in rules && KeyOf(r) == k && v in r.verbs :: v
  }

  ghost function Merged(rules: seq<PolicyRule>, k: RuleKey): PolicyRule {
    PolicyRule(k.group, k.resource, k.resName, SortStrings(Verbs(rules, k)), k.clustered, k.targetNs)
  }

  /** One rule for each key, keys strictly increasing, with all of the key's verbs sorted. */
  ghost function Coalesced(rules: seq<PolicyRule>): (r: seq<PolicyRule>)
  {
    KeyLessIsStrictOrder();
    var keys := SortSet(Keys(rules), KeyLess);
    seq(|keys|, i requires 0 <= i < |keys| => Merged(rules, keys[i]))
  }

  lemma VerbsSnoc(rules: seq<PolicyRule>, r: PolicyRule, k: RuleKey)
    ensures Verbs(rules + [r], k) == Verbs(rules, k) + (if KeyOf(r) == k then set v | v in r.verbs else {})
    ensures Keys(rules + [r]) == Keys(rules) + {KeyOf(r)}
  {
  }

  lemma NoVerbs(rules: seq<PolicyRule>, k: RuleKey)
    requires k !in Keys(rules)
    ensures Verbs(rules, k) == {}
  {
    assert forall r :: r in rules ==> KeyOf(r) in Keys(rules);
  }

  lemma NoKeys()
    ensures Keys([]) == {}
  {
  }

  /** The verbs of every key. */
  method GroupVerbs(rules: seq<PolicyRule>) returns (verbSets: map<RuleKey, set<string>>)
    ensures verbSets.Keys == Keys(rules)
    ensures forall k :: k in verbSets ==> verbSets[k] == Verbs(rules, k)
  {
    hide KeyOf, Keys, Verbs;
    verbSets := map[];
    NoKeys();
    assert rules[..0] == [];
    for i := 0 to |rules|
      invariant verbSets.Keys == Keys(rules[..i])
      invariant forall k :: k in verbSets ==> verbSets[k] == Verbs(rules[..i], k)
    {
      var r := rules[i];
      var k := KeyOf(r);
      assert rules[..i + 1] == rules[..i] + [r];
      forall k { VerbsSnoc(rules[..i], r, k); }
      if k !in verbSets {
        NoVerbs(rules[..i], k);
        verbSets := verbSets[k := {}];
      }
      verbSets := verbSets[k := verbSets[k] + set v | v in r.verbs];
    }
    assert rules[..|rules|] == rules;
  }

  method CoalesceRules(rules: seq<PolicyRule>) returns (result: seq<PolicyRule>)
    ensures result == Coalesced(rules)
  {
    hide KeyLess, KeyOf, Verbs, Keys, Sorted, StrictOrder, SortSet, SortStrings;
    var verbSets := GroupVerbs(rules);
    KeyLessIsStrictOrder();
    var order := SortedBy(verbSets.Keys, KeyLess);
    result := [];
    for i := 0 to |order|
      invariant |result| == i && forall j :: 0 <= j < i ==> result[j] == Merged(rules, order[j])
    {
      var k := order[i];
      assert k in order;
      var verbs := SortedKeys(verbSets[k]);
      result := result + [PolicyRule(k.group, k.resource, k.resName, verbs, k.clustered, k.targetNs)];
    }
  }

  lemma CoalescedMembers(rules: seq<PolicyRule>)
    ensures forall m :: m in Coalesced(rules) <==> exists k :: k in Keys(rules) && m == Merged(rules, k)
  {
    hide KeyLess, Merged;
    KeyLessIsStrictOrder();
    var keys := SortSet(Keys(rules), KeyLess);
    assert forall m :: m in Coalesced(rules) ==> exists i :: 0 <= i < |keys| && m == Merged(rules, keys[i]);
    forall k | k in Keys(rules) ensures Merged(rules, k) in Coalesced(rules) {
      assert k in keys;
      var i :| 0 <= i < |keys| && keys[i] == k;
      assert Coalesced(rules)[i] == Merged(rules, k);
    }
  }

  /** Merging neither adds nor loses a grant, and no two merged rules share a key. */
  lemma CoalesceConserves(rules: seq<PolicyRule>)
    ensures RuleGrants(Coalesced(rules)) == RuleGrants(rules)
    ensures forall i, j :: 0 <= i < j < |Coalesced(rules)| ==>
              KeyLess(KeyOf(Coalesced(rules)[i]), KeyOf(Coalesced(rules)[j]))
    ensures forall m :: m in Coalesced(rules) ==> Sorted(m.verbs, StringLess)
  {
    CoalescedMembers(rules);
    KeyLessIsStrictOrder();
    forall g | g in RuleGrants(rules) ensures g in RuleGrants(Coalesced(rules)) {
      var r, v :| r in rules && v in r.verbs && g == Grant(ScopeOf(KeyOf(r)), r.group, r.resource, r.resName, v);
      var m := Merged(rules, KeyOf(r));
      assert m in Coalesced(rules);
      assert v in Verbs(rules, KeyOf(r));
      assert v in m.verbs;
    }
    forall g | g in RuleGrants(Coalesced(rules)) ensures g in RuleGrants(rules) {
      var m, v :| m in Coalesced(rules) && v in m.verbs
          && g == Grant(ScopeOf(KeyOf(m)), m.group, m.resource, m.resName, v);
      var k :| k in Keys(rules) && m == Merged(rules, k);
      assert v in Verbs(rules, k);
      var r :| r in rules && KeyOf(r) == k && v in r.verbs;
    }
  }

  // ---------------------------------------------------------------- buildObjects

  function ToPolicyRule(r: PolicyRule): K8sRule {
    K8sRule([r.group], [r.resource], if r.resName != "" then [r.resName] else [], r.verbs)
  }

  function ToPolicyRules(rules: seq<PolicyRule>): seq<K8sRule> {
    seq(|rules|, i requires 0 <= i < |rules| => ToPolicyRule(rules[i]))
  }

  predicate Belongs(r: PolicyRule, scope: Scope) { ScopeOf(KeyOf(r)) == scope }

  /** The rules of one scope, in their order. */
  function Select(rules: seq<PolicyRule>, scope: Scope): (r: seq<PolicyRule>)
    ensures forall x :: x in r <==> x in rules && Belongs(x, scope)
  {
    if rules == [] then []
    else
      var last := rules[|rules| - 1];
      assert forall x :: x in rules <==> x in rules[..|rules| - 1] || x == last;
      Select(rules[..|rules| - 1], scope) + (if Belongs(last, scope) then [last] else [])
  }

  ghost function Namespaces(rules: seq<PolicyRule>): set<string> {
    set r | r in rules && !r.clustered :: r.targetNs
  }

  function NamespaceObjects(sa: string, opts: Options, rules: seq<PolicyRule>, ns: string): seq<Object> {
    [Role(sa, ns, ToPolicyRules(Select(rules, InNamespace(ns)))), RoleBinding(sa, ns, sa, sa, opts.ns)]
  }

  function RoleObjects(sa: string, opts: Options, rules: seq<PolicyRule>, namespaces: seq<string>): seq<Object> {
    if namespaces == [] then []
    else RoleObjects(sa, opts, rules, namespaces[..|namespaces| - 1])
         + NamespaceObjects(sa, opts, rules, namespaces[|namespaces| - 1])
  }

  function ClusterObjects(sa: string, opts: Options, rules: seq<PolicyRule>): seq<Object> {
    var clusterRules := Select(rules, ClusterWide);
    if clusterRules == [] then []
    else [ClusterRole(sa, ToPolicyRules(clusterRules)), ClusterRoleBinding(sa, sa, sa, opts.ns)]
  }

  ghost function ObjectsFor(sa: string, opts: Options, rules: seq<PolicyRule>): seq<Object> {
    [ServiceAccount(sa, opts.ns)] + RoleObjects(sa, opts, rules, SortStrings(Namespaces(rules)))
        + ClusterObjects(sa, opts, rules)
  }

  /** The rules of each namespace, and the cluster-wide ones. */
  method SplitRules(rules: seq<PolicyRule>)
    returns (nsByRules: map<string, seq<PolicyRule>>, clusterRules: seq<PolicyRule>)
    ensures clusterRules == Select(rules, ClusterWide)
    ensures nsByRules.Keys == Namespaces(rules)
    ensures forall ns :: ns in nsByRules ==> nsByRules[ns] == Select(rules, InNamespace(ns))
  {
    hide Select, Namespaces;
    nsByRules, clusterRules := map[], [];
    SelectNothing();
    assert rules[..0] == [];
    for i := 0 to |rules|
      invariant clusterRules == Select(rules[..i], ClusterWide)
      invariant nsByRules.Keys == Namespaces(rules[..i])
      invariant forall ns :: ns in nsByRules ==> nsByRules[ns] == Select(rules[..i], InNamespace(ns))
    {
      var r := rules[i];
      SelectSnoc(rules, i);
      if r.clustered {
        clusterRules := clusterRules + [r];
      } else {
        if r.targetNs !in nsByRules {
          SelectNone(rules[..i], r.targetNs);
          nsByRules := nsByRules[r.targetNs := []];
        }
        nsByRules := nsByRules[r.targetNs := nsByRules[r.targetNs] + [r]];
      }
    }
    assert rules[..|rules|] == rules;
  }

  lemma SelectNothing()
    ensures Namespaces([]) == {} && forall scope :: Select([], scope) == []
  {
  }

  method BuildObjects(sa: string, opts: Options, rules: seq<PolicyRule>) returns (objects: seq<Object>)
    ensures objects == ObjectsFor(sa, opts, rules)
  {
    hide NamespaceObjects, ClusterObjects, Select, ToPolicyRules, Namespaces, Sorted;
    var nsByRules, clusterRules := SplitRules(rules);
    var namespaces := SortedKeys(nsByRules.Keys);
    objects := [ServiceAccount(sa, opts.ns)];
    assert namespaces[..0] == [];
    for i := 0 to |namespaces|
      invariant objects == [ServiceAccount(sa, opts.ns)] + RoleObjects(sa, opts, rules, namespaces[..i])
    {
      var ns := namespaces[i];
      assert ns in namespaces;
      assert namespaces[..i + 1][..i] == namespaces[..i];
      PairIs(sa, opts, rules, ns);
      objects := objects + [Role(sa, ns, ToPolicyRules(nsByRules[ns])), RoleBinding(sa, ns, sa, sa, opts.ns)];
    }
    assert namespaces[..|namespaces|] == namespaces;
    ClusterIs(sa, opts, rules);
    if clusterRules != [] {
      objects := objects + [ClusterRole(sa, ToPolicyRules(clusterRules)), ClusterRoleBinding(sa, sa, sa, opts.ns)];
    }
  }

  lemma PairIs(sa: string, opts: Options, rules: seq<PolicyRule>, ns: string)
    ensures NamespaceObjects(sa, opts, rules, ns)
         == [Role(sa, ns, ToPolicyRules(Select(rules, InNamespace(ns)))), RoleBinding(sa, ns, sa, sa, opts.ns)]
  {
  }

  lemma ClusterIs(sa: string, opts: Options, rules: seq<PolicyRule>)
    ensures ClusterObjects(sa, opts, rules) ==
            if Select(rules, ClusterWide) == [] then []
            else [ClusterRole(sa, ToPolicyRules(Select(rules, ClusterWide))), ClusterRoleBinding(sa, sa, sa, opts.ns)]
  {
  }

  lemma SelectSnoc(rules: seq<PolicyRule>, i: nat)
    requires i < |rules|
    ensures forall scope ::
              Select(rules[..i + 1], scope)
              == Select(rules[..i], scope) + (if Belongs(rules[i], scope) then [rules[i]] else [])
    ensures Namespaces(rules[..i + 1]) == Namespaces(rules[..i])
            + (if rules[i].clustered then {} else {rules[i].targetNs})
  {
    assert rules[..i + 1][..i] == rules[..i];
    assert rules[..i + 1] == rules[..i] + [rules[i]];
  }

  lemma {:induction false} SelectNone(rules: seq<PolicyRule>, ns: string)
    requires ns !in Namespaces(rules)
    ensures Select(rules, InNamespace(ns)) == []
  {
    if rules != [] {
      assert rules == rules[..|rules| - 1] + [rules[|rules| - 1]];
      assert rules[|rules| - 1] in rules;
      assert Namespaces(rules[..|rules| - 1]) <= Namespaces(rules);
      SelectNone(rules[..|rules| - 1], ns);
    }
  }

  // ---------------------------------------------------------------- conservation

  lemma PolicyRulesAllow(rules: seq<PolicyRule>, g: Grant)
    ensures RulesAllow(ToPolicyRules(rules), g)
       <==> exists r :: && r in rules && r.group == g.group && r.resource == g.resource && r.resName == g.resName
                            && g.verb in r.verbs
  {
    var ks := ToPolicyRules(rules);
    if RulesAllow(ks, g) {
      var k :| k in ks && RuleAllows(k, g);
      var i :| 0 <= i < |ks| && ks[i] == k;
      assert rules[i] in rules;
    }
    if r :| && r in rules && r.group == g.group && r.resource == g.resource && r.resName == g.resName
            && g.verb in r.verbs {
      var i :| 0 <= i < |rules| && rules[i] == r;
      assert ks[i] in ks && RuleAllows(ks[i], g);
    }
  }

  lemma {:induction false} RoleObjectsMembers(sa: string, opts: Options, rules: seq<PolicyRule>,
                                              namespaces: seq<string>,
                                              o: Object)
    ensures o in RoleObjects(sa, opts, rules, namespaces)
       <==> exists ns :: ns in namespaces && o in NamespaceObjects(sa, opts, rules, ns)
  {
    hide NamespaceObjects;
    if namespaces != [] {
      assert namespaces == namespaces[..|namespaces| - 1] + [namespaces[|namespaces| - 1]];
      RoleObjectsMembers(sa, opts, rules, namespaces[..|namespaces| - 1], o);
    }
  }

  /** The kinds of object that `ObjectsFor` holds. */
  lemma ObjectsMembers(sa: string, opts: Options, rules: seq<PolicyRule>, o: Object)
    ensures o in ObjectsFor(sa, opts, rules) <==>
              || o == ServiceAccount(sa, opts.ns)
              || (exists ns :: ns in Namespaces(rules) && o in NamespaceObjects(sa, opts, rules, ns))
              || o in ClusterObjects(sa, opts, rules)
  {
    hide NamespaceObjects, ClusterObjects;
    RoleObjectsMembers(sa, opts, rules, SortStrings(Namespaces(rules)), o);
  }

  ghost predicate RuleHolds(rules: seq<PolicyRule>, g: Grant) {
    exists r :: r in rules && Belongs(r, g.scope) && r.group == g.group && r.resource == g.resource
        && r.resName == g.resName && g.verb in r.verbs
  }

  lemma RuleHoldsIsGrant(rules: seq<PolicyRule>, g: Grant)
    ensures RuleHolds(rules, g) <==> g in RuleGrants(rules)
  {
  }

  lemma SelectedAllow(rules: seq<PolicyRule>, g: Grant)
    ensures RulesAllow(ToPolicyRules(Select(rules, g.scope)), g) <==> RuleHolds(rules, g)
  {
    PolicyRulesAllow(Select(rules, g.scope), g);
  }

  /** A Role among the objects is the one of its namespace, and the ClusterRole is the only one. */
  lemma RolesAre(sa: string, opts: Options, rules: seq<PolicyRule>, o: Object)
    requires o in ObjectsFor(sa, opts, rules)
    ensures o.Role? ==> o.rules == ToPolicyRules(Select(rules, InNamespace(o.ns)))
    ensures o.ClusterRole? ==> o.rules == ToPolicyRules(Select(rules, ClusterWide))
  {
    hide Select, ToPolicyRules, Namespaces;
    ObjectsMembers(sa, opts, rules, o);
  }

  lemma GrantedByObjects(sa: string, opts: Options, rules: seq<PolicyRule>, g: Grant)
    requires Authorizes(ObjectsFor(sa, opts, rules), sa, opts.ns, g)
    ensures g in RuleGrants(rules)
  {
    hide RulesAllow, Select, ToPolicyRules, RuleGrants, ObjectsFor, RuleHolds;
    var objects := ObjectsFor(sa, opts, rules);
    var o :| o in objects && (if g.scope.InNamespace? then o.Role? && o.ns == g.scope.ns else o.ClusterRole?)
        && RulesAllow(o.rules, g);
    RolesAre(sa, opts, rules, o);
    SelectedAllow(rules, g);
    RuleHoldsIsGrant(rules, g);
  }

  lemma ObjectsGrant(sa: string, opts: Options, rules: seq<PolicyRule>, g: Grant)
    requires g in RuleGrants(rules)
    ensures Authorizes(ObjectsFor(sa, opts, rules), sa, opts.ns, g)
  {
    hide RulesAllow, Select, ToPolicyRules, RuleGrants, ObjectsFor, RuleHolds, Namespaces;
    var objects := ObjectsFor(sa, opts, rules);
    SelectedAllow(rules, g);
    RuleHoldsIsGrant(rules, g);
    match g.scope
    case InNamespace(ns) =>
      HoldsInNamespace(rules, g);
      var o := Role(sa, ns, ToPolicyRules(Select(rules, g.scope)));
      var b := RoleBinding(sa, ns, sa, sa, opts.ns);
      assert o in NamespaceObjects(sa, opts, rules, ns) && b in NamespaceObjects(sa, opts, rules, ns);
      ObjectsMembers(sa, opts, rules, o);
      ObjectsMembers(sa, opts, rules, b);
    case ClusterWide =>
      HoldsClusterWide(rules, g);
      var o := ClusterRole(sa, ToPolicyRules(Select(rules, g.scope)));
      var b := ClusterRoleBinding(sa, sa, sa, opts.ns);
      assert o in ClusterObjects(sa, opts, rules) && b in ClusterObjects(sa, opts, rules);
      ObjectsMembers(sa, opts, rules, o);
      ObjectsMembers(sa, opts, rules, b);
  }

  /** The generated objects give the runner's ServiceAccount exactly the grants of the rules. */
  lemma ObjectsConserve(sa: string, opts: Options, rules: seq<PolicyRule>, g: Grant)
    ensures Authorizes(ObjectsFor(sa, opts, rules), sa, opts.ns, g) <==> g in RuleGrants(rules)
  {
    hide Authorizes, ObjectsFor, RuleGrants;
    if Authorizes(ObjectsFor(sa, opts, rules), sa, opts.ns, g) { GrantedByObjects(sa, opts, rules, g); }
    if g in RuleGrants(rules) { ObjectsGrant(sa, opts, rules, g); }
  }

  lemma HoldsInNamespace(rules: seq<PolicyRule>, g: Grant)
    requires RuleHolds(rules, g) && g.scope.InNamespace?
    ensures g.scope.ns in Namespaces(rules)
  {
  }

  lemma HoldsClusterWide(rules: seq<PolicyRule>, g: Grant)
    requires RuleHolds(rules, g)
    ensures Select(rules, g.scope) != []
  {
    var r :| r in rules && Belongs(r, g.scope) && r.group == g.group && r.resource == g.resource
        && r.resName == g.resName
        && g.verb in r.verbs;
    assert r in Select(rules, g.scope);
  }

  // ---------------------------------------------------------------- what the API server permits

  /** A request for a resource; no namespace means cluster-scoped or across all namespaces. */
  datatype Request = Request(
    ns: Option<string>, group: string, resource: string, subresource: string, name: string, verb: string)

  predicate Matches(pattern: string, s: string) { pattern == "*" || pattern == s }

  predicate MatchesResource(pattern: string, q: Request) {
    || pattern == "*"
    || pattern == (if q.subresource == "" then q.resource else q.resource + "/" + q.subresource)
    || (q.subresource != "" && pattern == "*/" + q.subresource)
  }

  /** A star stands for anything, a plain resource for itself without any subresource, and a subresource
      is named by its resource or for every one of them. */
  lemma PatternsMatch(pattern: string, s: string, q: Request)
    ensures Matches("*", s) && (pattern != "*" ==> (Matches(pattern, s) <==> pattern == s))
    ensures MatchesResource("*", q)
    ensures pattern != "*" && '/' !in pattern ==>
              (MatchesResource(pattern, q) <==> pattern == q.resource && q.subresource == "")
    ensures q.subresource != "" ==>
              MatchesResource(q.resource + "/" + q.subresource, q) && MatchesResource("*/" + q.subresource, q)
  {
    assert (q.resource + "/" + q.subresource)[|q.resource|] == '/' && ("*/" + q.subresource)[1] == '/';
  }

  ghost predicate RulePermits(r: K8sRule, q: Request) {
    && (exists g :: g in r.apiGroups && Matches(g, q.group))
    && (exists p :: p in r.resources && MatchesResource(p, q))
    && (exists v :: v in r.verbs && Matches(v, q.verb))
    && (r.resourceNames == [] || q.name in r.resourceNames)
  }

  ghost predicate RulesPermit(rules: seq<K8sRule>, q: Request) {
    exists r :: r in rules && RulePermits(r, q)
  }

  ghost predicate Bound(objects: seq<Object>, o: Object, saName: string, saNs: string) {
    || (o.Role? && exists b :: && b in objects && b.RoleBinding? && b.ns == o.ns && b.role == o.name
                               && b.saName == saName && b.saNs == saNs)
    || (o.ClusterRole? && exists b :: && b in objects && b.ClusterRoleBinding? && b.role == o.name
                                      && b.saName == saName && b.saNs == saNs)
  }

  /** RBAC authorization: a bound ClusterRole serves every request, a bound Role those in its namespace. */
  ghost predicate Permits(objects: seq<Object>, saName: string, saNs: string, q: Request) {
    exists o: Object :: && o in objects && Bound(objects, o, saName, saNs)
                && (o.ClusterRole? || q.ns == Some(o.ns)) && RulesPermit(o.rules, q)
  }

  /** A grant covers a request: in its scope, up to wildcards, and for any name when it holds none. */
  predicate Covers(g: Grant, q: Request) {
    && (g.scope.ClusterWide? || q.ns == Some(g.scope.ns))
    && Matches(g.group, q.group) && MatchesResource(g.resource, q) && Matches(g.verb, q.verb)
    && (g.resName == "" || g.resName == q.name)
  }

  ghost predicate NamesNonEmpty(rules: seq<K8sRule>) {
    forall r :: r in rules ==> "" !in r.resourceNames
  }

  function RuleScope(o: Object): Scope
    requires o.Role? || o.ClusterRole?
  {
    if o.Role? then InNamespace(o.ns) else ClusterWide
  }

  lemma RulesPermitIff(rules: seq<K8sRule>, scope: Scope, q: Request)
    requires NamesNonEmpty(rules) && (scope.ClusterWide? || q.ns == Some(scope.ns))
    ensures RulesPermit(rules, q) <==> exists g: Grant :: g.scope == scope && RulesAllow(rules, g) && Covers(g, q)
  {
    hide Matches, MatchesResource;
    if RulesPermit(rules, q) {
      var r :| r in rules && RulePermits(r, q);
      var group :| group in r.apiGroups && Matches(group, q.group);
      var resource :| resource in r.resources && MatchesResource(resource, q);
      var verb :| verb in r.verbs && Matches(verb, q.verb);
      var g := Grant(scope, group, resource, if r.resourceNames == [] then "" else q.name, verb);
      assert RuleAllows(r, g);
      assert RulesAllow(rules, g) && Covers(g, q);
    }
    if g: Grant :| g.scope == scope && RulesAllow(rules, g) && Covers(g, q) {
      var r :| r in rules && RuleAllows(r, g);
      assert RulePermits(r, q);
    }
  }

  lemma AuthorizesIsBound(objects: seq<Object>, saName: string, saNs: string, g: Grant)
    ensures Authorizes(objects, saName, saNs, g)
       <==> exists o: Object :: && o in objects && Bound(objects, o, saName, saNs) && RuleScope(o) == g.scope
                        && RulesAllow(o.rules, g)
  {
    hide RulesAllow;
    if Authorizes(objects, saName, saNs, g) {
      match g.scope {
        case InNamespace(ns) =>
          var o, b :| o in objects && b in objects && o.Role? && o.ns == ns && RulesAllow(o.rules, g)
                   && b.RoleBinding? && b.ns == ns && b.role == o.name && b.saName == saName && b.saNs == saNs;
          assert Bound(objects, o, saName, saNs);
        case ClusterWide =>
          var o, b :| o in objects && b in objects && o.ClusterRole? && RulesAllow(o.rules, g)
                   && b.ClusterRoleBinding? && b.role == o.name && b.saName == saName && b.saNs == saNs;
          assert Bound(objects, o, saName, saNs);
      }
    }
  }

  lemma PermitsIff(objects: seq<Object>, saName: string, saNs: string, q: Request)
    requires forall o: Object :: o in objects && (o.Role? || o.ClusterRole?) ==> NamesNonEmpty(o.rules)
    ensures Permits(objects, saName, saNs, q) <==> exists g :: Authorizes(objects, saName, saNs, g) && Covers(g, q)
  {
    hide Authorizes, RulesPermit, RulesAllow, NamesNonEmpty, Matches, MatchesResource;
    if Permits(objects, saName, saNs, q) {
      var o: Object :| && o in objects && Bound(objects, o, saName, saNs)
               && (o.ClusterRole? || q.ns == Some(o.ns)) && RulesPermit(o.rules, q);
      RulesPermitIff(o.rules, RuleScope(o), q);
      var g: Grant :| g.scope == RuleScope(o) && RulesAllow(o.rules, g) && Covers(g, q);
      AuthorizesIsBound(objects, saName, saNs, g);
    }
    if g :| Authorizes(objects, saName, saNs, g) && Covers(g, q) {
      AuthorizesIsBound(objects, saName, saNs, g);
      var o: Object :| && o in objects && Bound(objects, o, saName, saNs) && RuleScope(o) == g.scope
               && RulesAllow(o.rules, g);
      RulesPermitIff(o.rules, g.scope, q);
    }
  }

  /** The generated objects permit a request exactly when a grant of the rules covers it, wildcards and
      broader names and namespaces included. */
  lemma ObjectsPermit(sa: string, opts: Options, rules: seq<PolicyRule>, q: Request)
    ensures Permits(ObjectsFor(sa, opts, rules), sa, opts.ns, q) <==> exists g :: g in RuleGrants(rules) && Covers(g, q)
  {
    hide Permits, Authorizes, ObjectsFor, RuleGrants, Covers, Select;
    var objects := ObjectsFor(sa, opts, rules);
    forall o: Object | o in objects && (o.Role? || o.ClusterRole?) ensures NamesNonEmpty(o.rules) {
      RolesAre(sa, opts, rules, o);
      PolicyNames(Select(rules, RuleScope(o)));
    }
    PermitsIff(objects, sa, opts.ns, q);
    forall g { ObjectsConserve(sa, opts, rules, g); }
  }

  lemma PolicyNames(rules: seq<PolicyRule>)
    ensures NamesNonEmpty(ToPolicyRules(rules))
  {
  }

  // ---------------------------------------------------------------- what the fields of a step ask for

  /** A namespace name, and the ways of writing one that confine a rule to it. */
  predicate ConfinedTo(written: string, ns: string) {
    && ns != "" && ns[0] != '-'
    && (forall i :: 0 <= i < |ns| ==> 'a' <= ns[i] <= 'z' || '0' <= ns[i] <= '9' || ns[i] == '-')
    && (written == ns || written == "\"" + ns + "\"")
  }

  /** A target asks for its verbs on its kind, in the namespace it names or else everywhere. */
  ghost predicate TargetNeeds(t: Target, verbs: set<string>, q: Request) {
    && q.verb in verbs && Matches(GroupOf(t.apiVersion), q.group) && MatchesResource(PluralizeKind(t.kind), q)
    && forall ns :: ConfinedTo(t.ns, ns) ==> q.ns == Some(ns)
  }

  ghost predicate BodyNeeds(b: StepBody, opts: Options, q: Request) {
    || (b.resourceQuery.Some? && TargetNeeds(b.resourceQuery.value, {"get", "list"}, q))
    || (b.mutate.Some? && TargetNeeds(b.mutate.value, {"get", "patch", "update"}, q))
    || (b.agentRef && q.verb == "invoke" && q.group == "gate.ottoflow.nirmata.io" && MatchesResource("callers", q)
        && q.name == "agent-executor-caller"
        && q.ns == Some(if opts.agentExecutorNs != "" then opts.agentExecutorNs else opts.ns))
  }

  ghost predicate HasBody(steps: seq<Step>, b: StepBody) {
    exists s :: s in steps && (s.body == b || s.forEach == Some(b))
  }

  ghost predicate StepsNeed(steps: seq<Step>, opts: Options, q: Request) {
    exists b :: HasBody(steps, b) && BodyNeeds(b, opts, q)
  }

  ghost predicate RulesCover(rules: seq<PolicyRule>, q: Request) {
    exists g :: g in RuleGrants(rules) && Covers(g, q)
  }

  ghost predicate RuleCovers(r: PolicyRule, q: Request) {
    && (r.clustered || q.ns == Some(r.targetNs)) && Matches(r.group, q.group) && MatchesResource(r.resource, q)
    && (r.resName == "" || r.resName == q.name) && exists v :: v in r.verbs && Matches(v, q.verb)
  }

  lemma RulesCoverIff(rules: seq<PolicyRule>, q: Request)
    ensures RulesCover(rules, q) <==> exists r :: r in rules && RuleCovers(r, q)
  {
    hide Matches, MatchesResource;
    if RulesCover(rules, q) {
      var g :| g in RuleGrants(rules) && Covers(g, q);
      var r, v :| r in rules && v in r.verbs && g == Grant(ScopeOf(KeyOf(r)), r.group, r.resource, r.resName, v);
      assert RuleCovers(r, q);
    }
    if r :| r in rules && RuleCovers(r, q) {
      var v :| v in r.verbs && Matches(v, q.verb);
      var g := Grant(ScopeOf(KeyOf(r)), r.group, r.resource, r.resName, v);
      assert g in RuleGrants(rules) && Covers(g, q);
    }
  }

  lemma ConfinedIffScoped(written: string, ns: string)
    ensures ConfinedTo(written, ns) <==> Scoped(written) == Some(ns)
  {
    if written == "\"" + ns + "\"" {
      assert Unquoted(written) == ns;
      assert written[0] == '"';
    }
  }

  lemma TargetRuleCovers(t: Target, verbs: seq<string>, q: Request)
    requires "*" !in verbs
    ensures RuleCovers(TargetRule(t, verbs), q) <==> TargetNeeds(t, (set v | v in verbs), q)
  {
    hide MatchesResource, GroupOf, PluralizeKind, Scoped, ConfinedTo;
    forall ns { ConfinedIffScoped(t.ns, ns); }
  }

  lemma BodyRulesCover(b: StepBody, opts: Options, q: Request)
    ensures RulesCover(AnalyzeBody(b, opts), q) <==> BodyNeeds(b, opts, q)
  {
    hide MatchesResource, TargetRule, TargetNeeds, RulesCover;
    RulesCoverIff(AnalyzeBody(b, opts), q);
    if b.resourceQuery.Some? {
      var verbs := ["get", "list"];
      TargetRuleCovers(b.resourceQuery.value, verbs, q);
      assert (set v | v in verbs) == {"get", "list"};
      assert TargetRule(b.resourceQuery.value, verbs) in AnalyzeBody(b, opts);
    }
    if b.mutate.Some? {
      var verbs := ["get", "patch", "update"];
      TargetRuleCovers(b.mutate.value, verbs, q);
      assert (set v | v in verbs) == {"get", "patch", "update"};
      assert TargetRule(b.mutate.value, verbs) in AnalyzeBody(b, opts);
    }
    if b.agentRef {
      AgentRuleCovers(opts, q);
      assert AgentRefRule(opts) in AnalyzeBody(b, opts);
    }
  }

  lemma AgentRuleCovers(opts: Options, q: Request)
    ensures RuleCovers(AgentRefRule(opts), q) <==>
              && q.verb == "invoke" && q.group == "gate.ottoflow.nirmata.io" && MatchesResource("callers", q)
              && q.name == "agent-executor-caller"
              && q.ns == Some(if opts.agentExecutorNs != "" then opts.agentExecutorNs else opts.ns)
  {
    hide MatchesResource;
    var r := AgentRefRule(opts);
    assert r.verbs == ["invoke"] && r.verbs[0] == "invoke" && "invoke" in r.verbs;
  }

  lemma StepRulesCover(s: Step, opts: Options, q: Request)
    ensures RulesCover(AnalyzeStep(s, opts), q)
       <==> BodyNeeds(s.body, opts, q) || (s.forEach.Some? && BodyNeeds(s.forEach.value, opts, q))
  {
    hide AnalyzeBody, BodyNeeds, RuleCovers, RulesCover;
    RulesCoverIff(AnalyzeStep(s, opts), q);
    RulesCoverIff(AnalyzeBody(s.body, opts), q);
    BodyRulesCover(s.body, opts, q);
    if s.forEach.Some? {
      RulesCoverIff(AnalyzeBody(s.forEach.value, opts), q);
      BodyRulesCover(s.forEach.value, opts, q);
    }
  }

  /** The grants extracted from the steps cover exactly what the steps' fields ask for. */
  lemma GrantsAreNeeds(steps: seq<Step>, opts: Options, q: Request)
    ensures (exists g :: g in StepGrants(steps, opts) && Covers(g, q)) <==> StepsNeed(steps, opts, q)
  {
    hide AnalyzeStep, BodyNeeds, Covers, RuleGrants;
    if g :| g in StepGrants(steps, opts) && Covers(g, q) {
      var s :| s in steps && g in RuleGrants(AnalyzeStep(s, opts));
      assert RulesCover(AnalyzeStep(s, opts), q);
      StepRulesCover(s, opts, q);
      if BodyNeeds(s.body, opts, q) {
        assert HasBody(steps, s.body);
      } else {
        assert HasBody(steps, s.forEach.value);
      }
    }
    if StepsNeed(steps, opts, q) {
      var b :| HasBody(steps, b) && BodyNeeds(b, opts, q);
      var s :| s in steps && (s.body == b || s.forEach == Some(b));
      StepRulesCover(s, opts, q);
    }
  }

  // ---------------------------------------------------------------- groups and resources

  /** The group is what stands before the slash; a bare version belongs to the core group "". */
  lemma {:induction false} GroupIs(group: string, version: string)
    requires '/' !in group
    ensures GroupOf(group + "/" + version) == group && GroupOf(group) == ""
    ensures BeforeSlash(group + "/" + version) == Some(group) && BeforeSlash(group) == None
  {
    if group != "" {
      assert group[0] in group;
      GroupIs(group[1..], version);
      assert (group + "/" + version)[1..] == group[1..] + "/" + version;
      assert [group[0]] + group[1..] == group;
    }
  }

  predicate Vowel(c: char) { c == 'a' || c == 'e' || c == 'i' || c == 'o' || c == 'u' }

  /** A `y` after a consonant becomes `ies`. */
  lemma PluralAfterConsonant(stem: string)
    requires stem != "" && !Vowel(stem[|stem| - 1])
    ensures PluralOf(stem + "y") == stem + "ies"
  {
    var lower := stem + "y";
    assert lower[|lower| - 1] == 'y' && lower[|lower| - 2] == stem[|stem| - 1] && lower[..|lower| - 1] == stem;
    assert "endpoints"[|"endpoints"| - 1] == 's' && "endpointslice"[|"endpointslice"| - 1] == 'e';
  }

  /** A hissing end takes `es`. */
  lemma PluralAfterHiss(stem: string, end: string)
    requires end == "ss" || end == "x" || end == "ch" || end == "sh"
    ensures PluralOf(stem + end) == stem + end + "es"
  {
    HissIsRegular(stem, end);
    hide HasSuffix;
  }

  lemma HissIsRegular(stem: string, end: string)
    requires end == "ss" || end == "x" || end == "ch" || end == "sh"
    ensures var lower := stem + end;
            && HasSuffix(lower, end) && lower[|lower| - 1] != 'y'
            && lower != "endpoints" && lower != "endpointslice"
  {
    var lower := stem + end;
    assert lower[|stem|..] == end;
    assert lower[|lower| - 1] == end[|end| - 1] && (|end| > 1 ==> lower[|lower| - 2] == end[|end| - 2]);
    assert "endpoints"[|"endpoints"| - 1] == 's' && "endpoints"[|"endpoints"| - 2] == 't';
    assert "endpointslice"[|"endpointslice"| - 1] == 'e';
  }

  /** Any other last letter takes `s`. */
  lemma PluralOtherwise(lower: string)
    requires lower != "" && lower != "endpoints"
    requires lower[|lower| - 1] != 'x'
    requires lower[|lower| - 1] == 'y' ==> |lower| == 1 || Vowel(lower[|lower| - 2])
    requires lower[|lower| - 1] == 's' ==> |lower| == 1 || lower[|lower| - 2] != 's'
    requires lower[|lower| - 1] == 'h' ==> |lower| == 1 || lower[|lower| - 2] !in "cs"
    ensures PluralOf(lower) == lower + "s"
  {
    NotSuffix(lower, "ss");
    NotSuffix(lower, "x");
    NotSuffix(lower, "ch");
    NotSuffix(lower, "sh");
    if lower == "endpointslice" { assert lower + "s" == "endpointslices"; }
  }

  lemma NotSuffix(s: string, suffix: string)
    requires s != "" && suffix != ""
    requires |s| < |suffix| || s[|s| - 1] != suffix[|suffix| - 1]
          || (|s| > 1 && |suffix| > 1 && s[|s| - 2] != suffix[|suffix| - 2])
    ensures !HasSuffix(s, suffix)
  {
    if |suffix| <= |s| {
      var t := s[|s| - |suffix|..];
      assert t[|t| - 1] == s[|s| - 1];
      if |suffix| > 1 { assert t[|t| - 2] == s[|s| - 2]; }
    }
  }

  lemma LowerIs(s: string, l: string)
    requires |l| == |s| && forall i :: 0 <= i < |s| ==> l[i] == LowerChar(s[i])
    ensures Lower(s) == l
  {
  }

  /** A name in lower case is a resource already, and so is the one irregular plural. */
  /** A kind has a capital; what has none is a resource already. */
  lemma PluralOfKind(kind: string)
    ensures (exists i :: 0 <= i < |kind| && 'A' <= kind[i] <= 'Z') ==> PluralizeKind(kind) == PluralOf(Lower(kind))
    ensures (forall i :: 0 <= i < |kind| ==> !('A' <= kind[i] <= 'Z')) ==> PluralizeKind(kind) == kind
  {
    hide Lower, PluralOf;
    if i :| 0 <= i < |kind| && 'A' <= kind[i] <= 'Z' {
      assert Lower(kind)[i] != kind[i];
    } else {
      LowerIs(kind, kind);
    }
  }

  lemma PluralExamples()
    ensures PluralizeKind("pods") == "pods" && PluralizeKind("Deployment") == "deployments"
    ensures PluralizeKind("NetworkPolicy") == "networkpolicies" && PluralizeKind("Ingress") == "ingresses"
    ensures PluralOf("endpoints") == "endpoints"
  {
    hide Lower, PluralOf;
    LowerIs("pods", "pods");
    LowerIs("Deployment", "deployment");
    LowerIs("NetworkPolicy", "networkpolicy");
    LowerIs("Ingress", "ingress");
    assert "Deployment"[0] != "deployment"[0] && "NetworkPolicy"[0] != "networkpolicy"[0]
           && "Ingress"[0] != "ingress"[0];
    PluralOtherwise("deployment");
    assert "networkpolic" + "y" == "networkpolicy" && "networkpolic"[|"networkpolic"| - 1] == 'c';
    PluralAfterConsonant("networkpolic");
    PluralAfterHiss("ingre", "ss");
    assert "ingre" + "ss" == "ingress";
    Endpoints();
  }

  lemma Endpoints()
    ensures PluralOf("endpoints") == "endpoints"
  {
  }

  // ---------------------------------------------------------------- determinism

  /** Rules with verbs are merged into the same list exactly when they grant the same. */
  lemma SameGrantsSameRules(a: seq<PolicyRule>, b: seq<PolicyRule>)
    requires AllOk(a) && AllOk(b)
    ensures Coalesced(a) == Coalesced(b) <==> RuleGrants(a) == RuleGrants(b)
  {
    CoalesceConserves(a);
    CoalesceConserves(b);
    if RuleGrants(a) == RuleGrants(b) {
      GrantsCoverKeys(a, b);
      GrantsCoverKeys(b, a);
      assert Keys(a) == Keys(b);
      forall k ensures Merged(a, k) == Merged(b, k) {
        assert Verbs(a, k) == Verbs(b, k);
      }
    }
  }

  lemma GrantsCoverKeys(a: seq<PolicyRule>, b: seq<PolicyRule>)
    requires AllOk(a) && AllOk(b)
    requires RuleGrants(a) <= RuleGrants(b)
    ensures Keys(a) <= Keys(b) && forall k :: Verbs(a, k) <= Verbs(b, k)
  {
    forall r, v | r in a && v in r.verbs ensures KeyOf(r) in Keys(b) && v in Verbs(b, KeyOf(r)) {
      var g := Grant(ScopeOf(KeyOf(r)), r.group, r.resource, r.resName, v);
      assert g in RuleGrants(b);
      var r' :| r' in b && v in r'.verbs && g == Grant(ScopeOf(KeyOf(r')), r'.group, r'.resource, r'.resName, v);
      assert KeyOf(r') == KeyOf(r);
    }
    forall r | r in a ensures KeyOf(r) in Keys(b) {
      assert r.verbs[0] in r.verbs;
    }
  }

  function RulesOf(steps: seq<Step>, opts: Options): (rules: seq<PolicyRule>)
    ensures AllOk(rules)
  {
    if steps == [] then []
    else
      var init, last := RulesOf(steps[..|steps| - 1], opts), AnalyzeStep(steps[|steps| - 1], opts);
      AllOkConcat(init, last);
      init + last
  }

  lemma AllOkConcat(a: seq<PolicyRule>, b: seq<PolicyRule>)
    requires AllOk(a) && AllOk(b)
    ensures AllOk(a + b)
  {
    hide RuleOk;
  }

  lemma {:induction false} RulesOfGrants(steps: seq<Step>, opts: Options)
    ensures RuleGrants(RulesOf(steps, opts)) == StepGrants(steps, opts)
  {
    hide AnalyzeStep;
    if steps != [] {
      var init, last := steps[..|steps| - 1], steps[|steps| - 1];
      RulesOfGrants(init, opts);
      assert steps == init + [last];
      GrantsConcat(RulesOf(init, opts), AnalyzeStep(last, opts));
      assert StepGrants(steps, opts) == StepGrants(init, opts) + RuleGrants(AnalyzeStep(last, opts));
    }
  }

  lemma GrantsConcat(a: seq<PolicyRule>, b: seq<PolicyRule>)
    ensures RuleGrants(a + b) == RuleGrants(a) + RuleGrants(b)
  {
  }

  ghost function Generated(steps: seq<Step>, workflow: string, opts: Options): seq<Object> {
    ObjectsFor(workflow + "-runner", opts, Coalesced(RulesOf(steps, opts)))
  }

  /** The objects for a Workflow authorize its runner for exactly what is extracted from its steps. */
  method GenerateForWorkflow(steps: seq<Step>, workflow: string, opts: Options) returns (objects: seq<Object>)
    ensures objects == Generated(steps, workflow, opts)
    ensures forall g :: Authorizes(objects, workflow + "-runner", opts.ns, g) <==> g in StepGrants(steps, opts)
    ensures forall q :: Permits(objects, workflow + "-runner", opts.ns, q) <==> StepsNeed(steps, opts, q)
  {
    hide Permits, StepsNeed, Covers;
    forall q { RunnerMayExactly(steps, workflow, opts, q); }
    hide AnalyzeStep, Coalesced, ObjectsFor, Authorizes, RuleGrants, StepGrants;
    var rules: seq<PolicyRule> := [];
    assert steps[..0] == [];
    for i := 0 to |steps|
      invariant rules == RulesOf(steps[..i], opts)
    {
      assert steps[..i + 1][..i] == steps[..i];
      rules := rules + AnalyzeStep(steps[i], opts);
    }
    assert steps[..|steps|] == steps;
    var coalesced := CoalesceRules(rules);
    objects := BuildObjects(workflow + "-runner", opts, coalesced);
    CoalesceConserves(rules);
    RulesOfGrants(steps, opts);
    forall g ensures Authorizes(objects, workflow + "-runner", opts.ns, g) <==> g in StepGrants(steps, opts) {
      ObjectsConserve(workflow + "-runner", opts, coalesced, g);
    }
  }

  /** The runner may do exactly the requests that the fields of the steps ask for. */
  lemma RunnerMayExactly(steps: seq<Step>, workflow: string, opts: Options, q: Request)
    ensures Permits(Generated(steps, workflow, opts), workflow + "-runner", opts.ns, q)
       <==> exists g :: g in StepGrants(steps, opts) && Covers(g, q)
    ensures Permits(Generated(steps, workflow, opts), workflow + "-runner", opts.ns, q) <==> StepsNeed(steps, opts, q)
  {
    GrantsAreNeeds(steps, opts, q);
    hide Permits, ObjectsFor, RuleGrants, StepGrants, Covers, Coalesced, RulesOf, StepsNeed;
    ObjectsPermit(workflow + "-runner", opts, Coalesced(RulesOf(steps, opts)), q);
    CoalesceConserves(RulesOf(steps, opts));
    RulesOfGrants(steps, opts);
  }

  /** Two Workflows of the same name get the same objects exactly when the same grants are extracted from them;
      so the order, the repetition and the nesting of steps do not matter. */
  lemma ObjectsAreCanonical(a: seq<Step>, b: seq<Step>, workflow: string, opts: Options)
    ensures Generated(a, workflow, opts) == Generated(b, workflow, opts) <==> StepGrants(a, opts) == StepGrants(b, opts)
  {
    hide ObjectsFor, Authorizes, RulesOf, Coalesced, RuleGrants, StepGrants;
    RulesOfGrants(a, opts);
    RulesOfGrants(b, opts);
    SameGrantsSameRules(RulesOf(a, opts), RulesOf(b, opts));
    CoalesceConserves(RulesOf(a, opts));
    CoalesceConserves(RulesOf(b, opts));
    if Generated(a, workflow, opts) == Generated(b, workflow, opts) {
      forall g ensures g in StepGrants(a, opts) <==> g in StepGrants(b, opts) {
        ObjectsConserve(workflow + "-runner", opts, Coalesced(RulesOf(a, opts)), g);
        ObjectsConserve(workflow + "-runner", opts, Coalesced(RulesOf(b, opts)), g);
      }
    }
  }

  lemma ReorderingStepsKeepsObjects(a: seq<Step>, b: seq<Step>, workflow: string, opts: Options)
    requires multiset(a) == multiset(b)
    ensures Generated(a, workflow, opts) == Generated(b, workflow, opts)
  {
    forall s ensures s in a <==> s in b {
      assert s in a <==> s in multiset(a);
      assert s in b <==> s in multiset(b);
    }
    assert StepGrants(a, opts) == StepGrants(b, opts);
    ObjectsAreCanonical(a, b, workflow, opts);
  }
}
