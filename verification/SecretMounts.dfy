/** internal/workflow/controller/secret_refs.go, second half: laying the collected references out as
    volumes, mounts and the lookup map of the runner Job. */
module SecretMounts {
  import opened Wrappers
  import opened Ordering
  import opened Text
  import opened SecretMount
  import opened SecretRefs

  const SECRET_MOUNT_BASE_DIR := "/etc/ottoflow/secrets"
  const GENERATED_SECRET_VOLUME_PREFIX := "ottoflow-secret-"

  datatype Item = Item(key: string, path: string)

  /** A Secret volume. No items means every key of the Secret. */
  datatype Volume = Volume(name: string, secretName: string, items: seq<Item>, optional: bool)
  datatype VolumeMount = VolumeMount(name: string, mountPath: string)
  datatype Layout = Layout(
    volumes: seq<Volume>, mounts: seq<VolumeMount>, lookup: map<string, string>, origins: map<string, string>)

  datatype MountError =
    | ReservedVolume(name: string)
    | CrossNamespace(ref: SecretRef)
    | InvalidName(ref: SecretRef)
    | InvalidKey(ref: SecretRef)

  // ---------------------------------------------------------------- validation

  predicate IsLabel(s: string) {
    && |s| > 0 && s[0] != '-' && s[|s| - 1] != '-'
    && forall i :: 0 <= i < |s| ==> IsLabelChar(s[i])
  }

  /** Dot-separated labels. */
  predicate AreLabels(s: string)
    decreases |s|
  {
    IsLabel(s) || exists i :: 0 <= i < |s| && s[i] == '.' && IsLabel(s[..i]) && AreLabels(s[i + 1..])
  }

  predicate IsDNS1123Subdomain(s: string) { |s| <= 253 && AreLabels(s) }

  predicate IsAlphanumeric(c: char) { 'a' <= c <= 'z' || '0' <= c <= '9' }

  /** Lower-case letters, digits, '-' and '.', with a letter or digit at both ends and around every '.'. */
  predicate IsDotted(s: string) {
    && s != "" && IsAlphanumeric(s[0]) && IsAlphanumeric(s[|s| - 1])
    && (forall i :: 0 <= i < |s| ==> IsAlphanumeric(s[i]) || s[i] == '-' || s[i] == '.')
    && (forall i :: 0 < i < |s| - 1 && s[i] == '.' ==> IsAlphanumeric(s[i - 1]) && IsAlphanumeric(s[i + 1]))
  }

  lemma SubdomainIs(s: string)
    ensures IsDNS1123Subdomain(s) <==> |s| <= 253 && IsDotted(s)
  {
    hide AreLabels, IsDotted;
    if AreLabels(s) { LabelsAreDotted(s); }
    if IsDotted(s) { DottedAreLabels(s); }
  }

  lemma {:induction false} LabelsAreDotted(s: string)
    requires AreLabels(s)
    ensures IsDotted(s)
    decreases |s|
  {
    if !IsLabel(s) {
      var i :| 0 <= i < |s| && s[i] == '.' && IsLabel(s[..i]) && AreLabels(s[i + 1..]);
      LabelsAreDotted(s[i + 1..]);
      DottedJoin(s, i);
    }
  }

  lemma DottedJoin(s: string, i: nat)
    requires i < |s| && s[i] == '.' && IsLabel(s[..i]) && IsDotted(s[i + 1..])
    ensures IsDotted(s)
  {
    var a, b := s[..i], s[i + 1..];
    assert s[0] == a[0] && s[i - 1] == a[i - 1] && s[i + 1] == b[0] && s[|s| - 1] == b[|b| - 1];
    assert forall j :: 0 <= j < i ==> s[j] == a[j];
    assert forall j :: i < j < |s| ==> s[j] == b[j - i - 1];
  }

  lemma {:induction false} DottedAreLabels(s: string)
    requires IsDotted(s)
    ensures AreLabels(s)
    decreases |s|
  {
    hide IsDotted;
    if '.' in s {
      var i := FirstDot(s);
      DottedAreLabels(s[i + 1..]);
    } else {
      PlainIsLabel(s);
    }
  }

  lemma PlainIsLabel(s: string)
    requires IsDotted(s) && '.' !in s
    ensures IsLabel(s)
  {
  }

  lemma FirstDot(s: string) returns (i: nat)
    requires IsDotted(s) && '.' in s
    ensures 0 < i < |s| - 1 && s[i] == '.' && IsLabel(s[..i]) && IsDotted(s[i + 1..])
  {
    i := 0;
    while s[i] != '.'
      invariant i < |s| && forall j :: 0 <= j < i ==> s[j] != '.'
      decreases |s| - i
    {
      i := i + 1;
    }
    assert 0 < i < |s| - 1 && IsAlphanumeric(s[i - 1]) && IsAlphanumeric(s[i + 1]);
    assert s[..i][i - 1] == s[i - 1] && s[..i][0] == s[0];
    var b := s[i + 1..];
    assert b[0] == s[i + 1] && b[|b| - 1] == s[|s| - 1];
    assert forall j :: 0 <= j < |b| ==> b[j] == s[i + 1 + j];
  }

  lemma LabelHasNoSlash(s: string)
    requires IsLabel(s)
    ensures forall j :: 0 <= j < |s| ==> s[j] != '/'
  {
  }

  lemma {:induction false} SubdomainHasNoSlash(s: string)
    requires AreLabels(s)
    ensures forall j :: 0 <= j < |s| ==> s[j] != '/'
    decreases |s|
  {
    hide IsLabel;
    if IsLabel(s) {
      LabelHasNoSlash(s);
    } else {
      var i :| 0 <= i < |s| && s[i] == '.' && IsLabel(s[..i]) && AreLabels(s[i + 1..]);
      LabelHasNoSlash(s[..i]);
      SubdomainHasNoSlash(s[i + 1..]);
      forall j | 0 <= j < |s| ensures s[j] != '/' {
        if j < i { assert s[j] == s[..i][j]; }
        if j > i { assert s[j] == s[i + 1..][j - i - 1]; }
      }
    }
  }

  predicate BadRef(r: SecretRef, runNs: string) {
    && r.needsRunnerMount
    && (r.ns != runNs || !IsDNS1123Subdomain(r.name) || (!r.isKubeconfig && !ValidDataKey(r.key)))
  }

  /** The first reference that cannot be mounted, and the first thing wrong with it. */
  ghost predicate FirstBad(refs: seq<SecretRef>, runNs: string, e: MountError) {
    && !e.ReservedVolume?
    && BadRef(e.ref, runNs)
    && (exists i :: 0 <= i < |refs| && e.ref == refs[i] && forall j :: 0 <= j < i ==> !BadRef(refs[j], runNs))
    && (e.CrossNamespace? <==> e.ref.ns != runNs)
    && (e.InvalidName? <==> e.ref.ns == runNs && !IsDNS1123Subdomain(e.ref.name))
  }

  predicate Reserved(name: string) { HasPrefix(name, GENERATED_SECRET_VOLUME_PREFIX) }

  lemma ReservedIs(name: string)
    ensures Reserved(name) <==> "ottoflow-secret-" <= name
  {
  }

  // ---------------------------------------------------------------- the layout, declaratively

  predicate Mountable(r: SecretRef) { r.needsRunnerMount && !r.isKubeconfig }
  predicate MountedKubeconfig(r: SecretRef) { r.needsRunnerMount && r.isKubeconfig }
  function SecretID(r: SecretRef): string { r.ns + "/" + r.name }

  /** One volume's worth of keys: the mandatory or the optional ones of a Secret. */
  datatype Group = Group(id: string, optional: bool)

  predicate InGroup(r: SecretRef, id: string, optional: bool) {
    Mountable(r) && SecretID(r) == id && r.optional == optional
  }

  ghost function IDs(refs: seq<SecretRef>): set<string> {
    set r | r in refs && Mountable(r) :: SecretID(r)
  }

  ghost function KeysOf(refs: seq<SecretRef>, id: string, optional: bool): set<string> {
    set r | r in refs && InGroup(r, id, optional) :: r.key
  }

  /** Mandatory wins: a key required by any reference is not in the optional group. */
  ghost function GroupKeys(refs: seq<SecretRef>, g: Group): set<string> {
    if g.optional then KeysOf(refs, g.id, true) - KeysOf(refs, g.id, false) else KeysOf(refs, g.id, false)
  }

  function AppendOrigin(origins: seq<string>, origin: string): seq<string> {
    if origin in origins then origins else origins + [origin]
  }

  function OriginsOf(refs: seq<SecretRef>, id: string, optional: bool): (origins: seq<string>)
    ensures forall o :: o in origins <==> exists r :: r in refs && InGroup(r, id, optional) && r.origin == o
    ensures (forall r :: r in refs ==> !InGroup(r, id, optional)) ==> origins == []
  {
    if refs == [] then []
    else
      var last := refs[|refs| - 1];
      var rest := OriginsOf(refs[..|refs| - 1], id, optional);
      assert forall r :: r in refs <==> r in refs[..|refs| - 1] || r == last;
      if InGroup(last, id, optional) then AppendOrigin(rest, last.origin) else rest
  }

  ghost function IdGroups(refs: seq<SecretRef>, id: string): seq<Group> {
    (if GroupKeys(refs, Group(id, false)) != {} then [Group(id, false)] else []) +
    (if GroupKeys(refs, Group(id, true)) != {} then [Group(id, true)] else [])
  }

  ghost function GroupsOf(refs: seq<SecretRef>, ids: seq<string>): seq<Group> {
    if ids == [] then [] else GroupsOf(refs, ids[..|ids| - 1]) + IdGroups(refs, ids[|ids| - 1])
  }

  /** The groups that get a volume, in volume order. */
  ghost function Plan(refs: seq<SecretRef>): seq<Group> {
    GroupsOf(refs, SortStrings(IDs(refs)))
  }

  function VolumeName(i: nat): string { GENERATED_SECRET_VOLUME_PREFIX + Itoa(i) }
  function Dir(i: nat): string { SECRET_MOUNT_BASE_DIR + "/" + Itoa(i) }
  const KUBECONFIG_VOLUME := GENERATED_SECRET_VOLUME_PREFIX + "kubeconfig"

  /** The Secret name in an ID of the run's namespace. */
  function NameOf(id: string, runNs: string): string {
    if |runNs| + 1 <= |id| then id[|runNs| + 1..] else ""
  }

  function ItemsOf(keys: seq<string>): seq<Item> {
    seq(|keys|, j requires 0 <= j < |keys| => Item(keys[j], keys[j]))
  }

  ghost function LookupOf(keys: set<string>, runNs: string, name: string, dir: string): map<string, string> {
    map x | x in (set k | k in keys :: Key(runNs, name, k)) :: dir + "/" + x[|Key(runNs, name, "")|..]
  }

  ghost function AddGroup(l: Layout, refs: seq<SecretRef>, runNs: string, g: Group, i: nat): Layout {
    var name := NameOf(g.id, runNs);
    Layout(
      l.volumes + [Volume(VolumeName(i), name, ItemsOf(SortStrings(GroupKeys(refs, g))), g.optional)],
      l.mounts + [VolumeMount(VolumeName(i), Dir(i))],
      l.lookup + LookupOf(GroupKeys(refs, g), runNs, name, Dir(i)),
      l.origins[VolumeName(i) := Join(OriginsOf(refs, g.id, g.optional), ", ")])
  }

  function FirstKubeconfig(refs: seq<SecretRef>): Option<SecretRef> {
    if refs == [] then None
    else if MountedKubeconfig(refs[0]) then Some(refs[0])
    else FirstKubeconfig(refs[1..])
  }

  /** The kubeconfig Secret is mounted whole in a fixed directory and is not part of the lookup map. */
  function KubeconfigLayout(ref: Option<SecretRef>): Layout {
    if ref.None? then Layout([], [], map[], map[])
    else Layout([Volume(KUBECONFIG_VOLUME, ref.value.name, [], false)],
                [VolumeMount(KUBECONFIG_VOLUME, KUBECONFIG_DIR)],
                map[], map[KUBECONFIG_VOLUME := ref.value.origin])
  }

  ghost function LayoutOfPlan(refs: seq<SecretRef>, runNs: string, plan: seq<Group>): Layout {
    if plan == [] then KubeconfigLayout(FirstKubeconfig(refs))
    else AddGroup(LayoutOfPlan(refs, runNs, plan[..|plan| - 1]), refs, runNs, plan[|plan| - 1], |plan| - 1)
  }

  ghost function LayoutOf(refs: seq<SecretRef>, runNs: string): Layout {
    LayoutOfPlan(refs, runNs, Plan(refs))
  }

  // ---------------------------------------------------------------- buildSecretMounts

  /** What is known so far about one Secret. */
  datatype SecretKeys = SecretKeys(
    ns: string, name: string, keys: set<string>, optionalKeys: set<string>,
    mandatoryOrigins: seq<string>, optionalOrigins: seq<string>)

  ghost predicate Recorded(entry: SecretKeys, refs: seq<SecretRef>, id: string, runNs: string) {
    && entry.ns == runNs && id == runNs + "/" + entry.name
    && entry.keys == KeysOf(refs, id, false) && entry.optionalKeys == KeysOf(refs, id, true)
    && entry.mandatoryOrigins == OriginsOf(refs, id, false) && entry.optionalOrigins == OriginsOf(refs, id, true)
  }

  lemma KeysOfSnoc(refs: seq<SecretRef>, r: SecretRef, id: string, optional: bool)
    ensures KeysOf(refs + [r], id, optional)
         == KeysOf(refs, id, optional) + (if InGroup(r, id, optional) then {r.key} else {})
    ensures OriginsOf(refs + [r], id, optional)
         == if InGroup(r, id, optional) then AppendOrigin(OriginsOf(refs, id, optional), r.origin)
             else OriginsOf(refs, id, optional)
  {
    assert (refs + [r])[..|refs|] == refs;
  }

  lemma IDsSnoc(refs: seq<SecretRef>, r: SecretRef)
    ensures IDs(refs + [r]) == IDs(refs) + (if Mountable(r) then {SecretID(r)} else {})
  {
  }

  /** Adding a reference to the keys and origins of its Secret. */
  function AddRef(entry: SecretKeys, ref: SecretRef): SecretKeys {
    if ref.optional then
      entry.(optionalKeys := entry.optionalKeys + {ref.key},
             optionalOrigins := AppendOrigin(entry.optionalOrigins, ref.origin))
    else
      entry.(keys := entry.keys + {ref.key}, mandatoryOrigins := AppendOrigin(entry.mandatoryOrigins, ref.origin))
  }

  lemma RecordedSnoc(entry: SecretKeys, refs: seq<SecretRef>, r: SecretRef, id: string, runNs: string)
    requires Recorded(entry, refs, id, runNs)
    ensures Recorded(if Mountable(r) && SecretID(r) == id then AddRef(entry, r) else entry, refs + [r], id, runNs)
  {
    KeysOfSnoc(refs, r, id, false);
    KeysOfSnoc(refs, r, id, true);
  }

  lemma {:induction false} FirstKubeconfigSnoc(refs: seq<SecretRef>, r: SecretRef)
    ensures FirstKubeconfig(refs + [r])
         == if FirstKubeconfig(refs).Some? then FirstKubeconfig(refs)
            else if MountedKubeconfig(r) then Some(r) else None
  {
    if refs == [] {
      assert refs + [r] == [r];
    } else {
      assert (refs + [r])[1..] == refs[1..] + [r];
      FirstKubeconfigSnoc(refs[1..], r);
    }
  }

  /** The grouping loop: references by Secret, or the first one that cannot be mounted. */
  method GroupBySecret(refs: seq<SecretRef>, runNs: string)
    returns (r: Result<(map<string, SecretKeys>, Option<SecretRef>), MountError>)
    ensures r.Failure? <==> exists ref :: ref in refs && BadRef(ref, runNs)
    ensures r.Failure? ==> !r.error.ReservedVolume? && FirstBad(refs, runNs, r.error)
    ensures r.Success? ==>
      && r.value.0.Keys == IDs(refs)
      && (forall id :: id in r.value.0 ==> Recorded(r.value.0[id], refs, id, runNs))
      && r.value.1 == FirstKubeconfig(refs)
  {
    hide Recorded, IDs, FirstKubeconfig, IsDNS1123Subdomain, ValidDataKey, AddRef;
    var kubeconfigRef: Option<SecretRef> := None;
    var bySecret: map<string, SecretKeys> := map[];
    NoRefs();
    for i := 0 to |refs|
      invariant forall j :: 0 <= j < i ==> !BadRef(refs[j], runNs)
      invariant bySecret.Keys == IDs(refs[..i])
      invariant forall id :: id in bySecret ==> Recorded(bySecret[id], refs[..i], id, runNs)
      invariant kubeconfigRef == FirstKubeconfig(refs[..i])
    {
      var ref := refs[i];
      assert refs[..i + 1] == refs[..i] + [ref];
      FirstKubeconfigSnoc(refs[..i], ref);
      forall id | id in bySecret { RecordedSnoc(bySecret[id], refs[..i], ref, id, runNs); }
      IDsSnoc(refs[..i], ref);
      assert ref in refs;
      if !ref.needsRunnerMount { continue; }
      if ref.ns != runNs {
        return Failure(CrossNamespace(ref));
      }
      if !IsDNS1123Subdomain(ref.name) {
        return Failure(InvalidName(ref));
      }
      if ref.isKubeconfig {
        if kubeconfigRef.None? { kubeconfigRef := Some(ref); }
        continue;
      }
      if !ValidDataKey(ref.key) {
        return Failure(InvalidKey(ref));
      }
      var secretID := ref.ns + "/" + ref.name;
      var entry := SecretKeys(ref.ns, ref.name, {}, {}, [], []);
      if secretID in bySecret {
        entry := bySecret[secretID];
      } else {
        UnseenSecret(refs[..i], secretID, entry, runNs);
        RecordedSnoc(entry, refs[..i], ref, secretID, runNs);
      }
      bySecret := bySecret[secretID := AddRef(entry, ref)];
    }
    assert refs[..|refs|] == refs;
    return Success((bySecret, kubeconfigRef));
  }

  lemma NoRefs()
    ensures IDs([]) == {} && FirstKubeconfig([]) == None
  {
  }

  lemma UnseenSecret(refs: seq<SecretRef>, id: string, entry: SecretKeys, runNs: string)
    requires id !in IDs(refs)
    requires entry == SecretKeys(runNs, entry.name, {}, {}, [], []) && id == runNs + "/" + entry.name
    ensures Recorded(entry, refs, id, runNs)
  {
    assert forall r :: r in refs && Mountable(r) ==> SecretID(r) in IDs(refs);
  }

  ghost function Elements(s: seq<string>): set<string> { set k | k in s }

  ghost predicate Emitted(l: Layout, volIndex: nat, keys: set<string>, origins: seq<string>, optional: bool,
                          ns: string, name: string, l': Layout) {
    l' == Layout(
      l.volumes + [Volume(VolumeName(volIndex), name, ItemsOf(SortStrings(keys)), optional)],
      l.mounts + [VolumeMount(VolumeName(volIndex), Dir(volIndex))],
      l.lookup + LookupOf(keys, ns, name, Dir(volIndex)),
      l.origins[VolumeName(volIndex) := Join(origins, ", ")])
  }

  /** Mints one volume for a non-empty group of keys. */
  method EmitGroup(l: Layout, volIndex: nat, groupKeys: set<string>, groupOrigins: seq<string>, optional: bool,
                   ns: string, name: string)
    returns (l': Layout)
    ensures Emitted(l, volIndex, groupKeys, groupOrigins, optional, ns, name, l')
  {
    hide LookupOf, Elements, ItemsOf, VolumeName, Dir, Join, Key, Lists, Sorted;
    var keys := SortedKeys(groupKeys);
    var volName, dir := VolumeName(volIndex), Dir(volIndex);
    var items: seq<Item> := [];
    var mountsMap := l.lookup;
    NoLookup(l.lookup, ns, name, dir);
    assert ItemsOf([]) == [] by { ItemsSnoc([], ""); }
    assert keys[..0] == [];
    for j := 0 to |keys|
      invariant items == ItemsOf(keys[..j])
      invariant mountsMap == l.lookup + LookupOf(Elements(keys[..j]), ns, name, dir)
    {
      items := items + [Item(keys[j], keys[j])];
      mountsMap := mountsMap[Key(ns, name, keys[j]) := dir + "/" + keys[j]];
      LookupSnoc(l.lookup, keys, j, ns, name, dir);
      assert keys[..j + 1] == keys[..j] + [keys[j]];
      ItemsSnoc(keys[..j], keys[j]);
    }
    assert keys[..|keys|] == keys;
    assert Elements(keys) == groupKeys by { ElementsOfSorted(groupKeys); }
    return Layout(l.volumes + [Volume(volName, name, items, optional)],
                  l.mounts + [VolumeMount(volName, dir)],
                  mountsMap, l.origins[volName := Join(groupOrigins, ", ")]);
  }

  lemma ItemsSnoc(keys: seq<string>, k: string)
    ensures ItemsOf(keys + [k]) == ItemsOf(keys) + [Item(k, k)]
    ensures ItemsOf([]) == []
  {
  }

  lemma ElementsOfSorted(keys: set<string>)
    ensures Elements(SortStrings(keys)) == keys
  {
  }

  lemma NoLookup(m: map<string, string>, ns: string, name: string, dir: string)
    ensures m + LookupOf(Elements([]), ns, name, dir) == m
  {
    assert LookupOf({}, ns, name, dir) == map[];
  }

  lemma LookupSnoc(m: map<string, string>, keys: seq<string>, j: nat, ns: string, name: string, dir: string)
    requires j < |keys|
    ensures m + LookupOf(Elements(keys[..j + 1]), ns, name, dir)
         == (m + LookupOf(Elements(keys[..j]), ns, name, dir))[Key(ns, name, keys[j]) := dir + "/" + keys[j]]
  {
    assert keys[..j + 1] == keys[..j] + [keys[j]];
    LookupInsert(Elements(keys[..j]), keys[j], ns, name, dir);
    assert Elements(keys[..j + 1]) == Elements(keys[..j]) + {keys[j]};
  }

  lemma LookupInsert(keys: set<string>, k: string, ns: string, name: string, dir: string)
    ensures LookupOf(keys + {k}, ns, name, dir) == LookupOf(keys, ns, name, dir)[Key(ns, name, k) := dir + "/" + k]
  {
    assert Key(ns, name, k)[|Key(ns, name, "")|..] == k;
    var a, b := LookupOf(keys + {k}, ns, name, dir), LookupOf(keys, ns, name, dir)[Key(ns, name, k) := dir + "/" + k];
    assert a.Keys == b.Keys;
  }

  method BuildSecretMounts(refs: seq<SecretRef>, runNs: string, existingVolumeNames: set<string>)
    returns (r: Result<Layout, MountError>)
    ensures r.Failure? <==>
      || (exists name :: name in existingVolumeNames && "ottoflow-secret-" <= name)
      || (exists ref :: ref in refs && BadRef(ref, runNs))
    ensures r.Failure? ==>
      if r.error.ReservedVolume? then r.error.name in existingVolumeNames && Reserved(r.error.name)
      else FirstBad(refs, runNs, r.error) && forall name :: name in existingVolumeNames ==> !Reserved(name)
    ensures r.Success? ==> r.value == LayoutOf(refs, runNs)
  {
    hide KeysOf, OriginsOf, IDs, FirstKubeconfig, LayoutOfPlan, Recorded, BadRef, FirstBad, IdGroups;
    forall name ensures Reserved(name) <==> "ottoflow-secret-" <= name { ReservedIs(name); }
    var unchecked := existingVolumeNames;
    while unchecked != {}
      invariant unchecked <= existingVolumeNames
      invariant forall name :: name in existingVolumeNames ==> name in unchecked || !Reserved(name)
      decreases unchecked
    {
      var name :| name in unchecked;
      if HasPrefix(name, GENERATED_SECRET_VOLUME_PREFIX) {
        return Failure(ReservedVolume(name));
      }
      unchecked := unchecked - {name};
    }

    var grouped := GroupBySecret(refs, runNs);
    if grouped.Failure? {
      return Failure(grouped.error);
    }
    var (bySecret, kubeconfigRef) := grouped.value;

    var layout := KubeconfigLayout(kubeconfigRef);
    var secretIDs := SortedKeys(bySecret.Keys);
    var volIndex := 0;
    EmptyPlan(refs, runNs);
    for i := 0 to |secretIDs|
      invariant volIndex == |GroupsOf(refs, secretIDs[..i])|
      invariant layout == LayoutOfPlan(refs, runNs, GroupsOf(refs, secretIDs[..i]))
    {
      var id := secretIDs[i];
      assert id in bySecret by { assert id in secretIDs; }
      GroupsOfSnoc(refs, secretIDs, i);
      layout, volIndex := EmitSecret(layout, volIndex, bySecret[id], refs, id, runNs, GroupsOf(refs, secretIDs[..i]));
    }
    assert secretIDs[..|secretIDs|] == secretIDs;
    return Success(layout);
  }

  /** The mandatory and then the optional volume of one Secret, when they have keys. */
  method EmitSecret(l: Layout, volIndex: nat, entry: SecretKeys,
                    ghost refs: seq<SecretRef>, ghost id: string, ghost runNs: string, ghost plan: seq<Group>)
    returns (l': Layout, volIndex': nat)
    requires Recorded(entry, refs, id, runNs)
    requires volIndex == |plan| && l == LayoutOfPlan(refs, runNs, plan)
    ensures volIndex' == |plan + IdGroups(refs, id)| && l' == LayoutOfPlan(refs, runNs, plan + IdGroups(refs, id))
  {
    hide KeysOf, OriginsOf, LayoutOfPlan, AddGroup, Emitted;
    l', volIndex' := l, volIndex;
    ghost var plan' := plan;
    // A key referenced both ways is mounted once, as mandatory.
    var optionalKeys := entry.optionalKeys - entry.keys;
    if entry.keys != {} {
      var next := EmitGroup(l', volIndex', entry.keys, entry.mandatoryOrigins, false, entry.ns, entry.name);
      EmittedIsPlanned(l', entry, refs, id, runNs, plan', false, next);
      l', volIndex', plan' := next, volIndex' + 1, plan' + [Group(id, false)];
    }
    if optionalKeys != {} {
      var next := EmitGroup(l', volIndex', optionalKeys, entry.optionalOrigins, true, entry.ns, entry.name);
      EmittedIsPlanned(l', entry, refs, id, runNs, plan', true, next);
      l', volIndex', plan' := next, volIndex' + 1, plan' + [Group(id, true)];
    }
    assert plan' == plan + IdGroups(refs, id);
  }

  lemma EmittedIsPlanned(l: Layout, entry: SecretKeys, refs: seq<SecretRef>, id: string, runNs: string,
                         plan: seq<Group>, optional: bool, next: Layout)
    requires Recorded(entry, refs, id, runNs) && l == LayoutOfPlan(refs, runNs, plan)
    requires Emitted(l, |plan|, if optional then entry.optionalKeys - entry.keys else entry.keys,
                     if optional then entry.optionalOrigins else entry.mandatoryOrigins, optional,
                     entry.ns, entry.name, next)
    ensures next == LayoutOfPlan(refs, runNs, plan + [Group(id, optional)])
  {
    hide KeysOf, OriginsOf, LookupOf, ItemsOf;
    assert NameOf(id, runNs) == entry.name;
    PlanSnoc(refs, runNs, plan, Group(id, optional));
  }

  lemma GroupsOfSnoc(refs: seq<SecretRef>, ids: seq<string>, i: nat)
    requires i < |ids|
    ensures GroupsOf(refs, ids[..i + 1]) == GroupsOf(refs, ids[..i]) + IdGroups(refs, ids[i])
  {
    assert ids[..i + 1][..i] == ids[..i];
  }

  lemma EmptyPlan(refs: seq<SecretRef>, runNs: string)
    ensures LayoutOfPlan(refs, runNs, []) == KubeconfigLayout(FirstKubeconfig(refs))
  {
  }

  lemma PlanSnoc(refs: seq<SecretRef>, runNs: string, plan: seq<Group>, g: Group)
    ensures LayoutOfPlan(refs, runNs, plan + [g]) == AddGroup(LayoutOfPlan(refs, runNs, plan), refs, runNs, g, |plan|)
  {
    assert (plan + [g])[..|plan|] == plan;
  }
}
