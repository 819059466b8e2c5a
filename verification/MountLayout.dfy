/** What the layout of buildSecretMounts guarantees: fresh volume names, one path per referenced key,
    attribution of every projected key, and independence of the order of the references. */
module MountLayout {
  import opened Wrappers
  import opened Ordering
  import opened Text
  import opened SecretMount
  import opened SecretRefs
  import opened SecretMounts

  ghost predicate NoBadRefs(refs: seq<SecretRef>, runNs: string) {
    forall r :: r in refs ==> !BadRef(r, runNs)
  }

  // ---------------------------------------------------------------- the plan

  lemma {:induction false} GroupsOfMembers(refs: seq<SecretRef>, ids: seq<string>, g: Group)
    ensures g in GroupsOf(refs, ids) <==> g.id in ids && GroupKeys(refs, g) != {}
  {
    if ids != [] {
      var last := ids[|ids| - 1];
      assert ids == ids[..|ids| - 1] + [last];
      GroupsOfMembers(refs, ids[..|ids| - 1], g);
      assert g == Group(g.id, g.optional);
    }
  }

  lemma {:induction false} GroupsOfDistinct(refs: seq<SecretRef>, ids: seq<string>)
    requires Distinct(ids)
    ensures Distinct(GroupsOf(refs, ids))
  {
    if ids != [] {
      var last, init := ids[|ids| - 1], ids[..|ids| - 1];
      GroupsOfDistinct(refs, init);
      var a, b := GroupsOf(refs, init), IdGroups(refs, last);
      forall i, j | 0 <= i < |a| && 0 <= j < |b| ensures a[i] != b[j] {
        GroupsOfMembers(refs, init, a[i]);
        assert a[i] in a;
      }
    }
  }

  lemma SortedDistinct(ids: seq<string>)
    requires Sorted(ids, StringLess)
    ensures Distinct(ids)
  {
    StringLessIsStrictOrder();
  }

  lemma PlanMembers(refs: seq<SecretRef>)
    ensures Distinct(Plan(refs))
    ensures forall g :: g in Plan(refs) <==> g.id in IDs(refs) && GroupKeys(refs, g) != {}
  {
    var ids := SortStrings(IDs(refs));
    SortedDistinct(ids);
    GroupsOfDistinct(refs, ids);
    forall g ensures g in Plan(refs) <==> g.id in IDs(refs) && GroupKeys(refs, g) != {} {
      GroupsOfMembers(refs, ids, g);
    }
  }

  /** Every group of the plan belongs to a Secret of the run's namespace, with a name free of '/'. */
  ghost predicate WellNamed(plan: seq<Group>, runNs: string) {
    forall g :: g in plan ==> g.id == runNs + "/" + NameOf(g.id, runNs) && '/' !in NameOf(g.id, runNs)
  }

  lemma NameOfID(r: SecretRef, runNs: string)
    requires Mountable(r) && !BadRef(r, runNs)
    ensures NameOf(SecretID(r), runNs) == r.name && SecretID(r) == runNs + "/" + r.name && '/' !in r.name
  {
    hide IsDNS1123Subdomain;
    NameHasNoSlash(r.name);
  }

  lemma NameHasNoSlash(name: string)
    ensures IsDNS1123Subdomain(name) ==> '/' !in name
  {
    if IsDNS1123Subdomain(name) { SubdomainHasNoSlash(name); }
  }

  lemma PlanIsWellNamed(refs: seq<SecretRef>, runNs: string)
    requires NoBadRefs(refs, runNs)
    ensures WellNamed(Plan(refs), runNs)
  {
    hide BadRef;
    PlanMembers(refs);
    forall g | g in Plan(refs) ensures g.id == runNs + "/" + NameOf(g.id, runNs) && '/' !in NameOf(g.id, runNs) {
      var r :| r in refs && Mountable(r) && SecretID(r) == g.id;
      NameOfID(r, runNs);
    }
  }

  /** The one group of the plan that holds a referenced key. */
  lemma GroupOfRef(refs: seq<SecretRef>, r: SecretRef) returns (j: nat)
    requires r in refs && Mountable(r)
    ensures j < |Plan(refs)| && Plan(refs)[j].id == SecretID(r) && r.key in GroupKeys(refs, Plan(refs)[j])
    ensures Plan(refs)[j].optional <==> r.key !in KeysOf(refs, SecretID(r), false)
  {
    PlanMembers(refs);
    assert SecretID(r) in IDs(refs);
    assert InGroup(r, SecretID(r), r.optional);
    assert r.key in KeysOf(refs, SecretID(r), r.optional);
    var g := Group(SecretID(r), r.key !in KeysOf(refs, SecretID(r), false));
    assert r.key in GroupKeys(refs, g);
    assert g in Plan(refs);
    j :| 0 <= j < |Plan(refs)| && Plan(refs)[j] == g;
  }

  lemma GroupsAreDisjoint(refs: seq<SecretRef>, plan: seq<Group>, runNs: string, i: nat, j: nat, k: string)
    requires Distinct(plan) && WellNamed(plan, runNs) && i < |plan| && j < |plan|
    requires NameOf(plan[i].id, runNs) == NameOf(plan[j].id, runNs)
    requires k in GroupKeys(refs, plan[i]) && k in GroupKeys(refs, plan[j])
    ensures i == j
  {
    assert plan[i] in plan && plan[j] in plan;
    assert plan[i].id == plan[j].id;
    assert plan[i].optional == plan[j].optional;
    assert plan[i] == plan[j];
  }

  // ---------------------------------------------------------------- the shape of the layout

  function Base(refs: seq<SecretRef>): nat { if FirstKubeconfig(refs).Some? then 1 else 0 }

  ghost function PlannedVolume(refs: seq<SecretRef>, runNs: string, g: Group, j: nat): Volume {
    Volume(VolumeName(j), NameOf(g.id, runNs), ItemsOf(SortStrings(GroupKeys(refs, g))), g.optional)
  }

  ghost predicate Shape(l: Layout, refs: seq<SecretRef>, runNs: string, plan: seq<Group>) {
    var base := Base(refs);
    && |l.volumes| == |l.mounts| == base + |plan|
    && (base == 1 ==> l.volumes[0] == Volume(KUBECONFIG_VOLUME, FirstKubeconfig(refs).value.name, [], false)
                      && l.mounts[0] == VolumeMount(KUBECONFIG_VOLUME, KUBECONFIG_DIR))
    && (forall j :: 0 <= j < |plan| ==> l.volumes[base + j] == PlannedVolume(refs, runNs, plan[j], j))
    && (forall j :: 0 <= j < |plan| ==> l.mounts[base + j] == VolumeMount(VolumeName(j), Dir(j)))
  }

  lemma {:induction false} LayoutShape(refs: seq<SecretRef>, runNs: string, plan: seq<Group>)
    ensures Shape(LayoutOfPlan(refs, runNs, plan), refs, runNs, plan)
  {
    hide GroupKeys, ItemsOf, LookupOf, OriginsOf, FirstKubeconfig, NameOf, VolumeName, Dir, Join, AddGroup;
    if plan != [] {
      hide Shape;
      LayoutShape(refs, runNs, plan[..|plan| - 1]);
      GroupShape(LayoutOfPlan(refs, runNs, plan[..|plan| - 1]), refs, runNs, plan);
    }
  }

  lemma GroupShape(l: Layout, refs: seq<SecretRef>, runNs: string, plan: seq<Group>)
    requires plan != [] && Shape(l, refs, runNs, plan[..|plan| - 1])
    ensures Shape(AddGroup(l, refs, runNs, plan[|plan| - 1], |plan| - 1), refs, runNs, plan)
  {
    hide GroupKeys, ItemsOf, LookupOf, OriginsOf, FirstKubeconfig, NameOf, VolumeName, Dir, Join, PlannedVolume, Base;
    var j := |plan| - 1;
    var after := AddGroup(l, refs, runNs, plan[j], j);
    AddedVolume(l, refs, runNs, plan[j], j);
    assert forall i :: 0 <= i < j ==> plan[..j][i] == plan[i];
  }

  lemma AddedVolume(l: Layout, refs: seq<SecretRef>, runNs: string, g: Group, j: nat)
    ensures var after := AddGroup(l, refs, runNs, g, j);
            && after.volumes == l.volumes + [PlannedVolume(refs, runNs, g, j)]
            && after.mounts == l.mounts + [VolumeMount(VolumeName(j), Dir(j))]
  {
    hide GroupKeys, ItemsOf, LookupOf, OriginsOf, NameOf, VolumeName, Dir, Join;
  }

  /** Volume `i` of the layout is the one of group `j` of the plan. */
  ghost predicate IsGroupVolume(l: Layout, refs: seq<SecretRef>, runNs: string, i: nat, j: nat) {
    && j < |Plan(refs)| && i == Base(refs) + j && i < |l.volumes| == |l.mounts|
    && l.volumes[i].name == VolumeName(j) && l.mounts[i] == VolumeMount(VolumeName(j), Dir(j))
    && l.volumes[i].secretName == NameOf(Plan(refs)[j].id, runNs) && l.volumes[i].optional == Plan(refs)[j].optional
    && forall it :: it in l.volumes[i].items <==> it == Item(it.key, it.key) && it.key in GroupKeys(refs, Plan(refs)[j])
  }

  lemma GroupVolume(refs: seq<SecretRef>, runNs: string, j: nat)
    requires j < |Plan(refs)|
    ensures IsGroupVolume(LayoutOf(refs, runNs), refs, runNs, Base(refs) + j, j)
  {
    hide Plan, GroupKeys, ItemsOf, NameOf, VolumeName, Dir, Base, FirstKubeconfig, LayoutOfPlan;
    var l, plan, i := LayoutOf(refs, runNs), Plan(refs), Base(refs) + j;
    LayoutShape(refs, runNs, plan);
    assert l.volumes[Base(refs) + j] == PlannedVolume(refs, runNs, plan[j], j);
    assert l.mounts[Base(refs) + j] == VolumeMount(VolumeName(j), Dir(j));
    ItemsOfKeys(GroupKeys(refs, plan[j]));
  }

  /** Only the kubeconfig volume lists no keys, so a volume with items belongs to a group. */
  lemma VolumeGroup(refs: seq<SecretRef>, runNs: string, i: nat)
    requires i < |LayoutOf(refs, runNs).volumes|
    ensures i < Base(refs) ==>
              && i == 0 && LayoutOf(refs, runNs).volumes[0].items == []
                 && LayoutOf(refs, runNs).volumes[0].name == KUBECONFIG_VOLUME
              && |LayoutOf(refs, runNs).mounts| > 0
              && LayoutOf(refs, runNs).mounts[0] == VolumeMount(KUBECONFIG_VOLUME, KUBECONFIG_DIR)
    ensures i >= Base(refs) ==> IsGroupVolume(LayoutOf(refs, runNs), refs, runNs, i, i - Base(refs))
  {
    hide Plan, GroupKeys, ItemsOf, NameOf, VolumeName, Dir, FirstKubeconfig, LayoutOfPlan, PlannedVolume, IsGroupVolume;
    LayoutShape(refs, runNs, Plan(refs));
    if i >= Base(refs) { GroupVolume(refs, runNs, i - Base(refs)); }
  }

  lemma VolumeNameInjective(i: nat, j: nat)
    ensures VolumeName(i) == VolumeName(j) ==> i == j
    ensures VolumeName(i) != KUBECONFIG_VOLUME
    ensures Reserved(VolumeName(i)) && Reserved(KUBECONFIG_VOLUME)
  {
    var n := |GENERATED_SECRET_VOLUME_PREFIX|;
    assert VolumeName(i)[n..] == Itoa(i) && VolumeName(j)[n..] == Itoa(j) && KUBECONFIG_VOLUME[n..] == "kubeconfig";
    if VolumeName(i) == VolumeName(j) { ItoaInjective(i, j); }
    assert Itoa(i)[0] != "kubeconfig"[0];
  }

  function NameAt(base: nat, i: nat): string {
    if i < base then KUBECONFIG_VOLUME else VolumeName(i - base)
  }

  lemma NamesAt(refs: seq<SecretRef>, runNs: string)
    ensures var volumes := LayoutOf(refs, runNs).volumes;
            forall i :: 0 <= i < |volumes| ==> volumes[i].name == NameAt(Base(refs), i)
  {
    hide LayoutOf, Base, VolumeName, Plan, GroupKeys, NameOf, Dir;
    forall i: nat | i < |LayoutOf(refs, runNs).volumes|
      ensures LayoutOf(refs, runNs).volumes[i].name == NameAt(Base(refs), i)
    {
      VolumeGroup(refs, runNs, i);
    }
  }

  lemma NamesDistinct(base: nat, i: nat, j: nat)
    requires base <= 1
    ensures Reserved(NameAt(base, i))
    ensures i < j ==> NameAt(base, i) != NameAt(base, j)
  {
    hide VolumeName, Reserved;
    VolumeNameInjective(if i < base then 0 else i - base, if j < base then 0 else j - base);
    VolumeNameInjective(if j < base then 0 else j - base, 0);
  }

  /** Volume names are distinct and, because they carry the reserved prefix, new to the pod. */
  lemma VolumeNamesAreFresh(refs: seq<SecretRef>, runNs: string, existing: set<string>)
    requires forall name :: name in existing ==> !Reserved(name)
    ensures var volumes := LayoutOf(refs, runNs).volumes;
            && (forall i, j :: 0 <= i < j < |volumes| ==> volumes[i].name != volumes[j].name)
            && (forall i :: 0 <= i < |volumes| ==> volumes[i].name !in existing)
  {
    hide LayoutOf, NameAt, Reserved, FirstKubeconfig;
    NamesAt(refs, runNs);
    forall i: nat, j: nat { NamesDistinct(Base(refs), i, j); }
  }

  // ---------------------------------------------------------------- the lookup map

  lemma LookupEntries(keys: set<string>, runNs: string, name: string, dir: string)
    ensures forall x :: x in LookupOf(keys, runNs, name, dir) <==> exists k :: k in keys && x == Key(runNs, name, k)
    ensures forall k :: k in keys ==> Key(runNs, name, k) in LookupOf(keys, runNs, name, dir)
                                      && LookupOf(keys, runNs, name, dir)[Key(runNs, name, k)] == dir + "/" + k
  {
    forall k | k in keys ensures Key(runNs, name, k)[|Key(runNs, name, "")|..] == k {
    }
  }

  ghost predicate EntryOf(refs: seq<SecretRef>, runNs: string, plan: seq<Group>, j: nat, k: string, x: string) {
    j < |plan| && k in GroupKeys(refs, plan[j]) && x == Key(runNs, NameOf(plan[j].id, runNs), k)
  }

  ghost predicate HasEntry(refs: seq<SecretRef>, runNs: string, plan: seq<Group>, x: string) {
    exists j: nat, k :: EntryOf(refs, runNs, plan, j, k, x)
  }

  lemma EntryGrows(refs: seq<SecretRef>, runNs: string, plan: seq<Group>, x: string)
    requires plan != [] && HasEntry(refs, runNs, plan[..|plan| - 1], x)
    ensures HasEntry(refs, runNs, plan, x)
  {
    var j: nat, k :| EntryOf(refs, runNs, plan[..|plan| - 1], j, k, x);
    assert EntryOf(refs, runNs, plan, j, k, x);
  }

  lemma {:induction false} LookupShape(refs: seq<SecretRef>, runNs: string, plan: seq<Group>)
    requires Distinct(plan) && WellNamed(plan, runNs)
    ensures var l := LayoutOfPlan(refs, runNs, plan);
            && (forall x :: x in l.lookup ==> HasEntry(refs, runNs, plan, x))
            && (forall j: nat, k, x :: EntryOf(refs, runNs, plan, j, k, x) ==>
                  x in l.lookup && l.lookup[x] == Dir(j) + "/" + k)
  {
    hide GroupKeys, ItemsOf, LookupOf, OriginsOf, FirstKubeconfig, VolumeName, Dir, Join;
    if plan != [] {
      var n := |plan| - 1;
      var init, g := plan[..n], plan[n];
      LookupShape(refs, runNs, init);
      var l0, l := LayoutOfPlan(refs, runNs, init), LayoutOfPlan(refs, runNs, plan);
      var name := NameOf(g.id, runNs);
      var added := LookupOf(GroupKeys(refs, g), runNs, name, Dir(n));
      LookupEntries(GroupKeys(refs, g), runNs, name, Dir(n));
      assert l.lookup == l0.lookup + added;
      forall x | x in l.lookup ensures HasEntry(refs, runNs, plan, x) {
        if x in added {
          var k :| k in GroupKeys(refs, g) && x == Key(runNs, name, k);
          assert EntryOf(refs, runNs, plan, n, k, x);
        } else {
          assert x in l0.lookup;
          EntryGrows(refs, runNs, plan, x);
        }
      }
      forall j: nat, k, x | EntryOf(refs, runNs, plan, j, k, x)
        ensures x in l.lookup && l.lookup[x] == Dir(j) + "/" + k
      {
        if j < n {
          assert EntryOf(refs, runNs, init, j, k, x);
          if x in added {
            var k' :| k' in GroupKeys(refs, g) && x == Key(runNs, name, k');
            EntryUnique(refs, runNs, plan, j, k, n, k', x);
          }
        }
      }
    }
  }

  lemma EntryUnique(refs: seq<SecretRef>, runNs: string, plan: seq<Group>, i: nat, k: string, j: nat, k': string,
                    x: string)
    requires Distinct(plan) && WellNamed(plan, runNs)
    requires EntryOf(refs, runNs, plan, i, k, x) && EntryOf(refs, runNs, plan, j, k', x)
    ensures i == j && k == k'
  {
    var name, name' := NameOf(plan[i].id, runNs), NameOf(plan[j].id, runNs);
    assert plan[i] in plan && plan[j] in plan;
    KeyCut(runNs, name, k, name', k');
    GroupsAreDisjoint(refs, plan, runNs, i, j, k);
  }

  // ---------------------------------------------------------------- main results

  /** Volume `i` projects `key` of the Secret `name` to `path`. */
  ghost predicate ProjectsKey(l: Layout, i: nat, name: string, key: string, path: string) {
    && i < |l.volumes| == |l.mounts| && l.mounts[i].name == l.volumes[i].name
    && l.volumes[i].secretName == name && Item(key, key) in l.volumes[i].items
    && path == l.mounts[i].mountPath + "/" + key
  }

  lemma ItemsOfKeys(keys: set<string>)
    ensures forall it :: it in ItemsOf(SortStrings(keys)) <==> it.key in keys && it == Item(it.key, it.key)
    ensures keys != {} ==> ItemsOf(SortStrings(keys)) != []
  {
    var s := SortStrings(keys);
    forall k | k in keys ensures Item(k, k) in ItemsOf(s) {
      assert k in s;
      var i :| 0 <= i < |s| && s[i] == k;
      assert ItemsOf(s)[i] == Item(k, k);
    }
    forall it | it in ItemsOf(s) ensures it.key in keys && it == Item(it.key, it.key) {
      var i :| 0 <= i < |s| && ItemsOf(s)[i] == it;
      assert s[i] in s;
    }
    if keys != {} {
      var k :| k in keys;
      assert Item(k, k) in ItemsOf(s);
    }
  }

  lemma EntryOfGroup(refs: seq<SecretRef>, runNs: string, j: nat, k: string)
    requires NoBadRefs(refs, runNs) && j < |Plan(refs)| && k in GroupKeys(refs, Plan(refs)[j])
    ensures var l, x := LayoutOf(refs, runNs), Key(runNs, NameOf(Plan(refs)[j].id, runNs), k);
            x in l.lookup && l.lookup[x] == Dir(j) + "/" + k
  {
    hide NoBadRefs, Plan, GroupKeys, NameOf, Dir, Key, WellNamed, LayoutOfPlan;
    PlanMembers(refs);
    PlanIsWellNamed(refs, runNs);
    LookupShape(refs, runNs, Plan(refs));
    assert EntryOf(refs, runNs, Plan(refs), j, k, Key(runNs, NameOf(Plan(refs)[j].id, runNs), k));
  }

  /** The entry of a mounted reference leads to the projected file of its Secret and key. */
  lemma RefHasFile(refs: seq<SecretRef>, runNs: string, r: SecretRef) returns (i: nat)
    requires NoBadRefs(refs, runNs) && r in refs && Mountable(r)
    ensures var l, x := LayoutOf(refs, runNs), Key(r.ns, r.name, r.key);
            x in l.lookup && ProjectsKey(l, i, r.name, r.key, l.lookup[x])
  {
    hide LayoutOf, BadRef, Plan, GroupKeys, KeysOf, NameOf, Dir, Key, VolumeName, Base;
    var j := GroupOfRef(refs, r);
    i := Base(refs) + j;
    assert !BadRef(r, runNs);
    MountedNs(r, runNs);
    NameOfID(r, runNs);
    EntryOfGroup(refs, runNs, j, r.key);
    GroupVolume(refs, runNs, j);
    assert Item(r.key, r.key) in LayoutOf(refs, runNs).volumes[i].items;
  }

  /** A Secret key is projected by one volume only. */
  lemma OnlyVolume(refs: seq<SecretRef>, runNs: string, name: string, key: string, i: nat, path: string, i': nat,
                   path': string)
    requires NoBadRefs(refs, runNs)
    requires ProjectsKey(LayoutOf(refs, runNs), i, name, key, path)
             && ProjectsKey(LayoutOf(refs, runNs), i', name, key, path')
    ensures i == i'
  {
    hide NoBadRefs, LayoutOf, Plan, GroupKeys, NameOf, Dir, VolumeName, Base, WellNamed;
    VolumeGroup(refs, runNs, i);
    VolumeGroup(refs, runNs, i');
    PlanMembers(refs);
    PlanIsWellNamed(refs, runNs);
    GroupsAreDisjoint(refs, Plan(refs), runNs, i - Base(refs), i' - Base(refs), key);
  }

  /** The volume that projects a referenced key is optional exactly when every reference to it is. */
  lemma OptionalIffAll(refs: seq<SecretRef>, runNs: string, r: SecretRef, i: nat, path: string)
    requires NoBadRefs(refs, runNs) && r in refs && Mountable(r)
    requires ProjectsKey(LayoutOf(refs, runNs), i, r.name, r.key, path)
    ensures LayoutOf(refs, runNs).volumes[i].optional
       <==> forall r' :: r' in refs && Mountable(r') && r'.name == r.name && r'.key == r.key ==> r'.optional
  {
    hide LayoutOf, BadRef, Plan, NameOf, Dir, VolumeName, Base, KeysOf;
    VolumeGroup(refs, runNs, i);
    var g := Plan(refs)[i - Base(refs)];
    PlanIsWellNamed(refs, runNs);
    assert g in Plan(refs);
    NameOfID(r, runNs);
    assert g.id == SecretID(r);
    OptionalMeans(refs, runNs, r);
  }

  lemma OptionalMeans(refs: seq<SecretRef>, runNs: string, r: SecretRef)
    requires NoBadRefs(refs, runNs) && r in refs && Mountable(r)
    ensures r.key !in KeysOf(refs, SecretID(r), false)
       <==> forall r' :: r' in refs && Mountable(r') && r'.name == r.name && r'.key == r.key ==> r'.optional
  {
    hide BadRef;
    forall r' | r' in refs && Mountable(r') ensures SecretID(r') == SecretID(r) <==> r'.name == r.name {
      NameOfID(r', runNs);
      NameOfID(r, runNs);
    }
    if r.key in KeysOf(refs, SecretID(r), false) {
      var r' :| r' in refs && InGroup(r', SecretID(r), false) && r'.key == r.key;
      assert !r'.optional;
    }
  }

  lemma MountedNs(r: SecretRef, runNs: string)
    ensures r.needsRunnerMount && !BadRef(r, runNs) ==> r.ns == runNs
  {
  }

  /** A reference mounted for the runner has an entry in the lookup map, and its path is the projected
      file of exactly that Secret and key, in the one volume of the layout that projects it. The volume
      is optional exactly when every reference to the key is. */
  lemma RefIsMounted(refs: seq<SecretRef>, runNs: string, r: SecretRef) returns (i: nat)
    requires NoBadRefs(refs, runNs) && r in refs && Mountable(r)
    ensures var l, x := LayoutOf(refs, runNs), Key(r.ns, r.name, r.key);
            && x in l.lookup && ProjectsKey(l, i, r.name, r.key, l.lookup[x])
            && (forall i': nat, path :: ProjectsKey(l, i', r.name, r.key, path) ==> i' == i)
            && (l.volumes[i].optional <==>
                  forall r' :: r' in refs && Mountable(r') && r'.name == r.name && r'.key == r.key ==> r'.optional)
  {
    hide LayoutOf, NoBadRefs, Key, Mountable, ProjectsKey;
    var l, x := LayoutOf(refs, runNs), Key(r.ns, r.name, r.key);
    i := RefHasFile(refs, runNs, r);
    forall i': nat, path | ProjectsKey(l, i', r.name, r.key, path) ensures i' == i {
      OnlyVolume(refs, runNs, r.name, r.key, i, l.lookup[x], i', path);
    }
    OptionalIffAll(refs, runNs, r, i, l.lookup[x]);
  }

  /** Different Secret keys are never read from the same path. */
  lemma PathsAreDistinct(refs: seq<SecretRef>, runNs: string, x: string, y: string)
    requires NoBadRefs(refs, runNs)
    requires x in LayoutOf(refs, runNs).lookup && y in LayoutOf(refs, runNs).lookup
    requires LayoutOf(refs, runNs).lookup[x] == LayoutOf(refs, runNs).lookup[y]
    ensures x == y
  {
    hide BadRef, Plan, GroupKeys, NameOf, FirstKubeconfig;
    var plan := Plan(refs);
    PlanMembers(refs);
    PlanIsWellNamed(refs, runNs);
    LookupShape(refs, runNs, plan);
    assert x in LayoutOfPlan(refs, runNs, plan).lookup && y in LayoutOfPlan(refs, runNs, plan).lookup;
    assert HasEntry(refs, runNs, plan, x) && HasEntry(refs, runNs, plan, y);
    var i: nat, k :| EntryOf(refs, runNs, plan, i, k, x);
    var j: nat, k' :| EntryOf(refs, runNs, plan, j, k', y);
    DirCut(i, k, j, k');
  }

  lemma DirCut(i: nat, k: string, j: nat, k': string)
    requires Dir(i) + "/" + k == Dir(j) + "/" + k'
    ensures i == j && k == k'
  {
    hide Itoa;
    var n := |SECRET_MOUNT_BASE_DIR + "/"|;
    assert (Dir(i) + "/" + k)[n..] == Itoa(i) + ['/'] + k;
    assert (Dir(j) + "/" + k')[n..] == Itoa(j) + ['/'] + k';
    CutUnique(Itoa(i), k, Itoa(j), k', '/');
    ItoaInjective(i, j);
  }

  /** Every projected key is there because of a reference whose origin is listed for its volume. */
  lemma ProjectedKeyHasOrigin(refs: seq<SecretRef>, runNs: string, i: nat, item: Item)
    returns (r: SecretRef, listed: seq<string>)
    requires NoBadRefs(refs, runNs)
    requires var l := LayoutOf(refs, runNs); i < |l.volumes| && item in l.volumes[i].items
    ensures var l := LayoutOf(refs, runNs);
            && r in refs && Mountable(r) && r.name == l.volumes[i].secretName && r.key == item.key
            && r.optional == l.volumes[i].optional
            && l.volumes[i].name in l.origins && l.origins[l.volumes[i].name] == Join(listed, ", ")
               && r.origin in listed
  {
    hide BadRef, LayoutOf, VolumeName, Plan, NameOf, Dir, Join, Base;
    VolumeGroup(refs, runNs, i);
    var j := i - Base(refs);
    var g := Plan(refs)[j];
    assert item.key in KeysOf(refs, g.id, g.optional);
    r :| r in refs && InGroup(r, g.id, g.optional) && r.key == item.key;
    NameOfID(r, runNs);
    listed := OriginsOf(refs, g.id, g.optional);
    GroupOrigins(refs, runNs, j);
  }

  lemma GroupOrigins(refs: seq<SecretRef>, runNs: string, j: nat)
    requires j < |Plan(refs)|
    ensures var l, g := LayoutOf(refs, runNs), Plan(refs)[j];
            VolumeName(j) in l.origins && l.origins[VolumeName(j)] == Join(OriginsOf(refs, g.id, g.optional), ", ")
  {
    hide Plan, VolumeName, Join, OriginsOf, LayoutOfPlan;
    OriginsShape(refs, runNs, Plan(refs), j);
  }

  lemma {:induction false} OriginsShape(refs: seq<SecretRef>, runNs: string, plan: seq<Group>, j: nat)
    requires j < |plan|
    ensures var l := LayoutOfPlan(refs, runNs, plan);
            && VolumeName(j) in l.origins
            && l.origins[VolumeName(j)] == Join(OriginsOf(refs, plan[j].id, plan[j].optional), ", ")
  {
    hide GroupKeys, ItemsOf, LookupOf, OriginsOf, FirstKubeconfig, NameOf, VolumeName, Dir, Join;
    if j < |plan| - 1 {
      OriginsShape(refs, runNs, plan[..|plan| - 1], j);
      VolumeNameInjective(j, |plan| - 1);
    }
  }

  // ---------------------------------------------------------------- order independence

  lemma SameGroups(a: seq<SecretRef>, b: seq<SecretRef>)
    requires Bares(a) == Bares(b)
    ensures IDs(a) <= IDs(b)
    ensures forall id, optional :: KeysOf(a, id, optional) <= KeysOf(b, id, optional)
  {
    forall r | r in a ensures exists r' :: r' in b && r'.Bare() == r.Bare() {
      assert r.Bare() in Bares(a);
    }
    forall id | id in IDs(a) ensures id in IDs(b) {
      var r :| r in a && Mountable(r) && SecretID(r) == id;
      var r' :| r' in b && r'.Bare() == r.Bare();
      assert Mountable(r') && SecretID(r') == id;
    }
    forall id, optional, k | k in KeysOf(a, id, optional) ensures k in KeysOf(b, id, optional) {
      var r :| r in a && InGroup(r, id, optional) && r.key == k;
      var r' :| r' in b && r'.Bare() == r.Bare();
      assert InGroup(r', id, optional) && r'.key == k;
    }
  }

  lemma {:induction false} SamePlan(a: seq<SecretRef>, b: seq<SecretRef>, ids: seq<string>)
    requires forall g :: GroupKeys(a, g) == GroupKeys(b, g)
    ensures GroupsOf(a, ids) == GroupsOf(b, ids)
  {
    if ids != [] { SamePlan(a, b, ids[..|ids| - 1]); }
  }

  ghost predicate SamePods(l: Layout, m: Layout) {
    l.volumes == m.volumes && l.mounts == m.mounts && l.lookup == m.lookup
  }

  lemma {:induction false} SameLayout(a: seq<SecretRef>, b: seq<SecretRef>, runNs: string, plan: seq<Group>)
    requires forall g :: GroupKeys(a, g) == GroupKeys(b, g)
    requires SamePods(KubeconfigLayout(FirstKubeconfig(a)), KubeconfigLayout(FirstKubeconfig(b)))
    ensures SamePods(LayoutOfPlan(a, runNs, plan), LayoutOfPlan(b, runNs, plan))
  {
    hide GroupKeys, ItemsOf, LookupOf, OriginsOf, FirstKubeconfig, KubeconfigLayout;
    if plan != [] { SameLayout(a, b, runNs, plan[..|plan| - 1]); }
  }

  lemma {:induction false} FirstKubeconfigIs(refs: seq<SecretRef>)
    ensures FirstKubeconfig(refs).Some? ==> FirstKubeconfig(refs).value in refs
    ensures FirstKubeconfig(refs).Some? ==> MountedKubeconfig(FirstKubeconfig(refs).value)
    ensures FirstKubeconfig(refs).None? ==> forall r :: r in refs ==> !MountedKubeconfig(r)
  {
    if refs != [] { FirstKubeconfigIs(refs[1..]); }
  }

  /** The volumes, mounts and lookup map depend only on which references there are: not on their order,
      their repetition, or where they came from. */
  lemma OrderIndependent(a: seq<SecretRef>, b: seq<SecretRef>, runNs: string)
    requires Bares(a) == Bares(b)
    requires forall r, r' :: r in a && r' in a && MountedKubeconfig(r) && MountedKubeconfig(r') ==> r.name == r'.name
    ensures SamePods(LayoutOf(a, runNs), LayoutOf(b, runNs))
    ensures NoBadRefs(a, runNs) <==> NoBadRefs(b, runNs)
  {
    SameGroups(a, b);
    SameGroups(b, a);
    forall g ensures GroupKeys(a, g) == GroupKeys(b, g) {
    }
    assert IDs(a) == IDs(b);
    SamePlan(a, b, SortStrings(IDs(a)));
    SameKubeconfig(a, b);
    SameLayout(a, b, runNs, Plan(a));
    if NoBadRefs(a, runNs) { SameBadRefs(a, b, runNs); }
    if NoBadRefs(b, runNs) { SameBadRefs(b, a, runNs); }
  }

  lemma SameBadRefs(a: seq<SecretRef>, b: seq<SecretRef>, runNs: string)
    requires Bares(a) == Bares(b) && NoBadRefs(a, runNs)
    ensures NoBadRefs(b, runNs)
  {
    hide IsDNS1123Subdomain, ValidDataKey;
    forall r | r in b ensures !BadRef(r, runNs) {
      assert r.Bare() in Bares(b);
      var r' :| r' in a && r'.Bare() == r.Bare();
      assert !BadRef(r', runNs);
    }
  }

  lemma SameKubeconfig(a: seq<SecretRef>, b: seq<SecretRef>)
    requires Bares(a) == Bares(b)
    requires forall r, r' :: r in a && r' in a && MountedKubeconfig(r) && MountedKubeconfig(r') ==> r.name == r'.name
    ensures SamePods(KubeconfigLayout(FirstKubeconfig(a)), KubeconfigLayout(FirstKubeconfig(b)))
  {
    FirstKubeconfigIs(a);
    FirstKubeconfigIs(b);
    if FirstKubeconfig(b).Some? {
      var r := FirstKubeconfig(b).value;
      assert r.Bare() in Bares(b);
      var r' :| r' in a && r'.Bare() == r.Bare();
      assert MountedKubeconfig(r');
    }
    if FirstKubeconfig(a).Some? {
      var r := FirstKubeconfig(a).value;
      assert r.Bare() in Bares(a);
      var r' :| r' in b && r'.Bare() == r.Bare();
      assert MountedKubeconfig(r');
    }
  }

  // ---------------------------------------------------------------- names and paths, as written

  /** A mounted key is projected under its own name by a volume "ottoflow-secret-<n>" of its Secret,
      mounted at "/etc/ottoflow/secrets/<n>", and the lookup map names the file. */
  lemma MountedAt(refs: seq<SecretRef>, runNs: string, r: SecretRef) returns (i: nat, n: nat)
    requires NoBadRefs(refs, runNs) && r in refs && r.needsRunnerMount && !r.isKubeconfig
    ensures var l, x := LayoutOf(refs, runNs), runNs + "/" + r.name + "/" + r.key;
            && i < |l.volumes| == |l.mounts|
            && l.volumes[i].name == l.mounts[i].name == "ottoflow-secret-" + Itoa(n)
            && l.volumes[i].secretName == r.name && Item(r.key, r.key) in l.volumes[i].items
            && l.mounts[i].mountPath == "/etc/ottoflow/secrets/" + Itoa(n)
            && x in l.lookup && l.lookup[x] == "/etc/ottoflow/secrets/" + Itoa(n) + "/" + r.key
  {
    hide LayoutOf, Plan, GroupKeys, Itoa, IsDNS1123Subdomain, ValidDataKey, Base, KeysOf;
    var l := LayoutOf(refs, runNs);
    i := RefHasFile(refs, runNs, r);
    VolumeGroup(refs, runNs, i);
    n := i - Base(refs);
    assert Dir(n) == "/etc/ottoflow/secrets/" + Itoa(n);
  }

  lemma MapEntryHasRef(refs: seq<SecretRef>, runNs: string, x: string) returns (r: SecretRef)
    requires NoBadRefs(refs, runNs) && x in LayoutOf(refs, runNs).lookup
    ensures r in refs && r.needsRunnerMount && !r.isKubeconfig && x == runNs + "/" + r.name + "/" + r.key
  {
    hide BadRef, Plan, NameOf, FirstKubeconfig, Dir;
    PlanMembers(refs);
    PlanIsWellNamed(refs, runNs);
    LookupShape(refs, runNs, Plan(refs));
    assert HasEntry(refs, runNs, Plan(refs), x);
    var j: nat, k :| EntryOf(refs, runNs, Plan(refs), j, k, x);
    var g := Plan(refs)[j];
    r :| r in refs && InGroup(r, g.id, g.optional) && r.key == k;
    NameOfID(r, runNs);
  }

  /** The first kubeconfig reference becomes the whole-Secret volume in front of all others; without
      one there is no such volume. */
  lemma KubeconfigAt(refs: seq<SecretRef>, runNs: string, k: nat)
    requires k < |refs| && refs[k].isKubeconfig && refs[k].needsRunnerMount
    requires forall m :: 0 <= m < k ==> !(refs[m].isKubeconfig && refs[m].needsRunnerMount)
    ensures var l := LayoutOf(refs, runNs);
            && 0 < |l.volumes| == |l.mounts|
            && l.volumes[0] == Volume("ottoflow-secret-kubeconfig", refs[k].name, [], false)
            && l.mounts[0] == VolumeMount("ottoflow-secret-kubeconfig", "/etc/ottoflow/secrets/kubeconfig")
            && "ottoflow-secret-kubeconfig" in l.origins
            && l.origins["ottoflow-secret-kubeconfig"] == refs[k].origin
  {
    hide Plan, PlannedVolume, VolumeName, Dir, LayoutOfPlan;
    FirstKubeconfigAt(refs, k);
    LayoutShape(refs, runNs, Plan(refs));
    KubeconfigOrigin(refs, runNs, Plan(refs));
  }

  lemma {:induction false} FirstKubeconfigAt(refs: seq<SecretRef>, k: nat)
    requires k < |refs| && MountedKubeconfig(refs[k])
    requires forall m :: 0 <= m < k ==> !MountedKubeconfig(refs[m])
    ensures FirstKubeconfig(refs) == Some(refs[k])
  {
    if k > 0 { FirstKubeconfigAt(refs[1..], k - 1); }
  }

  lemma {:induction false} KubeconfigOrigin(refs: seq<SecretRef>, runNs: string, plan: seq<Group>)
    requires FirstKubeconfig(refs).Some?
    ensures var l := LayoutOfPlan(refs, runNs, plan);
            && "ottoflow-secret-kubeconfig" in l.origins
            && l.origins["ottoflow-secret-kubeconfig"] == FirstKubeconfig(refs).value.origin
  {
    hide GroupKeys, ItemsOf, LookupOf, OriginsOf, FirstKubeconfig, NameOf, VolumeName, Dir, Join;
    assert KUBECONFIG_VOLUME == "ottoflow-secret-kubeconfig";
    if plan != [] {
      KubeconfigOrigin(refs, runNs, plan[..|plan| - 1]);
      VolumeNameInjective(|plan| - 1, 0);
    }
  }

  lemma NoKubeconfigVolume(refs: seq<SecretRef>, runNs: string)
    requires forall r :: r in refs ==> !(r.isKubeconfig && r.needsRunnerMount)
    ensures forall v :: v in LayoutOf(refs, runNs).volumes ==> v.name != "ottoflow-secret-kubeconfig"
  {
    hide LayoutOf, VolumeName, FirstKubeconfig;
    FirstKubeconfigIs(refs);
    NamesAt(refs, runNs);
    forall i: nat { VolumeNameInjective(i, 0); }
  }

  /** `at` lists where each origin of the group first occurs. */
  ghost predicate FirstOccurrences(refs: seq<SecretRef>, id: string, optional: bool, origins: seq<string>,
                                   at: seq<nat>) {
    && |at| == |origins|
    && (forall i, j :: 0 <= i < j < |at| ==> at[i] < at[j])
    && (forall i :: 0 <= i < |at| ==> FirstOccurs(refs, id, optional, origins[i], at[i]))
  }

  ghost predicate FirstOccurs(refs: seq<SecretRef>, id: string, optional: bool, origin: string, k: nat) {
    && k < |refs| && InGroup(refs[k], id, optional) && refs[k].origin == origin
    && forall m :: 0 <= m < k && InGroup(refs[m], id, optional) ==> refs[m].origin != origin
  }

  lemma OccursEarlier(refs: seq<SecretRef>, id: string, optional: bool, origins: seq<string>, at: seq<nat>)
    requires refs != [] && FirstOccurrences(refs[..|refs| - 1], id, optional, origins, at)
    ensures FirstOccurrences(refs, id, optional, origins, at)
    ensures forall i :: 0 <= i < |at| ==> at[i] < |refs| - 1
  {
    hide InGroup;
    forall i | 0 <= i < |at| ensures at[i] < |refs| - 1 && FirstOccurs(refs, id, optional, origins[i], at[i]) {
      assert FirstOccurs(refs[..|refs| - 1], id, optional, origins[i], at[i]);
    }
  }

  lemma OccursLast(refs: seq<SecretRef>, id: string, optional: bool)
    requires refs != [] && InGroup(refs[|refs| - 1], id, optional)
    requires refs[|refs| - 1].origin !in OriginsOf(refs[..|refs| - 1], id, optional)
    ensures FirstOccurs(refs, id, optional, refs[|refs| - 1].origin, |refs| - 1)
  {
    hide InGroup;
    var n := |refs| - 1;
    forall m | 0 <= m < n && InGroup(refs[m], id, optional) ensures refs[m].origin != refs[n].origin {
      assert refs[m] in refs[..n];
    }
  }

  /** The origins listed for a group are those of its references, each once, in the order in which they
      first occur. */
  lemma {:induction false} OriginsInOrder(refs: seq<SecretRef>, id: string, optional: bool) returns (at: seq<nat>)
    ensures FirstOccurrences(refs, id, optional, OriginsOf(refs, id, optional), at)
  {
    at := [];
    if refs != [] {
      hide InGroup, FirstOccurs;
      var n := |refs| - 1;
      var init, last := refs[..n], refs[n];
      var origins := OriginsOf(init, id, optional);
      at := OriginsInOrder(init, id, optional);
      OccursEarlier(refs, id, optional, origins, at);
      if InGroup(last, id, optional) && last.origin !in origins {
        OccursLast(refs, id, optional);
        at := at + [n];
      }
    }
  }
}
