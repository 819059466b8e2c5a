/** internal/workflow/controller/stuck_runner_pod.go: naming the workflow field behind every minted
    volume that a kubelet message mentions. The regular expression is a hand-written scanner here. */
module Attribution {
  import opened Wrappers
  import opened Ordering
  import opened Text
  import opened SecretRefs
  import opened SecretMounts
  import opened MountLayout

  /** [A-Za-z0-9-] */
  predicate IsTokenChar(c: char) { 'a' <= c <= 'z' || 'A' <= c <= 'Z' || IsDigit(c) || c == '-' }

  // ---------------------------------------------------------------- what a message names

  /** `m[a..b]` is a run of token characters that cannot be extended on either side. */
  ghost predicate MaximalRun(m: string, a: nat, b: nat) {
    && a < b <= |m|
    && (forall i :: a <= i < b ==> IsTokenChar(m[i]))
    && (a > 0 ==> !IsTokenChar(m[a - 1]))
    && (b < |m| ==> !IsTokenChar(m[b]))
  }

  predicate IsMintedForm(t: string) {
    HasPrefix(t, GENERATED_SECRET_VOLUME_PREFIX) && |t| > |GENERATED_SECRET_VOLUME_PREFIX|
  }

  ghost predicate NamedAt(m: string, a: nat, b: nat, name: string) {
    MaximalRun(m, a, b) && name == m[a..b] && IsMintedForm(name)
  }

  ghost predicate Names(m: string, name: string) {
    exists a: nat, b: nat :: NamedAt(m, a, b, name)
  }

  /** Letters, digits and '-' around a separator, and the reserved prefix with something behind it. */
  lemma NameIs(m: string, a: nat, b: nat, name: string)
    ensures NamedAt(m, a, b, name) <==>
              && a + 16 < b <= |m| && name == m[a..b] && m[a..a + 16] == "ottoflow-secret-"
              && (forall i :: a - 1 <= i <= b && 0 <= i < |m| ==>
                    (a <= i < b <==> '0' <= m[i] <= '9' || 'A' <= m[i] <= 'Z' || 'a' <= m[i] <= 'z' || m[i] == '-'))
  {
    if a + 16 < b <= |m| {
      assert m[a..b][..16] == m[a..a + 16];
    }
  }

  // ---------------------------------------------------------------- the scanner

  function RunEnd(m: string, i: nat): (e: nat)
    requires i <= |m|
    ensures i <= e <= |m| && (forall j :: i <= j < e ==> IsTokenChar(m[j])) && (e < |m| ==> !IsTokenChar(m[e]))
    decreases |m| - i
  {
    if i < |m| && IsTokenChar(m[i]) then RunEnd(m, i + 1) else i
  }

  /** The capturing group matches at `s`: the prefix, then at least one token character. */
  predicate TokenAt(m: string, s: nat) {
    var n := |GENERATED_SECRET_VOLUME_PREFIX|;
    s + n < |m| && m[s..s + n] == GENERATED_SECRET_VOLUME_PREFIX && IsTokenChar(m[s + n])
  }

  lemma PrefixIsToken(i: nat)
    requires i < |GENERATED_SECRET_VOLUME_PREFIX|
    ensures IsTokenChar(GENERATED_SECRET_VOLUME_PREFIX[i])
  {
  }

  lemma TokenAtIsRun(m: string, s: nat)
    requires TokenAt(m, s) && (s > 0 ==> !IsTokenChar(m[s - 1]))
    ensures NamedAt(m, s, RunEnd(m, s), m[s..RunEnd(m, s)])
  {
    var n, e := |GENERATED_SECRET_VOLUME_PREFIX|, RunEnd(m, s);
    forall i | s <= i < s + n ensures IsTokenChar(m[i]) {
      PrefixIsToken(i - s);
      assert m[i] == m[s..s + n][i - s];
    }
    assert e > s + n;
    assert m[s..e][..n] == m[s..s + n];
  }

  lemma RunIsTokenAt(m: string, a: nat, b: nat, name: string)
    requires NamedAt(m, a, b, name)
    ensures TokenAt(m, a) && b == RunEnd(m, a)
  {
    hide IsTokenChar;
    var n := |GENERATED_SECRET_VOLUME_PREFIX|;
    assert m[a..b][..n] == m[a..a + n];
    assert IsTokenChar(m[a + n]);
  }

  ghost predicate ScannedTo(m: string, i: nat, tokens: seq<string>) {
    && (forall t :: t in tokens ==> Names(m, t))
    && (forall a: nat, b: nat, t :: NamedAt(m, a, b, t) && a <= i && i > 0 ==> t in tokens)
  }

  lemma ScannedRun(m: string, i: nat, s: nat, tokens: seq<string>)
    requires ScannedTo(m, i, tokens) && TokenAt(m, s)
    requires (i == 0 && s == 0) || (s == i + 1 && !IsTokenChar(m[i]))
    ensures ScannedTo(m, RunEnd(m, s), tokens + [m[s..RunEnd(m, s)]])
    ensures RunEnd(m, s) > i
  {
    TokenAtIsRun(m, s);
    var e, tokens' := RunEnd(m, s), tokens + [m[s..RunEnd(m, s)]];
    assert Names(m, m[s..e]);
    forall a: nat, b: nat, t | NamedAt(m, a, b, t) && a <= e ensures t in tokens' {
      RunIsTokenAt(m, a, b, t);
      assert a > 0 ==> !IsTokenChar(m[a - 1]);
      if a == s {
        assert t == tokens'[|tokens|];
      }
    }
  }

  /** generatedSecretVolumeNameRE.FindAllStringSubmatch: leftmost matches one after another, each
      consuming the separator before it. */
  method FindTokens(m: string) returns (tokens: seq<string>)
    ensures forall t :: t in tokens <==> Names(m, t)
  {
    tokens := [];
    var i := 0;
    while i < |m|
      invariant i <= |m| && ScannedTo(m, i, tokens)
    {
      if i == 0 && TokenAt(m, 0) {
        ScannedRun(m, i, 0, tokens);
        var e := RunEnd(m, 0);
        tokens := tokens + [m[0..e]];
        i := e;
      } else if !IsTokenChar(m[i]) && TokenAt(m, i + 1) {
        ScannedRun(m, i, i + 1, tokens);
        var e := RunEnd(m, i + 1);
        tokens := tokens + [m[i + 1..e]];
        i := e;
      } else {
        forall a: nat, b: nat, t | NamedAt(m, a, b, t) && a <= i + 1 ensures t in tokens {
          RunIsTokenAt(m, a, b, t);
        }
        i := i + 1;
      }
    }
    forall t | Names(m, t) ensures t in tokens {
      var a: nat, b: nat :| NamedAt(m, a, b, t);
      assert a <= i;
    }
  }

  // ---------------------------------------------------------------- the diagnosis

  ghost function Attributed(origins: map<string, string>, message: string): set<string> {
    set name | name in origins && Names(message, name)
  }

  function Sentence(name: string, origin: string): string {
    " Volume " + Quoted(name) + " was generated for " + origin + "."
  }

  function Render(hits: seq<string>, origins: map<string, string>): string
    requires forall h :: h in hits ==> h in origins
  {
    if hits == [] then ""
    else Render(hits[..|hits| - 1], origins) + Sentence(hits[|hits| - 1], origins[hits[|hits| - 1]])
  }

  /** One sentence for each minted volume the message names, in order and without repetition. No origins
      at all stand for a missing or malformed annotation. */
  method SecretVolumeAttribution(origins: Option<map<string, string>>, message: string) returns (text: string)
    ensures origins.None? ==> text == ""
    ensures origins.Some? ==> text == Render(SortStrings(Attributed(origins.value, message)), origins.value)
  {
    hide Names, Render, SortStrings;
    if origins.None? { return ""; }
    var tokens := FindTokens(message);
    var hits := Hits(tokens, origins.value);
    assert hits == Attributed(origins.value, message);
    var sorted := SortedKeys(hits);
    text := Sentences(sorted, origins.value);
  }

  /** The tokens that are minted names, each once. */
  method Hits(tokens: seq<string>, origins: map<string, string>) returns (hits: set<string>)
    ensures forall h :: h in hits <==> h in tokens && h in origins
  {
    hits := {};
    for i := 0 to |tokens|
      invariant forall h :: h in hits <==> h in tokens[..i] && h in origins
    {
      assert tokens[..i + 1] == tokens[..i] + [tokens[i]];
      if tokens[i] in origins { hits := hits + {tokens[i]}; }
    }
    assert tokens[..|tokens|] == tokens;
  }

  method Sentences(hits: seq<string>, origins: map<string, string>) returns (text: string)
    requires forall h :: h in hits ==> h in origins
    ensures text == Render(hits, origins)
  {
    hide Sentence;
    text := "";
    for i := 0 to |hits|
      invariant text == Render(hits[..i], origins)
    {
      assert hits[..i + 1][..i] == hits[..i];
      text := text + Sentence(hits[i], origins[hits[i]]);
    }
    assert hits[..|hits|] == hits;
  }

  /** The words of the diagnosis. */
  lemma OneHit(origins: map<string, string>, name: string)
    requires name in origins
    ensures Render([name], origins) == " Volume \"" + name + "\" was generated for " + origins[name] + "."
  {
    assert Render([], origins) == "";
    assert [name][..0] == [];
    assert " Volume " + ("\"" + name + "\"") + " was generated for "
        == " Volume \"" + name + "\" was generated for ";
  }

  /** One hit after another, each with a sentence of its own. */
  lemma HitsInTurn(origins: map<string, string>, hits: seq<string>, name: string)
    requires name in origins && forall h :: h in hits ==> h in origins
    ensures Render(hits + [name], origins) == Render(hits, origins) + Render([name], origins)
  {
    assert (hits + [name])[..|hits|] == hits;
    assert Render([], origins) == "" && [name][..0] == [];
  }

  /** Two runs that overlap are the same run: a name is never read out of the middle of a longer token. */
  lemma RunsAreDisjoint(m: string, a: nat, b: nat, a': nat, b': nat)
    requires MaximalRun(m, a, b) && MaximalRun(m, a', b') && a < b' && a' < b
    ensures a == a' && b == b'
  {
    assert a > 0 ==> !IsTokenChar(m[a - 1]);
    assert a' > 0 ==> !IsTokenChar(m[a' - 1]);
    assert b < |m| ==> !IsTokenChar(m[b]);
    assert b' < |m| ==> !IsTokenChar(m[b']);
  }

  /** A minted name standing as a whole word in a message is attributed to its origins, wherever it
      stands and whatever surrounds it; and every volume of the layout has such a name. */
  lemma MintedNamesAreAttributed(refs: seq<SecretRef>, runNs: string, i: nat, before: string, after: string)
    requires i < |LayoutOf(refs, runNs).volumes|
    requires before != "" ==> !IsTokenChar(before[|before| - 1])
    requires after != "" ==> !IsTokenChar(after[0])
    ensures var l := LayoutOf(refs, runNs);
            l.volumes[i].name in Attributed(l.origins, before + l.volumes[i].name + after)
  {
    hide LayoutOf, Names, IsMintedForm, IsTokenChar, MaximalRun;
    var name := LayoutOf(refs, runNs).volumes[i].name;
    MintedName(refs, runNs, i);
    MiddleOf(before, name, after);
    assert name != "" by { MintedIsNotEmpty(name); }
    WholeWordIsNamed(before + name + after, |before|, |before| + |name|, name);
  }

  lemma MintedIsNotEmpty(name: string)
    requires IsMintedForm(name)
    ensures name != ""
  {
  }

  lemma WholeWordIsNamed(m: string, a: nat, b: nat, name: string)
    requires a < b <= |m| && b == a + |name| && m[a..b] == name && IsMintedForm(name)
    requires forall j :: a <= j < b ==> m[j] == name[j - a]
    requires forall j :: 0 <= j < |name| ==> IsTokenChar(name[j])
    requires (a > 0 ==> !IsTokenChar(m[a - 1])) && (b < |m| ==> !IsTokenChar(m[b]))
    ensures Names(m, name)
  {
    hide IsTokenChar, IsMintedForm, MaximalRun, Names;
    WholeWordIsRun(m, a, b, name);
    NamedIs(m, a, b, name);
  }

  lemma MiddleOf(before: string, name: string, after: string)
    ensures var m, a, b := before + name + after, |before|, |before| + |name|;
            && m[a..b] == name && (forall j :: a <= j < b ==> m[j] == name[j - a])
            && (a > 0 ==> m[a - 1] == before[a - 1]) && (b < |m| ==> m[b] == after[0])
  {
  }

  lemma NamedIs(m: string, a: nat, b: nat, name: string)
    requires NamedAt(m, a, b, name)
    ensures Names(m, name)
  {
  }

  lemma WholeWordIsRun(m: string, a: nat, b: nat, name: string)
    requires a < b <= |m| && b == a + |name| && forall j :: a <= j < b ==> m[j] == name[j - a]
    requires forall j :: 0 <= j < |name| ==> IsTokenChar(name[j])
    requires (a > 0 ==> !IsTokenChar(m[a - 1])) && (b < |m| ==> !IsTokenChar(m[b]))
    ensures MaximalRun(m, a, b)
  {
    hide IsTokenChar;
  }

  lemma MintedName(refs: seq<SecretRef>, runNs: string, i: nat)
    requires i < |LayoutOf(refs, runNs).volumes|
    ensures var l := LayoutOf(refs, runNs);
            && l.volumes[i].name in l.origins && IsMintedForm(l.volumes[i].name)
            && forall j :: 0 <= j < |l.volumes[i].name| ==> IsTokenChar(l.volumes[i].name[j])
  {
    hide LayoutOf, Plan, GroupKeys, NameOf, Dir, IsMintedForm, VolumeName, Join, OriginsOf;
    VolumeGroup(refs, runNs, i);
    if i >= Base(refs) {
      GroupOrigins(refs, runNs, i - Base(refs));
      MintedForm(i - Base(refs));
    } else {
      KubeconfigOriginListed(refs, runNs);
      MintedForm(0);
    }
  }

  lemma KubeconfigOriginListed(refs: seq<SecretRef>, runNs: string)
    requires Base(refs) == 1
    ensures KUBECONFIG_VOLUME in LayoutOf(refs, runNs).origins
  {
    hide LayoutOfPlan, Plan;
    KubeconfigOrigin(refs, runNs, Plan(refs));
    assert KUBECONFIG_VOLUME == "ottoflow-secret-kubeconfig";
  }

  lemma MintedForm(j: nat)
    ensures IsMintedForm(VolumeName(j)) && IsMintedForm(KUBECONFIG_VOLUME)
    ensures forall k :: 0 <= k < |VolumeName(j)| ==> IsTokenChar(VolumeName(j)[k])
    ensures forall k :: 0 <= k < |KUBECONFIG_VOLUME| ==> IsTokenChar(KUBECONFIG_VOLUME[k])
  {
    var n := |GENERATED_SECRET_VOLUME_PREFIX|;
    forall k | 0 <= k < |VolumeName(j)| ensures IsTokenChar(VolumeName(j)[k]) {
      if k < n { PrefixIsToken(k); } else { assert VolumeName(j)[k] == Itoa(j)[k - n]; }
    }
    forall k | 0 <= k < |KUBECONFIG_VOLUME| ensures IsTokenChar(KUBECONFIG_VOLUME[k]) {
      if k < n { PrefixIsToken(k); } else { assert KUBECONFIG_VOLUME[k] == "kubeconfig"[k - n]; }
    }
  }
}
