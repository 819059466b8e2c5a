/** internal/workflow/executor/audit_redaction.go: redacting sensitive outputs from the audit copy of a
    workflow's context. */
module Redaction {
  import opened Wrappers

  /** interface{} values: nested maps and slices, and everything else. */
  datatype Scalar = Text(s: string) | Number(n: int) | Bool(b: bool) | Nil
  datatype Tree = Obj(fields: map<string, Tree>) | Arr(items: seq<Tree>) | Leaf(value: Scalar)

  const PLACEHOLDER := Leaf(Text("<redacted:sensitive>"))

  predicate IsNamedKey(k: string) { k == "outputs" || k == "variables" }

  function RedactValue(v: Tree, sensitive: set<string>): Tree
    decreases v, 0
  {
    match v
    case Obj(fields) =>
      Obj(map k | k in fields ::
            if IsNamedKey(k) then RedactNamedMap(fields[k], sensitive) else RedactValue(fields[k], sensitive))
    case Arr(items) => Arr(seq(|items|, i requires 0 <= i < |items| => RedactValue(items[i], sensitive)))
    case Leaf(_) => v
  }

  function RedactNamedMap(v: Tree, sensitive: set<string>): Tree
    decreases v, 1
  {
    if v.Obj? then
      Obj(map k | k in v.fields :: if k in sensitive then PLACEHOLDER else RedactValue(v.fields[k], sensitive))
    else RedactValue(v, sensitive)
  }

  /** The context itself is a map; a nil one yields an empty map. */
  function RedactSensitiveContext(ctx: Option<map<string, Tree>>, sensitive: set<string>): map<string, Tree> {
    if ctx.None? then map[] else RedactValue(Obj(ctx.value), sensitive).fields
  }

  // ---------------------------------------------------------------- algebra

  function Redact(v: Tree, named: bool, sensitive: set<string>): Tree {
    if named then RedactNamedMap(v, sensitive) else RedactValue(v, sensitive)
  }

  /** One level of a redacted copy. */
  lemma RedactItems(items: seq<Tree>, named: bool, s: set<string>)
    ensures Redact(Arr(items), named, s) == Arr(seq(|items|, i requires 0 <= i < |items| => Redact(items[i], false, s)))
  {
    var v := Arr(items);
    assert RedactNamedMap(v, s) == RedactValue(v, s);
    assert RedactValue(v, s).Arr? && |RedactValue(v, s).items| == |items|;
    assert RedactValue(v, s).items == seq(|items|, i requires 0 <= i < |items| => Redact(items[i], false, s));
  }

  lemma RedactFields(fields: map<string, Tree>, named: bool, s: set<string>)
    ensures Redact(Obj(fields), named, s) == Obj(map k | k in fields ::
              if named && k in s then PLACEHOLDER else Redact(fields[k], !named && IsNamedKey(k), s))
  {
    assert Redact(Obj(fields), named, s).Obj?;
    assert Redact(Obj(fields), named, s).fields == map k | k in fields ::
              if named && k in s then PLACEHOLDER else Redact(fields[k], !named && IsNamedKey(k), s);
  }

  /** Redacting by two sets one after the other is redacting by their union. */
  lemma {:induction false} RedactTwice(v: Tree, named: bool, s: set<string>, t: set<string>)
    ensures Redact(Redact(v, named, s), named, t) == Redact(v, named, s + t)
    decreases v
  {
    match v
    case Leaf(_) =>
      forall x { LeafStays(v, named, x); }
    case Arr(items) =>
      forall i | 0 <= i < |items|
        ensures Redact(Redact(items[i], false, s), false, t) == Redact(items[i], false, s + t)
      {
        RedactTwice(items[i], false, s, t);
      }
      ItemsTwice(items, named, s, t);
    case Obj(fields) =>
      forall k, n | k in fields ensures Redact(Redact(fields[k], n, s), n, t) == Redact(fields[k], n, s + t) {
        RedactTwice(fields[k], n, s, t);
      }
      FieldsTwice(fields, named, s, t);
  }

  lemma ItemsTwice(items: seq<Tree>, named: bool, s: set<string>, t: set<string>)
    requires forall x :: x in items ==> Redact(Redact(x, false, s), false, t) == Redact(x, false, s + t)
    ensures Redact(Redact(Arr(items), named, s), named, t) == Redact(Arr(items), named, s + t)
  {
    hide Redact;
    RedactItems(items, named, s);
    RedactItems(Redact(Arr(items), named, s).items, named, t);
    RedactItems(items, named, s + t);
    assert Redact(Redact(Arr(items), named, s), named, t).items == Redact(Arr(items), named, s + t).items;
  }

  lemma FieldsTwice(fields: map<string, Tree>, named: bool, s: set<string>, t: set<string>)
    requires forall k, n | k in fields :: Redact(Redact(fields[k], n, s), n, t) == Redact(fields[k], n, s + t)
    ensures Redact(Redact(Obj(fields), named, s), named, t) == Redact(Obj(fields), named, s + t)
  {
    hide Redact;
    RedactFields(fields, named, s);
    RedactFields(Redact(Obj(fields), named, s).fields, named, t);
    RedactFields(fields, named, s + t);
    LeafStays(PLACEHOLDER, false, t);
    assert Redact(Redact(Obj(fields), named, s), named, t).fields == Redact(Obj(fields), named, s + t).fields;
  }

  lemma LeafStays(v: Tree, named: bool, s: set<string>)
    requires v.Leaf?
    ensures Redact(v, named, s) == v
  {
    assert RedactValue(v, s) == v;
  }

  /** So redaction is idempotent, and the order of two redactions does not matter. */
  lemma RedactContextLaws(ctx: Option<map<string, Tree>>, s: set<string>, t: set<string>)
    ensures ctx.None? ==> RedactSensitiveContext(ctx, s) == map[]
    ensures var once := RedactSensitiveContext(ctx, s);
            && RedactSensitiveContext(Some(once), t) == RedactSensitiveContext(ctx, s + t)
            && RedactSensitiveContext(Some(once), s) == once
            && RedactSensitiveContext(Some(once), t) == RedactSensitiveContext(Some(RedactSensitiveContext(ctx, t)), s)
  {
    var v := Obj(if ctx.None? then map[] else ctx.value);
    assert ctx.None? ==>
             RedactValue(v, s).fields == map[] && RedactValue(v, t).fields == map[]
                 && RedactValue(v, s + t).fields == map[];
    forall a, b ensures RedactValue(RedactValue(v, a), b) == RedactValue(v, a + b) {
      RedactTwice(v, false, a, b);
    }
    assert s + s == s && s + t == t + s;
  }

  // ---------------------------------------------------------------- positions

  datatype Selector = Field(k: string) | Index(i: nat)

  /** How the value at a position is treated. It depends on the path to it alone. */
  datatype Treatment = Plain | Named | Redacted

  function Enter(t: Treatment, sel: Selector, sensitive: set<string>): Treatment {
    if t.Redacted? then Redacted
    else if sel.Index? then Plain
    else if t.Named? then (if sel.k in sensitive then Redacted else Plain)
    else if IsNamedKey(sel.k) then Named
    else Plain
  }

  function TreatmentOf(t: Treatment, path: seq<Selector>, sensitive: set<string>): Treatment
    decreases |path|
  {
    if path == [] then t else TreatmentOf(Enter(t, path[0], sensitive), path[1..], sensitive)
  }

  function Child(v: Tree, sel: Selector): Option<Tree> {
    if sel.Field? && v.Obj? && sel.k in v.fields then Some(v.fields[sel.k])
    else if sel.Index? && v.Arr? && sel.i < |v.items| then Some(v.items[sel.i])
    else None
  }

  function At(v: Tree, path: seq<Selector>): Option<Tree> {
    if path == [] then Some(v)
    else if Child(v, path[0]).None? then None
    else At(Child(v, path[0]).value, path[1..])
  }

  /** What can be seen of a node without entering it. */
  datatype Shape = ObjShape(keys: set<string>) | ArrShape(len: nat) | LeafShape(value: Scalar) | Missing

  function ShapeOf(v: Option<Tree>): Shape {
    match v
    case None => Missing
    case Some(Obj(fields)) => ObjShape(fields.Keys)
    case Some(Arr(items)) => ArrShape(|items|)
    case Some(Leaf(value)) => LeafShape(value)
  }

  function RedactAs(v: Tree, t: Treatment, sensitive: set<string>): Tree {
    match t
    case Plain => RedactValue(v, sensitive)
    case Named => RedactNamedMap(v, sensitive)
    case Redacted => PLACEHOLDER
  }

  lemma RedactChild(v: Tree, t: Treatment, sel: Selector, sensitive: set<string>)
    requires !t.Redacted?
    ensures Child(RedactAs(v, t, sensitive), sel) ==
            if Child(v, sel).None? then None
                else Some(RedactAs(Child(v, sel).value, Enter(t, sel, sensitive), sensitive))
    ensures ShapeOf(Some(RedactAs(v, t, sensitive))) == ShapeOf(Some(v))
  {
    var copy := RedactAs(v, t, sensitive);
    match v
    case Obj(fields) => assert copy.Obj? && copy.fields.Keys == fields.Keys;
    case Arr(items) => assert copy == RedactValue(v, sensitive) && |copy.items| == |items|;
    case Leaf(_) => assert copy == RedactValue(v, sensitive) == v;
  }

  /** At every position that is not redacted the copy has the node of the original, keys and lengths
      included; the first redacted position on a path holds the placeholder. */
  lemma {:induction false} RedactedCopyAt(v: Tree, t: Treatment, path: seq<Selector>, sensitive: set<string>)
    ensures var copy := RedactAs(v, t, sensitive);
            && (!TreatmentOf(t, path, sensitive).Redacted? ==> ShapeOf(At(copy, path)) == ShapeOf(At(v, path)))
            && (path != [] && TreatmentOf(t, path, sensitive).Redacted?
                && !TreatmentOf(t, path[..|path| - 1], sensitive).Redacted? ==>
                  At(copy, path) == if At(v, path).None? then None else Some(PLACEHOLDER))
    decreases |path|
  {
    if path == [] {
      if !t.Redacted? { RedactChild(v, t, Index(0), sensitive); }
    } else if t.Redacted? {
      StaysRedacted(path, sensitive);
      StaysRedacted(path[..|path| - 1], sensitive);
    } else {
      var sel := path[0];
      RedactChild(v, t, sel, sensitive);
      if Child(v, sel).Some? {
        var next := Enter(t, sel, sensitive);
        RedactedCopyAt(Child(v, sel).value, next, path[1..], sensitive);
        if |path| > 1 { assert path[..|path| - 1][1..] == path[1..][..|path| - 2]; }
      }
    }
  }

  lemma {:induction false} StaysRedacted(path: seq<Selector>, sensitive: set<string>)
    ensures TreatmentOf(Redacted, path, sensitive).Redacted?
  {
    if path != [] { StaysRedacted(path[1..], sensitive); }
  }

  /** Two values look alike everywhere outside the redacted positions. */
  ghost predicate AgreeOutside(x: Tree, y: Tree, t: Treatment, sensitive: set<string>) {
    forall path :: !TreatmentOf(t, path, sensitive).Redacted? ==> ShapeOf(At(x, path)) == ShapeOf(At(y, path))
  }

  lemma AgreeInside(x: Tree, y: Tree, t: Treatment, sel: Selector, sensitive: set<string>)
    requires AgreeOutside(x, y, t, sensitive)
    requires Child(x, sel).Some? && Child(y, sel).Some?
    ensures AgreeOutside(Child(x, sel).value, Child(y, sel).value, Enter(t, sel, sensitive), sensitive)
  {
    forall path | !TreatmentOf(Enter(t, sel, sensitive), path, sensitive).Redacted?
      ensures ShapeOf(At(Child(x, sel).value, path)) == ShapeOf(At(Child(y, sel).value, path))
    {
      assert ([sel] + path)[1..] == path;
      assert ShapeOf(At(x, [sel] + path)) == ShapeOf(At(y, [sel] + path));
    }
  }

  lemma {:induction false} AgreeingRedactAlike(x: Tree, y: Tree, t: Treatment, sensitive: set<string>)
    requires AgreeOutside(x, y, t, sensitive)
    ensures RedactAs(x, t, sensitive) == RedactAs(y, t, sensitive)
    decreases x
  {
    if !t.Redacted? {
      assert ShapeOf(At(x, [])) == ShapeOf(At(y, []));
      match x
      case Leaf(_) =>
      case Arr(items) =>
        forall i | 0 <= i < |items| ensures RedactValue(items[i], sensitive) == RedactValue(y.items[i], sensitive) {
          AgreeInside(x, y, t, Index(i), sensitive);
          AgreeingRedactAlike(items[i], y.items[i], Plain, sensitive);
        }
        assert RedactValue(x, sensitive).items == RedactValue(y, sensitive).items;
      case Obj(fields) =>
        forall k | k in fields
          ensures RedactAs(fields[k], Enter(t, Field(k), sensitive), sensitive)
               == RedactAs(y.fields[k], Enter(t, Field(k), sensitive), sensitive)
        {
          AgreeInside(x, y, t, Field(k), sensitive);
          AgreeingRedactAlike(fields[k], y.fields[k], Enter(t, Field(k), sensitive), sensitive);
        }
        assert RedactAs(x, t, sensitive).fields == RedactAs(y, t, sensitive).fields;
    }
  }

  /** Noninterference, both ways: two contexts have the same redacted copy exactly when they differ at
      redacted positions only. */
  lemma SameCopyIffAgree(x: Tree, y: Tree, sensitive: set<string>)
    ensures RedactValue(x, sensitive) == RedactValue(y, sensitive) <==> AgreeOutside(x, y, Plain, sensitive)
  {
    if AgreeOutside(x, y, Plain, sensitive) {
      AgreeingRedactAlike(x, y, Plain, sensitive);
    }
    if RedactValue(x, sensitive) == RedactValue(y, sensitive) {
      forall path | !TreatmentOf(Plain, path, sensitive).Redacted?
        ensures ShapeOf(At(x, path)) == ShapeOf(At(y, path))
      {
        RedactedCopyAt(x, Plain, path, sensitive);
        RedactedCopyAt(y, Plain, path, sensitive);
      }
    }
  }

  // ---------------------------------------------------------------- the two sections by name

  /** A path that enters neither section. */
  predicate OutsideSections(path: seq<Selector>) {
    forall i :: 0 <= i < |path| ==> path[i] != Field("outputs") && path[i] != Field("variables")
  }

  lemma {:induction false} OutsideIsPlain(path: seq<Selector>, sensitive: set<string>)
    requires OutsideSections(path)
    ensures TreatmentOf(Plain, path, sensitive) == Plain
  {
    if path != [] { OutsideIsPlain(path[1..], sensitive); }
  }

  lemma {:induction false} CopyBelowPlain(v: Tree, path: seq<Selector>, sensitive: set<string>)
    requires OutsideSections(path)
    ensures At(RedactValue(v, sensitive), path)
         == if At(v, path).None? then None else Some(RedactValue(At(v, path).value, sensitive))
    decreases |path|
  {
    if path != [] {
      RedactChild(v, Plain, path[0], sensitive);
      assert Enter(Plain, path[0], sensitive) == Plain;
      if Child(v, path[0]).Some? { CopyBelowPlain(Child(v, path[0]).value, path[1..], sensitive); }
    }
  }

  /** `v` has a map under `section`, and a value `k` in it. */
  predicate HoldsIn(v: Tree, section: string, k: string) {
    v.Obj? && section in v.fields && v.fields[section].Obj? && k in v.fields[section].fields
  }

  /** Wherever outside the two sections a map has a section "outputs" or "variables" with a sensitive name,
      the copy shows the fixed text in its place. */
  lemma SensitiveIsHidden(v: Tree, path: seq<Selector>, section: string, k: string, sensitive: set<string>)
    requires OutsideSections(path) && At(v, path).Some? && HoldsIn(At(v, path).value, section, k)
    requires (section == "outputs" || section == "variables") && k in sensitive
    ensures At(RedactValue(v, sensitive), path).Some?
    ensures var at := At(RedactValue(v, sensitive), path).value;
            HoldsIn(at, section, k) && at.fields[section].fields[k] == Leaf(Text("<redacted:sensitive>"))
  {
    CopyBelowPlain(v, path, sensitive);
    var at := At(v, path).value;
    RedactChild(at, Plain, Field(section), sensitive);
    RedactChild(at.fields[section], Named, Field(k), sensitive);
  }

  /** In particular in the context itself. */
  lemma SensitiveContextIsHidden(ctx: map<string, Tree>, section: string, k: string, sensitive: set<string>)
    requires (section == "outputs" || section == "variables") && HoldsIn(Obj(ctx), section, k) && k in sensitive
    ensures var copy := RedactSensitiveContext(Some(ctx), sensitive);
            HoldsIn(Obj(copy), section, k) && copy[section].fields[k] == Leaf(Text("<redacted:sensitive>"))
  {
    SensitiveIsHidden(Obj(ctx), [], section, k, sensitive);
  }

  /** What such a value is makes no difference to the copy. */
  lemma SensitiveValueIsFree(ctx: map<string, Tree>, section: string, k: string, x: Tree, sensitive: set<string>)
    requires (section == "outputs" || section == "variables") && HoldsIn(Obj(ctx), section, k) && k in sensitive
    ensures var other := ctx[section := Obj(ctx[section].fields[k := x])];
            RedactSensitiveContext(Some(ctx), sensitive) == RedactSensitiveContext(Some(other), sensitive)
  {
    var other := ctx[section := Obj(ctx[section].fields[k := x])];
    RedactFields(ctx, false, sensitive);
    RedactFields(other, false, sensitive);
    RedactFields(ctx[section].fields, true, sensitive);
    RedactFields(other[section].fields, true, sensitive);
    assert Redact(ctx[section], true, sensitive).fields == Redact(other[section], true, sensitive).fields;
    assert IsNamedKey(section);
    assert RedactValue(Obj(ctx), sensitive).fields == RedactValue(Obj(other), sensitive).fields;
  }

  /** Outside the two sections nothing is hidden: a value is shown with its keys, length or content, and in
      a section so is every name that is not sensitive. */
  lemma OthersAreShown(v: Tree, path: seq<Selector>, sensitive: set<string>)
    requires OutsideSections(path)
    ensures ShapeOf(At(RedactValue(v, sensitive), path)) == ShapeOf(At(v, path))
    ensures forall section, k :: k !in sensitive ==>
              ShapeOf(At(RedactValue(v, sensitive), path + [Field(section), Field(k)]))
              == ShapeOf(At(v, path + [Field(section), Field(k)]))
  {
    OutsideIsPlain(path, sensitive);
    RedactedCopyAt(v, Plain, path, sensitive);
    forall section, k | k !in sensitive
      ensures ShapeOf(At(RedactValue(v, sensitive), path + [Field(section), Field(k)]))
           == ShapeOf(At(v, path + [Field(section), Field(k)]))
    {
      TreatmentAfter(Plain, path, [Field(section), Field(k)], sensitive);
      assert [Field(section), Field(k)][1..] == [Field(k)] && [Field(k)][1..] == [];
      var inner := Enter(Plain, Field(section), sensitive);
      assert TreatmentOf(Plain, [Field(section), Field(k)], sensitive) == TreatmentOf(inner, [Field(k)], sensitive);
      assert TreatmentOf(inner, [Field(k)], sensitive) == TreatmentOf(Enter(inner, Field(k), sensitive), [], sensitive);
      RedactedCopyAt(v, Plain, path + [Field(section), Field(k)], sensitive);
    }
  }

  lemma {:induction false} TreatmentAfter(t: Treatment, a: seq<Selector>, b: seq<Selector>, sensitive: set<string>)
    ensures TreatmentOf(t, a + b, sensitive) == TreatmentOf(TreatmentOf(t, a, sensitive), b, sensitive)
    decreases |a|
  {
    if a == [] {
      assert a + b == b;
    } else {
      assert (a + b)[1..] == a[1..] + b;
      TreatmentAfter(Enter(t, a[0], sensitive), a[1..], b, sensitive);
    }
  }

  // ---------------------------------------------------------------- the sensitive names

  datatype Output = Output(name: string, sensitive: bool)
  /** A step's outputs and, for a forEach with an inline step, that step's. */
  datatype OutputStep = OutputStep(outputs: seq<Output>, forEachOutputs: Option<seq<Output>>)

  ghost predicate Marked(outputs: seq<Output>, name: string) {
    Output(name, true) in outputs
  }

  method Collect(names: set<string>, outputs: seq<Output>) returns (r: set<string>)
    ensures forall n :: n in r <==> n in names || Marked(outputs, n)
  {
    r := names;
    for i := 0 to |outputs|
      invariant forall n :: n in r <==> n in names || Marked(outputs[..i], n)
    {
      assert outputs[..i + 1] == outputs[..i] + [outputs[i]];
      if outputs[i].sensitive { r := r + {outputs[i].name}; }
    }
    assert outputs[..|outputs|] == outputs;
  }

  method SensitiveOutputNames(outputs: seq<Output>, steps: seq<OutputStep>) returns (names: set<string>)
    ensures forall n :: n in names <==>
              || Marked(outputs, n)
              || exists s ::
                && s in steps
                && (Marked(s.outputs, n) || (s.forEachOutputs.Some? && Marked(s.forEachOutputs.value, n)))
  {
    hide Marked;
    names := Collect({}, outputs);
    for i := 0 to |steps|
      invariant forall n :: n in names <==>
                  || Marked(outputs, n)
                  || exists j :: 0 <= j < i
                      && (Marked(steps[j].outputs, n)
                          || (steps[j].forEachOutputs.Some? && Marked(steps[j].forEachOutputs.value, n)))
    {
      names := Collect(names, steps[i].outputs);
      if steps[i].forEachOutputs.Some? { names := Collect(names, steps[i].forEachOutputs.value); }
    }
  }
}
