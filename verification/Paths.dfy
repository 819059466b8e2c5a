/** File paths as the kernel resolves them: by segments, whatever their spelling. */
module Paths {
  import opened Text

  /** The segments of a path cut at every '/', empty ones included. */
  function Split(s: string): (parts: seq<string>)
    ensures |parts| > 0
  {
    if s == "" then [""]
    else
      var rest := Split(s[1..]);
      if s[0] == '/' then [""] + rest else [[s[0]] + rest[0]] + rest[1..]
  }

  /** One more segment: "" and "." stay, ".." goes up, and the root is its own parent. */
  function Descend(at: seq<string>, segment: string): seq<string> {
    if segment == "" || segment == "." then at
    else if segment == ".." then (if at == [] then [] else at[..|at| - 1])
    else at + [segment]
  }

  function Walk(at: seq<string>, segments: seq<string>): seq<string>
    decreases |segments|
  {
    if segments == [] then at else Walk(Descend(at, segments[0]), segments[1..])
  }

  /** Where a path leads from the root. A relative one counts from the root too. */
  function Resolved(path: string): seq<string> { Walk([], Split(path)) }

  /** `path` is `dir` or lies below it. */
  predicate Under(path: string, dir: string) { Resolved(dir) <= Resolved(path) }

  lemma {:induction false} SplitJoined(a: string, b: string)
    ensures Split(a + "/" + b) == Split(a) + Split(b)
  {
    if a == "" {
      assert ("" + "/" + b)[1..] == b;
    } else {
      assert (a + "/" + b)[1..] == a[1..] + "/" + b;
      SplitJoined(a[1..], b);
    }
  }

  lemma {:induction false} SplitPlain(s: string)
    requires '/' !in s
    ensures Split(s) == [s]
  {
    if s != "" {
      assert s[0] in s;
      SplitPlain(s[1..]);
      assert [s[0]] + s[1..] == s;
    }
  }

  lemma {:induction false} WalkOn(at: seq<string>, a: seq<string>, b: seq<string>)
    ensures Walk(at, a + b) == Walk(Walk(at, a), b)
    decreases |a|
  {
    if a == [] {
      assert a + b == b;
    } else {
      assert (a + b)[1..] == a[1..] + b;
      WalkOn(Descend(at, a[0]), a[1..], b);
    }
  }

  lemma ResolvedJoined(a: string, b: string)
    ensures Resolved(a + "/" + b) == Walk(Resolved(a), Split(b))
  {
    SplitJoined(a, b);
    WalkOn([], Split(a), Split(b));
  }

  /** A plain name: one segment that is kept. */
  predicate PlainName(s: string) { '/' !in s && s != "" && s != "." && s != ".." }

  lemma NumberIsPlain(n: nat)
    ensures PlainName(Itoa(n))
  {
    assert IsDigit(Itoa(n)[0]) && forall i :: 0 <= i < |Itoa(n)| ==> IsDigit(Itoa(n)[i]);
  }

  lemma ResolvedChild(dir: string, name: string)
    requires PlainName(name)
    ensures Resolved(dir + "/" + name) == Resolved(dir) + [name]
  {
    ResolvedJoined(dir, name);
    SplitPlain(name);
    assert Walk(Resolved(dir), [name]) == Walk(Resolved(dir) + [name], [name][1..]);
  }

  /** A segment ".." leads back to the directory, and from the root to itself. */
  lemma ParentOfChild(dir: string, name: string)
    requires PlainName(name)
    ensures Resolved(dir + "/" + name + "/" + "..") == Resolved(dir)
    ensures Resolved("..") == []
  {
    ResolvedChild(dir, name);
    ResolvedJoined(dir + "/" + name, "..");
    SplitPlain("..");
    assert Walk(Resolved(dir) + [name], [".."]) == Walk(Descend(Resolved(dir) + [name], ".."), [".."][1..]);
    assert Walk([], [".."]) == Walk(Descend([], ".."), [".."][1..]);
  }

  /** Some of the other spellings of a path. */
  lemma OtherSpellings(dir: string, name: string)
    ensures Resolved(dir + "/" + ("/" + name)) == Resolved(dir + "/" + name)
    ensures Resolved(dir + "/" + ("./" + name)) == Resolved(dir + "/" + name)
    ensures Resolved("/" + dir) == Resolved(dir)
  {
    ResolvedJoined(dir, name);
    ResolvedJoined(dir, "/" + name);
    ResolvedJoined(dir, "./" + name);
    assert "/" + name == "" + "/" + name && "./" + name == "." + "/" + name && "/" + dir == "" + "/" + dir;
    SplitJoined("", name);
    SplitJoined(".", name);
    SplitPlain("");
    SplitPlain(".");
    WalkOn(Resolved(dir), [""], Split(name));
    WalkOn(Resolved(dir), ["."], Split(name));
    assert Walk(Resolved(dir), [""]) == Resolved(dir) && Walk(Resolved(dir), ["."]) == Resolved(dir);
    ResolvedJoined("", dir);
    assert Resolved("") == [];
  }
}
