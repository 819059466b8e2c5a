/** Facts about the strings the controller assembles: decimal numbers, and texts cut at a separator. */
module Text {

  predicate IsDigit(c: char) { '0' <= c <= '9' }

  /** A character of a DNS label. */
  predicate IsLabelChar(c: char) { 'a' <= c <= 'z' || IsDigit(c) || c == '-' }

  /** `%d` of a non-negative number. */
  function Itoa(n: nat): (s: string)
    ensures |s| > 0 && (|s| == 1 <==> n < 10)
    ensures forall i :: 0 <= i < |s| ==> IsDigit(s[i])
  {
    var last := ['0' + (n % 10) as char];
    if n < 10 then last else Itoa(n / 10) + last
  }

  /** The number that digits stand for. */
  function Number(s: string): nat
    requires forall i :: 0 <= i < |s| ==> '0' <= s[i] <= '9'
  {
    if s == "" then 0 else 10 * Number(s[..|s| - 1]) + (s[|s| - 1] - '0') as nat
  }

  lemma {:induction false} ItoaReadsBack(n: nat)
    ensures Number(Itoa(n)) == n
  {
    var s := Itoa(n);
    assert (s[|s| - 1] - '0') as nat == n % 10;
    if n >= 10 {
      assert s[..|s| - 1] == Itoa(n / 10);
      ItoaReadsBack(n / 10);
    } else {
      assert s[..|s| - 1] == "";
    }
  }

  lemma {:induction false} ItoaInjective(m: nat, n: nat)
    requires Itoa(m) == Itoa(n)
    ensures m == n
  {
    var s, t := Itoa(m), Itoa(n);
    assert s[|s| - 1] == '0' + (m % 10) as char && t[|t| - 1] == '0' + (n % 10) as char;
    assert m % 10 == n % 10;
    if m >= 10 {
      assert Itoa(m / 10) == s[..|s| - 1] && Itoa(n / 10) == t[..|t| - 1];
      ItoaInjective(m / 10, n / 10);
    }
  }

  /** A text is cut at its first separator in one way only. */
  lemma {:induction false} CutUnique(a: string, b: string, c: string, d: string, sep: char)
    requires sep !in a && sep !in c
    requires a + [sep] + b == c + [sep] + d
    ensures a == c && b == d
  {
    var s := a + [sep] + b;
    assert s[|a|] == sep && s[|c|] == sep;
    assert forall i :: 0 <= i < |a| ==> s[i] == a[i];
    assert forall i :: 0 <= i < |c| ==> s[i] == c[i];
    assert |a| == |c|;
    assert a == s[..|a|] == c;
    assert b == s[|a| + 1..] == d;
  }

  function Join(parts: seq<string>, sep: string): string {
    if |parts| == 0 then ""
    else if |parts| == 1 then parts[0]
    else parts[0] + sep + Join(parts[1..], sep)
  }

  /** The parts stand in order, with a separator between any two of them. */
  lemma {:induction false} JoinIs(a: seq<string>, b: seq<string>, p: string, sep: string)
    ensures Join([], sep) == "" && Join([p], sep) == p
    ensures a != [] && b != [] ==> Join(a + b, sep) == Join(a, sep) + sep + Join(b, sep)
  {
    if a != [] && b != [] {
      if |a| == 1 {
        assert (a + b)[1..] == b;
      } else {
        assert (a + b)[1..] == a[1..] + b;
        JoinIs(a[1..], b, p, sep);
      }
    }
  }

  predicate HasPrefix(s: string, prefix: string) {
    prefix <= s
  }
}
