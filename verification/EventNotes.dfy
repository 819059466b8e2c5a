/** internal/workflow/controller/scheduler_events.go and secret_mount_check.go: Event notes kept within
    the API server's byte limit. */
module EventNotes {
  import opened Wrappers
  import opened Text

  type Byte = b: int | 0 <= b < 0x100

  const MAX_EVENT_NOTE_BYTES := 1024
  const MAX_UNCHECKED_EVENT_NOTE := 1023

  // ---------------------------------------------------------------- UTF-8, section 4 of RFC 3629

  predicate Tail(b: Byte) { 0x80 <= b <= 0xBF }

  /** utf8.RuneStart */
  predicate RuneStart(b: Byte) { !Tail(b) }

  /** The length of the well-formed character `s` starts with, and 0 if there is none. */
  function CharLen(s: seq<Byte>): (n: nat)
    ensures n <= |s| && n <= 4
    ensures n > 0 ==> RuneStart(s[0]) && forall i :: 0 < i < n ==> Tail(s[i])
  {
    if |s| >= 1 && s[0] <= 0x7F then 1
    else if |s| >= 2 && 0xC2 <= s[0] <= 0xDF && Tail(s[1]) then 2
    else if |s| >= 3 && Tail(s[1]) && Tail(s[2])
            && ((s[0] == 0xE0 && 0xA0 <= s[1]) || 0xE1 <= s[0] <= 0xEC
                || (s[0] == 0xED && s[1] <= 0x9F) || 0xEE <= s[0] <= 0xEF) then 3
    else if |s| >= 4 && Tail(s[1]) && Tail(s[2]) && Tail(s[3])
            && ((s[0] == 0xF0 && 0x90 <= s[1]) || 0xF1 <= s[0] <= 0xF3 || (s[0] == 0xF4 && s[1] <= 0x8F)) then 4
    else 0
  }

  predicate ValidUTF8(s: seq<Byte>) {
    s == [] || (CharLen(s) > 0 && ValidUTF8(s[CharLen(s)..]))
  }

  lemma CharLenOfPrefix(s: seq<Byte>, cut: nat)
    requires CharLen(s) > 0 && CharLen(s) <= cut <= |s|
    ensures CharLen(s[..cut]) == CharLen(s)
  {
  }

  /** Cutting a valid text at the start of a character leaves a valid text. */
  lemma {:induction false} CutAtRuneStart(s: seq<Byte>, cut: nat)
    requires ValidUTF8(s) && cut <= |s| && (cut < |s| ==> RuneStart(s[cut]))
    ensures ValidUTF8(s[..cut])
    decreases |s|
  {
    if cut > 0 {
      var n := CharLen(s);
      assert n <= cut;
      CharLenOfPrefix(s, cut);
      CutAtRuneStart(s[n..], cut - n);
      assert s[..cut][n..] == s[n..][..cut - n];
    }
  }

  /** In a valid text some character starts at any position or at most three bytes before it. */
  lemma {:induction false} RuneStartNearby(s: seq<Byte>, i: nat) returns (c: nat)
    requires ValidUTF8(s) && i < |s|
    ensures c <= i <= c + 3 && RuneStart(s[c])
    decreases |s|
  {
    var n := CharLen(s);
    if i < n {
      c := 0;
    } else {
      c := RuneStartNearby(s[n..], i - n);
      c := c + n;
    }
  }

  /** A scalar value as bytes, as the table of section 3 of RFC 3629 lays out its bits. */
  function Encode(c: int): (r: seq<Byte>)
    requires IsScalar(c)
    ensures |r| == if c < 0x80 then 1 else if c < 0x800 then 2 else if c < 0x1_0000 then 3 else 4
  {
    if c < 0x80 then [c]
    else if c < 0x800 then [0xC0 + c / 0x40, 0x80 + c % 0x40]
    else if c < 0x1_0000 then [0xE0 + c / 0x1000, 0x80 + c / 0x40 % 0x40, 0x80 + c % 0x40]
    else [0xF0 + c / 0x4_0000, 0x80 + c / 0x1000 % 0x40, 0x80 + c / 0x40 % 0x40, 0x80 + c % 0x40]
  }

  predicate IsScalar(c: int) { 0 <= c < 0xD800 || 0xE000 <= c < 0x11_0000 }

  predicate AreScalars(text: seq<int>) { forall i :: 0 <= i < |text| ==> IsScalar(text[i]) }

  function EncodeAll(text: seq<int>): seq<Byte>
    requires AreScalars(text)
  {
    if text == [] then [] else Encode(text[0]) + EncodeAll(text[1..])
  }

  lemma EncodedIsChar(c: int, rest: seq<Byte>)
    requires IsScalar(c)
    ensures CharLen(Encode(c) + rest) == |Encode(c)|
  {
    CharIsWhole(c);
    hide Encode;
    CharLenOfLonger(Encode(c), rest);
  }

  lemma CharIsWhole(c: int)
    requires IsScalar(c)
    ensures CharLen(Encode(c)) == |Encode(c)|
  {
    if c < 0x800 {
    } else if c < 0x1_0000 {
      TripleIsWhole(c);
    } else {
      QuadIsWhole(c);
    }
  }

  lemma TripleIsWhole(c: int)
    requires IsScalar(c) && 0x800 <= c < 0x1_0000
    ensures CharLen(Encode(c)) == 3
  {
    var s := Encode(c);
    assert Tail(s[1]) && Tail(s[2]) && 0xE0 <= s[0] <= 0xEF;
  }

  lemma QuadIsWhole(c: int)
    requires IsScalar(c) && 0x1_0000 <= c
    ensures CharLen(Encode(c)) == 4
  {
    var s := Encode(c);
    assert Tail(s[1]) && Tail(s[2]) && Tail(s[3]) && 0xF0 <= s[0] <= 0xF4;
  }

  lemma CharLenOfLonger(s: seq<Byte>, rest: seq<Byte>)
    requires CharLen(s) == |s| > 0
    ensures CharLen(s + rest) == |s|
  {
    var t := s + rest;
    assert forall i :: 0 <= i < |s| ==> t[i] == s[i];
  }

  /** Six more bits. */
  function Shifted(high: int, b: Byte): int { high * 0x40 + (b as int - 0x80) }

  lemma ShiftedBack(high: int, b: Byte)
    requires high >= 0 && Tail(b)
    ensures Shifted(high, b) / 0x40 == high && Shifted(high, b) % 0x40 == b as int - 0x80
  {
  }

  lemma PairIsEncoded(s: seq<Byte>) returns (c: int)
    requires |s| == 2 && CharLen(s) == 2
    ensures IsScalar(c) && Encode(c) == s
  {
    ShiftedBack(s[0] - 0xC0, s[1]);
    c := Shifted(s[0] - 0xC0, s[1]);
  }

  lemma TripleIsEncoded(s: seq<Byte>) returns (c: int)
    requires |s| == 3 && CharLen(s) == 3
    ensures IsScalar(c) && Encode(c) == s
  {
    var high := Shifted(s[0] - 0xE0, s[1]);
    ShiftedBack(s[0] - 0xE0, s[1]);
    ShiftedBack(high, s[2]);
    c := Shifted(high, s[2]);
    assert 0x800 <= c < 0x1_0000 && c / 0x1000 == high / 0x40;
  }

  lemma QuadIsEncoded(s: seq<Byte>) returns (c: int)
    requires |s| == 4 && CharLen(s) == 4
    ensures IsScalar(c) && Encode(c) == s
  {
    var high := Shifted(s[0] - 0xF0, s[1]);
    var mid := Shifted(high, s[2]);
    ShiftedBack(s[0] - 0xF0, s[1]);
    ShiftedBack(high, s[2]);
    ShiftedBack(mid, s[3]);
    c := Shifted(mid, s[3]);
    assert 0x1_0000 <= c < 0x11_0000 && c / 0x1000 == mid / 0x40 && c / 0x4_0000 == high / 0x40;
  }

  /** The scalar value that the character at the start of `s` encodes. */
  lemma CharIsEncoded(s: seq<Byte>) returns (c: int)
    requires CharLen(s) > 0
    ensures IsScalar(c) && Encode(c) == s[..CharLen(s)]
  {
    var n := CharLen(s);
    CharLenOfPrefix(s, n);
    if n == 1 {
      c := s[0];
    } else {
      hide CharLen, Encode, IsScalar;
      if n == 2 {
        c := PairIsEncoded(s[..2]);
      } else if n == 3 {
        c := TripleIsEncoded(s[..3]);
      } else {
        c := QuadIsEncoded(s[..4]);
      }
    }
  }

  lemma FirstCharacter(s: seq<Byte>) returns (c: int, rest: seq<Byte>)
    requires ValidUTF8(s) && s != []
    ensures IsScalar(c) && s == Encode(c) + rest && ValidUTF8(rest)
  {
    hide Encode, IsScalar, CharLen;
    c := CharIsEncoded(s);
    rest := s[CharLen(s)..];
  }

  /** Valid bytes are the encodings of texts, */
  lemma {:induction false} ValidIsEncoded(s: seq<Byte>) returns (text: seq<int>)
    requires ValidUTF8(s)
    ensures AreScalars(text) && EncodeAll(text) == s
    decreases |s|
  {
    text := [];
    if s != [] {
      hide Encode, IsScalar, ValidUTF8, EncodeAll, AreScalars;
      var c, tail := FirstCharacter(s);
      var rest := ValidIsEncoded(tail);
      text := [c] + rest;
      EncodeCons(c, rest);
    }
  }

  lemma EncodeCons(c: int, rest: seq<int>)
    requires IsScalar(c) && AreScalars(rest)
    ensures AreScalars([c] + rest) && EncodeAll([c] + rest) == Encode(c) + EncodeAll(rest)
  {
    hide Encode, IsScalar;
    assert ([c] + rest)[1..] == rest;
  }

  /** and every text is encoded by valid bytes. */
  lemma {:induction false} EncodedIsValid(text: seq<int>)
    requires AreScalars(text)
    ensures ValidUTF8(EncodeAll(text))
  {
    if text != [] {
      hide IsScalar;
      var rest := EncodeAll(text[1..]);
      EncodedIsChar(text[0], rest);
      assert (Encode(text[0]) + rest)[|Encode(text[0])|..] == rest;
      EncodedIsValid(text[1..]);
    }
  }

  method TruncateEventNote(s: seq<Byte>) returns (r: seq<Byte>)
    ensures r <= s && |r| <= 1024
    ensures |s| <= 1024 ==> r == s
    ensures ValidUTF8(s) ==> ValidUTF8(r)
    ensures ValidUTF8(s) && |s| > 1024 ==> |r| >= 1021
    ensures |s| > 1024 ==>  // the latest cut that splits no character
      (|r| > 0 ==> !(0x80 <= s[|r|] <= 0xBF)) && forall j :: |r| < j <= 1024 ==> 0x80 <= s[j] <= 0xBF
  {
    if |s| <= MAX_EVENT_NOTE_BYTES { return s; }
    var cut := MAX_EVENT_NOTE_BYTES;
    while cut > 0 && !RuneStart(s[cut])
      invariant 0 <= cut <= MAX_EVENT_NOTE_BYTES
      invariant forall j :: cut < j <= MAX_EVENT_NOTE_BYTES ==> Tail(s[j])
    {
      cut := cut - 1;
    }
    if ValidUTF8(s) {
      ghost var c := RuneStartNearby(s, MAX_EVENT_NOTE_BYTES);
      assert c <= cut;
      assert RuneStart(s[cut]);
      CutAtRuneStart(s, cut);
    }
    return s[..cut];
  }

  // ---------------------------------------------------------------- the unchecked-mounts note

  /** The bytes of a text written in ASCII. */
  function Ascii(s: string): (r: seq<Byte>)
    ensures |r| == |s|
  {
    seq(|s|, i requires 0 <= i < |s| => if s[i] as int <= 0x7F then s[i] as int else 0x3F)
  }

  const UNCHECKED_PREFIX :=
    "Secret mounts not verified before creating the runner Job (the controller cannot read them): "

  function NotePrefix(): seq<Byte> { Ascii(UNCHECKED_PREFIX) }
  const SEPARATOR := Ascii("; ")
  const ELLIPSIS: seq<Byte> := [0xE2, 0x80, 0xA6]

  /** " … and %d more" */
  function More(n: nat): seq<Byte> {
    Ascii(" ") + ELLIPSIS + Ascii(" and ") + Ascii(Itoa(n)) + Ascii(" more")
  }

  function ReservedForMore(): nat { |More(999999)| }

  /** strings.TrimRight(s, " ") */
  function TrimRight(s: seq<Byte>): (r: seq<Byte>)
    ensures r <= s && (r != [] ==> r[|r| - 1] != ' ' as int)
    ensures forall i :: |r| <= i < |s| ==> s[i] == ' ' as int
  {
    if s != [] && s[|s| - 1] == ' ' as int then TrimRight(s[..|s| - 1]) else s
  }

  function Listing(origins: seq<seq<Byte>>): seq<Byte> {
    if origins == [] then []
    else if |origins| == 1 then origins[0]
    else Listing(origins[..|origins| - 1]) + SEPARATOR + origins[|origins| - 1]
  }

  function NoteBody(notChecked: seq<seq<Byte>>, listed: nat): seq<Byte>
    requires listed <= |notChecked|
  {
    NotePrefix() + Listing(notChecked[..listed])
  }

  /** Lists origins while they fit beside the count of the others, and counts exactly the rest. */
  function NoteFor(notChecked: seq<seq<Byte>>, listed: nat): seq<Byte>
    requires listed <= |notChecked|
  {
    var note := NoteBody(notChecked, listed);
    if listed < |notChecked| then TrimRight(note) + More(|notChecked| - listed) else note
  }

  /** Within the limit while the count has at most six digits, and over it by no more than the extra ones. */
  ghost predicate NoteFits(note: seq<Byte>, more: nat) {
    |note| <= if more <= 999999 then 1023 else 1023 + |Itoa(more)| - 6
  }

  lemma NoteIsShort(notChecked: seq<seq<Byte>>, listed: nat)
    requires listed <= |notChecked|
    requires Fits(NoteBody(notChecked, listed), 0)
    ensures NoteFits(NoteFor(notChecked, listed), |notChecked| - listed)
  {
    hide NoteBody, ReservedForMore, More, Itoa, TrimRight;
    var more := |notChecked| - listed;
    MoreLength(more);
    TrimShortens(NoteBody(notChecked, listed));
    ItoaGrows(more);
  }

  /** A note that leaves origins out keeps the limit exactly when its trimmed list and its count do. */
  lemma NoteKeepsLimitIff(notChecked: seq<seq<Byte>>, listed: nat)
    requires listed < |notChecked|
    ensures |NoteFor(notChecked, listed)| <= 1023
       <==> |TrimRight(NoteBody(notChecked, listed))| + 14 + |Itoa(|notChecked| - listed)| <= 1023
  {
    hide NoteBody, More, Itoa, TrimRight;
    MoreLength(|notChecked| - listed);
  }

  /** Twenty bytes are kept free for the count while origins are listed. */
  lemma FitsIs(note: seq<Byte>)
    ensures Fits(note, 0) <==> |note| + 20 <= 1023
  {
    MoreLength(999999);
  }

  lemma AsciiIs(s: string)
    ensures forall i :: 0 <= i < |s| && s[i] <= '~' ==> Ascii(s)[i] == s[i] as int
  {
  }

  /** What a note says: the listed origins with "; " between any two, then how many more there are. */
  lemma NoteSays(notChecked: seq<seq<Byte>>, listed: nat)
    requires listed <= |notChecked|
    ensures NoteBody(notChecked, listed) ==
      Ascii("Secret mounts not verified before creating the runner Job (the controller cannot read them): ")
      + Listing(notChecked[..listed])
    ensures NoteFor(notChecked, listed) ==
      if listed == |notChecked| then NoteBody(notChecked, listed)
      else TrimRight(NoteBody(notChecked, listed))
           + Ascii(" ") + [0xE2, 0x80, 0xA6] + Ascii(" and ") + Ascii(Itoa(|notChecked| - listed)) + Ascii(" more")
  {
    hide Ascii, Listing, TrimRight, Itoa;
  }

  lemma {:induction false} ListingIs(a: seq<seq<Byte>>, b: seq<seq<Byte>>, origin: seq<Byte>)
    ensures Listing([]) == [] && Listing([origin]) == origin
    ensures a != [] && b != [] ==> Listing(a + b) == Listing(a) + [';' as int, ' ' as int] + Listing(b)
    decreases |b|
  {
    if a != [] && b != [] {
      var init := b[..|b| - 1];
      assert (a + b)[..|a + b| - 1] == a + init;
      if init != [] {
        ListingIs(a, init, origin);
      } else {
        assert a + init == a && Listing(b) == b[0];
      }
      assert SEPARATOR == [';' as int, ' ' as int];
    }
  }

  /** There is one number of origins that fits, so it is the one the loop stops at. */
  lemma ListedIsUnique(notChecked: seq<seq<Byte>>, a: nat, b: nat)
    requires ListsWhatFits(notChecked, a) && ListsWhatFits(notChecked, b)
    ensures a == b
  {
    hide NoteBody, ReservedForMore;
    if a < b { BodyGrows(notChecked, a + 1, b); }
    if b < a { BodyGrows(notChecked, b + 1, a); }
  }

  lemma {:induction false} BodyGrows(notChecked: seq<seq<Byte>>, a: nat, b: nat)
    requires a <= b <= |notChecked|
    ensures |NoteBody(notChecked, a)| <= |NoteBody(notChecked, b)|
    decreases b
  {
    hide NoteBody;
    if a < b {
      BodyGrows(notChecked, a, b - 1);
      ListingSnoc(notChecked, b - 1, NoteBody(notChecked, b - 1), if b > 1 then SEPARATOR else []);
    }
  }

  /** One origin as long as fits, and a million more: the count has a seventh digit, and the note is one
      byte too long. */
  function LongOrigin(): seq<Byte> { seq(1003 - |NotePrefix()|, _ => 'x' as int) }

  lemma MillionOverflows(notChecked: seq<seq<Byte>>, listed: nat)
    requires |notChecked| == 1_000_001 && notChecked[0] == LongOrigin()
    requires ListsWhatFits(notChecked, listed)
    ensures listed == 1 && |NoteFor(notChecked, listed)| == 1024
  {
    hide NotePrefix, NoteBody, Itoa, More, ReservedForMore, Listing, Ascii;
    assert |NotePrefix()| < 100 by { PrefixIsShort(); }
    FirstListed(notChecked);
    ListingSnoc(notChecked, 1, NoteBody(notChecked, 1), SEPARATOR);
    ListedIsUnique(notChecked, listed, 1);
    var body := NoteBody(notChecked, 1);
    assert TrimRight(body) == body;
    MoreLength(1_000_000);
    MillionHasSevenDigits();
  }

  lemma PrefixIsShort()
    ensures |NotePrefix()| < 100
  {
  }

  lemma FirstListed(notChecked: seq<seq<Byte>>)
    requires notChecked != []
    ensures NoteBody(notChecked, 1) == NotePrefix() + notChecked[0]
    ensures |SEPARATOR| == 2 && ReservedForMore() == 20
  {
    assert Listing(notChecked[..1]) == notChecked[0];
    MoreLength(0);
  }

  lemma MillionHasSevenDigits()
    ensures |Itoa(1_000_000)| == 7
  {
    assert Pow10(1) == 10 && Pow10(2) == 100 && Pow10(3) == 1000 && Pow10(4) == 10000 && Pow10(5) == 100000;
    assert Pow10(6) == 1_000_000 && Pow10(7) == 10_000_000;
    ItoaLength(1_000_000, 7);
  }

  lemma ItoaGrows(n: nat)
    ensures n > 999999 ==> |Itoa(n)| > 6
  {
    if n > 999999 {
      ItoaLonger(n, 6);
      assert Pow10(1) == 10 && Pow10(2) == 100 && Pow10(3) == 1000 && Pow10(4) == 10000 && Pow10(5) == 100000;
    }
  }

  lemma {:induction false} ItoaLonger(n: nat, d: nat)
    requires n >= Pow10(d)
    ensures |Itoa(n)| > d
  {
    if d > 0 {
      assert n >= 10 && n / 10 >= Pow10(d - 1);
      ItoaLonger(n / 10, d - 1);
    }
  }

  /** Does the note still fit when `size` more bytes and a count are added to it? */
  predicate Fits(note: seq<Byte>, size: nat) { |note| + size + ReservedForMore() <= MAX_UNCHECKED_EVENT_NOTE }

  /** The note that lists `listed` origins fits, and one more would not. */
  ghost predicate ListsWhatFits(notChecked: seq<seq<Byte>>, listed: nat) {
    && listed <= |notChecked| && Fits(NoteBody(notChecked, listed), 0)
    && (listed < |notChecked| ==> !Fits(NoteBody(notChecked, listed + 1), 0))
  }

  /** The Event note, or none when every mount was checked. */
  method RecordUncheckedSecretMounts(notChecked: seq<seq<Byte>>) returns (event: Option<seq<Byte>>, listed: nat)
    ensures event.None? <==> notChecked == []
    ensures event.Some? ==> ListsWhatFits(notChecked, listed) && event.value == NoteFor(notChecked, listed)
    ensures event.Some? ==> NoteFits(event.value, |notChecked| - listed)
  {
    if notChecked == [] { return None, 0; }
    hide NoteBody, Fits, More, TrimRight, NoteFits;
    var note;
    note, listed := ListOrigins(notChecked);
    NoteIsShort(notChecked, listed);
    var more := |notChecked| - listed;
    if more > 0 {
      note := TrimRight(note) + More(more);
    }
    event := Some(note);
  }

  /** Its loop: appends origins while they fit. */
  method ListOrigins(notChecked: seq<seq<Byte>>) returns (note: seq<Byte>, listed: nat)
    ensures ListsWhatFits(notChecked, listed) && note == NoteBody(notChecked, listed)
  {
    hide NotePrefix, NoteBody, Fits;
    note, listed := NotePrefix(), 0;
    NoListing(notChecked);
    while listed < |notChecked|
      invariant listed <= |notChecked| && note == NoteBody(notChecked, listed) && Fits(note, 0)
    {
      var o := notChecked[listed];
      var sep := if listed > 0 then SEPARATOR else [];
      ListingSnoc(notChecked, listed, note, sep);
      FitsSnoc(note, sep, o);
      if !Fits(note, |sep| + |o|) {
        break;
      }
      note := note + sep + o;
      listed := listed + 1;
    }
  }

  lemma FitsSnoc(note: seq<Byte>, sep: seq<Byte>, o: seq<Byte>)
    ensures Fits(note + sep + o, 0) <==> Fits(note, |sep| + |o|)
  {
    hide ReservedForMore;
  }

  lemma NoListing(notChecked: seq<seq<Byte>>)
    ensures NoteBody(notChecked, 0) == NotePrefix() && Fits(NotePrefix(), 0)
  {
    MoreLength(999999);
    assert |NotePrefix()| < 100;
  }

  lemma ListingSnoc(notChecked: seq<seq<Byte>>, i: nat, note: seq<Byte>, sep: seq<Byte>)
    requires i < |notChecked| && note == NoteBody(notChecked, i) && sep == if i > 0 then SEPARATOR else []
    ensures note + sep + notChecked[i] == NoteBody(notChecked, i + 1)
  {
    hide NotePrefix, Ascii;
    assert notChecked[..i + 1][..i] == notChecked[..i];
    if i == 0 { assert Listing(notChecked[..1]) == notChecked[0]; }
  }

  lemma TrimShortens(s: seq<Byte>)
    ensures |TrimRight(s)| <= |s|
  {
  }

  /** Counts up to 999999 fit in the room kept for them; longer ones exceed it by their extra digits. */
  lemma MoreLength(n: nat)
    ensures |More(n)| == 14 + |Itoa(n)| && ReservedForMore() == 20
    ensures n <= 999999 ==> |Itoa(n)| <= 6
  {
    assert Pow10(6) == 1000000 && Pow10(5) == 100000 by {
      assert Pow10(1) == 10 && Pow10(2) == 100 && Pow10(3) == 1000 && Pow10(4) == 10000;
    }
    ItoaLength(999999, 6);
    if n <= 999999 { ItoaLength(n, 6); }
  }

  function Pow10(d: nat): (p: nat)
    ensures p >= 1
  {
    if d == 0 then 1 else 10 * Pow10(d - 1)
  }

  /** A number below ten to the `d` is written with at most `d` digits, and with all of them when it is
      no smaller than a tenth of that. */
  lemma {:induction false} ItoaLength(n: nat, d: nat)
    requires d > 0 && n < Pow10(d)
    ensures |Itoa(n)| <= d && (n >= Pow10(d - 1) ==> |Itoa(n)| == d)
  {
    if n >= 10 {
      assert d > 1;
      assert n / 10 < Pow10(d - 1);
      ItoaLength(n / 10, d - 1);
    }
  }
}
