// The string operations of Go's standard library that the modelled code relies on,
// over sequences of characters.

module Text {
  import opened Wrappers

  // ----- white space -----

  /** The characters that Go's unicode.IsSpace accepts. */
  predicate IsSpace(c: char) {
    || c == ' ' || '\t' <= c <= '\r'
    || c == '\U{85}' || c == '\U{A0}' || c == '\U{1680}'
    || '\U{2000}' <= c <= '\U{200A}'
    || c == '\U{2028}' || c == '\U{2029}' || c == '\U{202F}' || c == '\U{205F}' || c == '\U{3000}'
  }

  function TrimLeft(s: string): string {
    if s != [] && IsSpace(s[0]) then TrimLeft(s[1..]) else s
  }

  function TrimRight(s: string): string {
    if s != [] && IsSpace(s[|s| - 1]) then TrimRight(s[..|s| - 1]) else s
  }

  function TrimSpace(s: string): string {
    TrimRight(TrimLeft(s))
  }

  predicate Trimmed(s: string) {
    s != [] ==> !IsSpace(s[0]) && !IsSpace(s[|s| - 1])
  }

  lemma {:induction false} TrimLeftIsSuffix(s: string)
    ensures |TrimLeft(s)| <= |s| && TrimLeft(s) == s[|s| - |TrimLeft(s)|..]
    ensures TrimLeft(s) != [] ==> !IsSpace(TrimLeft(s)[0])
  {
    if s != [] && IsSpace(s[0]) {
      TrimLeftIsSuffix(s[1..]);
    }
  }

  lemma {:induction false} TrimRightIsPrefix(s: string)
    ensures TrimRight(s) <= s
    ensures TrimRight(s) != [] ==> !IsSpace(TrimRight(s)[|TrimRight(s)| - 1])
  {
    if s != [] && IsSpace(s[|s| - 1]) {
      TrimRightIsPrefix(s[..|s| - 1]);
    }
  }

  /** Trimming leaves a trimmed piece of the text, and leaves a trimmed text alone. */
  lemma TrimSpaceTrims(s: string)
    ensures Trimmed(TrimSpace(s))
    ensures forall c :: c in TrimSpace(s) ==> c in s
    ensures Trimmed(s) ==> TrimSpace(s) == s
  {
    TrimsBothEnds(s, TrimLeft(s), TrimSpace(s));
    PrefixOfSuffix(s, TrimLeft(s), TrimSpace(s));
    if Trimmed(s) {
      TrimmedStays(s);
    }
  }

  lemma TrimsBothEnds(s: string, t: string, r: string)
    requires t == TrimLeft(s) && r == TrimRight(t)
    ensures Trimmed(r) && |t| <= |s| && t == s[|s| - |t|..] && r <= t
  {
    TrimLeftIsSuffix(s);
    TrimRightIsPrefix(t);
    assert r != [] ==> r[0] == t[0];
  }

  lemma TrimmedStays(s: string)
    requires Trimmed(s)
    ensures TrimSpace(s) == s
  {
  }

  lemma PrefixOfSuffix(s: string, t: string, r: string)
    requires |t| <= |s| && t == s[|s| - |t|..] && r <= t
    ensures forall c :: c in r ==> c in s
  {
    forall c | c in r ensures c in s {
      var i :| 0 <= i < |r| && r[i] == c;
      assert r[i] == t[i] == s[|s| - |t| + i];
    }
  }

  /** The words between runs of white space. */
  function Fields(s: string): seq<string>
    decreases |s|
  {
    var t := TrimLeft(s);
    if t == [] then []
    else
      var n := WordLength(t);
      TrimLeftIsSuffix(s);
      [t[..n]] + Fields(t[n..])
  }

  function WordLength(s: string): (n: nat)
    ensures n <= |s| && (s != [] && !IsSpace(s[0]) ==> n > 0)
  {
    if s != [] && !IsSpace(s[0]) then 1 + WordLength(s[1..]) else 0
  }

  lemma {:induction false} WordEnds(t: string, b: string)
    ensures WordLength(t + " " + b) == WordLength(t)
  {
    var s := t + " " + b;
    if t == [] {
      assert s[0] == ' ';
    } else if !IsSpace(t[0]) {
      assert s[1..] == t[1..] + " " + b;
      WordEnds(t[1..], b);
    }
  }

  lemma {:induction false} TrimLeftBefore(a: string, b: string)
    ensures TrimLeft(a + " " + b) == if TrimLeft(a) == [] then TrimLeft(b) else TrimLeft(a) + " " + b
  {
    var s := a + " " + b;
    if a == [] {
      assert s[1..] == b;
    } else if IsSpace(a[0]) {
      assert s[1..] == a[1..] + " " + b;
      TrimLeftBefore(a[1..], b);
    }
  }

  lemma FieldsStep(s: string, t: string, n: nat)
    requires t == TrimLeft(s) != [] && n == WordLength(t)
    ensures 0 < n <= |t| <= |s| && Fields(s) == [t[..n]] + Fields(t[n..])
  {
    TrimLeftIsSuffix(s);
  }

  /** The words of two texts with a space between them. */
  lemma {:induction false} FieldsConcat(a: string, b: string)
    ensures Fields(a + " " + b) == Fields(a) + Fields(b)
    decreases |a|
  {
    var t := TrimLeft(a);
    TrimLeftBefore(a, b);
    if t == [] {
      FieldsSkipSpace(a + " " + b, b);
    } else {
      var n, s := WordLength(t), t + " " + b;
      WordEnds(t, b);
      FieldsStep(a, t, n);
      FieldsStep(a + " " + b, s, n);
      assert s[..n] == t[..n] && s[n..] == t[n..] + " " + b;
      FieldsConcat(t[n..], b);
      Regroup([t[..n]], Fields(t[n..]), Fields(b));
    }
  }

  lemma FieldsSkipSpace(s: string, t: string)
    requires TrimLeft(s) == TrimLeft(t)
    ensures Fields(s) == Fields(t)
  {
  }

  /** A text without white space is one word. */
  lemma OneWord(w: string)
    requires w != [] && forall c :: c in w ==> !IsSpace(c)
    ensures Fields(w) == [w]
  {
    WholeWord(w);
    assert TrimLeft(w) == w && w[..|w|] == w && w[|w|..] == [];
    assert Fields([]) == [];
  }

  lemma FieldsAround(a: string, w: string, b: string)
    requires w != [] && forall c :: c in w ==> !IsSpace(c)
    ensures Fields(a + " " + (w + " " + b)) == Fields(a) + ([w] + Fields(b))
  {
    FieldsConcat(a, w + " " + b);
    FieldsConcat(w, b);
    OneWord(w);
  }

  lemma {:induction false} WholeWord(w: string)
    requires forall c :: c in w ==> !IsSpace(c)
    ensures WordLength(w) == |w|
  {
    if w != [] {
      WholeWord(w[1..]);
    }
  }

  // ----- splitting and joining -----

  function Split(s: string, sep: char): (parts: seq<string>)
    ensures |parts| >= 1
  {
    if s == [] then [[]]
    else
      var rest := Split(s[1..], sep);
      if s[0] == sep then [[]] + rest else [[s[0]] + rest[0]] + rest[1..]
  }

  function Join(parts: seq<string>, sep: char): string {
    if |parts| == 0 then []
    else if |parts| == 1 then parts[0]
    else parts[0] + [sep] + Join(parts[1..], sep)
  }

  /** No piece of a split text contains the separator. */
  lemma {:induction false} SplitHasNoSeparator(s: string, sep: char)
    ensures forall p :: p in Split(s, sep) ==> sep !in p
  {
    if s != [] {
      SplitHasNoSeparator(s[1..], sep);
      var rest := Split(s[1..], sep);
      assert forall p :: p in rest[1..] ==> p in rest;
      assert rest[0] in rest;
    }
  }

  /** Splitting splits on both sides of a separator. */
  lemma {:induction false} SplitAtSeparator(a: string, b: string, sep: char)
    ensures Split(a + [sep] + b, sep) == Split(a, sep) + Split(b, sep)
  {
    var s := a + [sep] + b;
    if a == [] {
      assert s[1..] == b;
    } else {
      assert s[1..] == a[1..] + [sep] + b;
      SplitAtSeparator(a[1..], b, sep);
    }
  }

  lemma {:induction false} SplitWithoutSeparator(s: string, sep: char)
    requires sep !in s
    ensures Split(s, sep) == [s]
  {
    if s != [] {
      SplitWithoutSeparator(s[1..], sep);
      assert [s[0]] + s[1..] == s;
    }
  }

  lemma {:induction false} JoinSnoc(parts: seq<string>, part: string, sep: char)
    requires parts != []
    ensures Join(parts + [part], sep) == Join(parts, sep) + [sep] + part
  {
    assert (parts + [part])[1..] == parts[1..] + [part];
    if |parts| > 1 {
      JoinSnoc(parts[1..], part, sep);
    }
  }

  /** The pieces of each part in turn. */
  function SplitEach(parts: seq<string>, sep: char): seq<string> {
    if parts == [] then [] else Split(parts[0], sep) + SplitEach(parts[1..], sep)
  }

  /** Splitting what was joined splits each part. */
  lemma {:induction false} SplitJoin(parts: seq<string>, sep: char)
    requires parts != []
    ensures Split(Join(parts, sep), sep) == SplitEach(parts, sep)
  {
    if |parts| > 1 {
      SplitJoin(parts[1..], sep);
      SplitAtSeparator(parts[0], Join(parts[1..], sep), sep);
    }
  }

  lemma {:induction false} SplitEachWithout(parts: seq<string>, sep: char)
    requires forall p :: p in parts ==> sep !in p
    ensures SplitEach(parts, sep) == parts
  {
    if parts != [] {
      SplitWithoutSeparator(parts[0], sep);
      SplitEachWithout(parts[1..], sep);
    }
  }

  lemma {:induction false} InSplitEach(parts: seq<string>, sep: char, x: string)
    ensures x in SplitEach(parts, sep) <==> exists p :: p in parts && x in Split(p, sep)
  {
    if parts != [] {
      InSplitEach(parts[1..], sep, x);
      if p :| p in parts && x in Split(p, sep) {
        assert p == parts[0] || p in parts[1..];
      }
      if p :| p in parts[1..] && x in Split(p, sep) {
        assert p in parts;
      }
      assert parts[0] in parts;
    }
  }

  function WithLast(parts: seq<string>, c: char): seq<string>
    requires parts != []
  {
    parts[..|parts| - 1] + [parts[|parts| - 1] + [c]]
  }

  /** One more character at the end is a new empty piece, or goes to the last one. */
  lemma {:induction false} SplitSnoc(s: string, c: char, sep: char)
    ensures Split(s + [c], sep) == if c == sep then Split(s, sep) + [[]] else WithLast(Split(s, sep), c)
  {
    if s == [] {
      SplitStep(c, s, sep);
      assert s + [c] == [c] + s && [c] + "" == "" + [c];
    } else {
      assert (s + [c])[1..] == s[1..] + [c];
      SplitSnoc(s[1..], c, sep);
      SplitStep(s[0], s[1..], sep);
      SplitStep(s[0], s[1..] + [c], sep);
      assert [s[0]] + s[1..] == s;
      Regroup([s[0]], s[1..], [c]);
      WithLastStep(Split(s[1..], sep), s[0], c);
    }
  }

  function WithFirst(c: char, parts: seq<string>): seq<string>
    requires parts != []
  {
    [[c] + parts[0]] + parts[1..]
  }

  lemma SplitStep(c: char, s: string, sep: char)
    ensures Split([c] + s, sep) == if c == sep then [[]] + Split(s, sep) else WithFirst(c, Split(s, sep))
  {
    assert ([c] + s)[1..] == s;
  }

  lemma WithLastStep(parts: seq<string>, first: char, c: char)
    requires parts != []
    ensures [[]] + WithLast(parts, c) == WithLast([[]] + parts, c)
    ensures WithFirst(first, WithLast(parts, c)) == WithLast(WithFirst(first, parts), c)
    ensures WithFirst(first, parts + [[]]) == WithFirst(first, parts) + [[]]
  {
    if |parts| == 1 {
      assert [first] + (parts[0] + [c]) == [first] + parts[0] + [c];
    }
  }

  // ----- searching and replacing -----

  /** Whether `pat` occurs in `s` at position `i`. */
  predicate OccursAt(s: string, pat: string, i: int) {
    0 <= i <= |s| - |pat| && s[i..i + |pat|] == pat
  }

  /** The last position below `bound` at which `pat` occurs, or -1. */
  function LastIndexBelow(s: string, pat: string, bound: nat): (r: int)
    ensures r == -1 || (r < bound && OccursAt(s, pat, r))
    ensures forall i :: r < i < bound ==> !OccursAt(s, pat, i)
  {
    if bound == 0 then -1
    else if OccursAt(s, pat, bound - 1) then bound - 1
    else LastIndexBelow(s, pat, bound - 1)
  }

  function LastIndex(s: string, pat: string): (r: int) {
    LastIndexBelow(s, pat, |s| + 1)
  }

  lemma LastIndexIs(s: string, pat: string, i: nat)
    requires OccursAt(s, pat, i)
    requires forall j :: i < j ==> !OccursAt(s, pat, j)
    ensures LastIndex(s, pat) == i
  {
  }

  /** The first position of a character, or -1. */
  function IndexOf(s: string, c: char): (r: int)
    ensures -1 <= r < |s|
    ensures r >= 0 ==> s[r] == c && c !in s[..r]
    ensures r == -1 ==> c !in s
  {
    if s == [] then -1
    else if s[0] == c then 0
    else
      var rest := IndexOf(s[1..], c);
      if rest == -1 then -1 else
        assert s[..rest + 1] == [s[0]] + s[1..][..rest];
        rest + 1
  }

  lemma {:induction false} IndexOfIs(s: string, c: char, i: nat)
    requires i < |s| && s[i] == c && c !in s[..i]
    ensures IndexOf(s, c) == i
  {
  }

  predicate HasPrefix(s: string, p: string) {
    p <= s
  }

  function TrimPrefix(s: string, p: string): string {
    if p <= s then s[|p|..] else s
  }

  predicate HasSuffix(s: string, p: string) {
    |p| <= |s| && s[|s| - |p|..] == p
  }

  function TrimSuffix(s: string, p: string): string {
    if HasSuffix(s, p) then s[..|s| - |p|] else s
  }

  /** Replaces the non-overlapping occurrences of a non-empty pattern, left to right. */
  function ReplaceAll(s: string, pat: string, replacement: string): string
    requires pat != []
  {
    if s == [] then []
    else if pat <= s then replacement + ReplaceAll(s[|pat|..], pat, replacement)
    else [s[0]] + ReplaceAll(s[1..], pat, replacement)
  }

  // ----- case -----

  /** Lower case as far as equality with ASCII text is concerned: besides A..Z, only the
      dotted capital I and the Kelvin sign have an ASCII lower case. */
  function LowerChar(c: char): char {
    if 'A' <= c <= 'Z' then c + ('a' - 'A')
    else if c == '\U{0130}' then 'i'
    else if c == '\U{212A}' then 'k'
    else c
  }

  function ToLower(s: string): string {
    seq(|s|, i requires 0 <= i < |s| => LowerChar(s[i]))
  }

  // ----- numbers -----

  const MIN_INT64: int := -0x8000_0000_0000_0000
  const MAX_INT64: int := 0x7fff_ffff_ffff_ffff

  /** Two's complement wrap-around of a 64-bit result. */
  function Wrap64(x: int): int {
    if MIN_INT64 <= x <= MAX_INT64 then x else (x - MIN_INT64) % 0x1_0000_0000_0000_0000 + MIN_INT64
  }

  predicate IsDigit(c: char) {
    '0' <= c <= '9'
  }

  function DigitValue(c: char): nat
    requires IsDigit(c)
  {
    c as int - '0' as int
  }

  predicate AllDigits(s: string) {
    forall i :: 0 <= i < |s| ==> IsDigit(s[i])
  }

  function DecimalValue(s: string): nat
    requires AllDigits(s)
  {
    if s == [] then 0 else 10 * DecimalValue(s[..|s| - 1]) + DigitValue(s[|s| - 1])
  }

  /** The length of the longest prefix of decimal digits. */
  function DigitRun(s: string): (n: nat)
    ensures n <= |s| && AllDigits(s[..n])
    ensures n < |s| ==> !IsDigit(s[n])
  {
    if s != [] && IsDigit(s[0]) then
      var n := DigitRun(s[1..]);
      assert s[..n + 1] == [s[0]] + s[1..][..n];
      1 + n
    else 0
  }

  function WithoutSign(s: string): string {
    if s != [] && (s[0] == '-' || s[0] == '+') then s[1..] else s
  }

  /** A base-10 integer with an optional sign in the 64-bit range, as strconv.Atoi reads it. */
  function Atoi(s: string): Option<int> {
    var negative := s != [] && s[0] == '-';
    var digits := WithoutSign(s);
    if digits == [] || !AllDigits(digits) then None
    else
      var magnitude: int := DecimalValue(digits);
      var value := if negative then -magnitude else magnitude;
      if MIN_INT64 <= value <= MAX_INT64 then Some(value) else None
  }
}
