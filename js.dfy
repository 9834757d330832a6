/** Values and string operations of the JavaScript runtime that the
    dashboard's handlers and components rely on. */
module Js {

  datatype Option<+T> = None | Some(value: T)

  /** One property of a JSON request body, query string or stored record:
      `undefined` when the client left it out, otherwise the string sent. */
  datatype Field = Absent | Given(text: string)

  /** JavaScript truthiness of a field: present and not the empty string. */
  predicate Truthy(f: Field) {
    f.Given? && f.text != ""
  }

  /** `f !== undefined` */
  predicate Supplied(f: Field) {
    f.Given?
  }

  /** Truthiness of a nullable string (`localStorage.getItem`, `profile?.x`). */
  predicate Present(s: Option<string>) {
    s.Some? && s.value != ""
  }

  /** `f || fallback` for a string-valued field. */
  function OrElse(f: Field, fallback: string): string {
    if Truthy(f) then f.text else fallback
  }

  /** The text a template literal `${f}` inserts for a field. */
  function Template(f: Field): string {
    match f
    case Absent => "undefined"
    case Given(s) => s
  }

  /** The characters matched by `\s` in an ECMAScript regular expression:
      WhiteSpace and LineTerminator code points. */
  predicate IsSpace(c: char) {
    || c == ' ' || c == '\t' || c == '\n' || c == '\r'
    || c == '\U{000B}' || c == '\U{000C}' || c == '\U{00A0}' || c == '\U{1680}'
    || ('\U{2000}' <= c <= '\U{200A}')
    || c == '\U{2028}' || c == '\U{2029}' || c == '\U{202F}' || c == '\U{205F}'
    || c == '\U{3000}' || c == '\U{FEFF}'
  }

  /** Lower-casing of one character, restricted to ASCII letters. */
  function LowerChar(c: char): char {
    if 'A' <= c <= 'Z' then (c as int + 32) as char else c
  }

  /** `s.toLowerCase()` over ASCII. */
  function ToLower(s: string): (r: string)
    ensures |r| == |s|
    ensures forall i :: 0 <= i < |s| ==> r[i] == LowerChar(s[i])
  {
    seq(|s|, i requires 0 <= i < |s| => LowerChar(s[i]))
  }

  /** Upper-casing of one character, restricted to ASCII letters. */
  function UpperChar(c: char): char {
    if 'a' <= c <= 'z' then (c as int - 32) as char else c
  }

  /** `s.toUpperCase()` over ASCII. */
  function ToUpper(s: string): (r: string)
    ensures |r| == |s|
    ensures forall i :: 0 <= i < |s| ==> r[i] == UpperChar(s[i])
  {
    seq(|s|, i requires 0 <= i < |s| => UpperChar(s[i]))
  }

  /** Lower-casing twice is lower-casing once, so a term the search box
      lower-cases again is unchanged. */
  lemma ToLowerIdempotent(s: string)
    ensures ToLower(ToLower(s)) == ToLower(s)
  {
    forall i | 0 <= i < |s| ensures ToLower(ToLower(s))[i] == ToLower(s)[i] {
      assert ToLower(s)[i] == LowerChar(s[i]);
    }
  }

  /** Upper-casing loses nothing lower-casing keeps: both spellings of a
      letter lower-case alike. */
  lemma LowerOfUpper(s: string)
    ensures ToLower(ToUpper(s)) == ToLower(s)
  {
    forall i | 0 <= i < |s| ensures ToLower(ToUpper(s))[i] == ToLower(s)[i] {
      assert ToUpper(s)[i] == UpperChar(s[i]);
    }
  }

  /** `hay.includes(needle)`. */
  predicate Includes(hay: string, needle: string) {
    exists i :: 0 <= i <= |hay| && needle <= hay[i..]
  }

  lemma IncludesEmpty(hay: string)
    ensures Includes(hay, "")
  {
    assert "" <= hay[0..];
  }

  /** Case-insensitive substring test used by the search boxes:
      `a.toLowerCase().includes(term.toLowerCase())`. */
  predicate MatchesTerm(a: string, term: string) {
    Includes(ToLower(a), ToLower(term))
  }

  /** The search ignores the case of the text and of the term: lower-
      or upper-casing either side first gives the same answer. */
  lemma MatchesTermIgnoresCase(a: string, term: string)
    ensures MatchesTerm(a, term) == MatchesTerm(ToLower(a), term) == MatchesTerm(a, ToLower(term))
    ensures MatchesTerm(a, term) == MatchesTerm(ToUpper(a), term) == MatchesTerm(a, ToUpper(term))
  {
    ToLowerIdempotent(a);
    ToLowerIdempotent(term);
    LowerOfUpper(a);
    LowerOfUpper(term);
  }

  lemma EmptyTermMatches(a: string)
    ensures MatchesTerm(a, "")
  {
    IncludesEmpty(ToLower(a));
  }

  /** `xs.filter(keep)`: the elements that pass, in their order. */
  function Filter<T>(xs: seq<T>, keep: T -> bool): (r: seq<T>)
    ensures |r| <= |xs|
  {
    if xs == [] then [] else (if keep(xs[0]) then [xs[0]] else []) + Filter(xs[1..], keep)
  }

  /** The filter keeps exactly the elements that pass. */
  lemma {:induction false} FilterKeepsExactly<T>(xs: seq<T>, keep: T -> bool)
    ensures forall x :: x in Filter(xs, keep) <==> x in xs && keep(x)
    decreases |xs|
  {
    if xs != [] {
      FilterKeepsExactly(xs[1..], keep);
      assert xs == [xs[0]] + xs[1..];
    }
  }

  /** Filtering keeps the order: the filter of two lists one after the
      other is the filter of the first, then that of the second. */
  lemma {:induction false} FilterAppend<T>(a: seq<T>, b: seq<T>, keep: T -> bool)
    ensures Filter(a + b, keep) == Filter(a, keep) + Filter(b, keep)
    decreases |a|
  {
    if a == [] {
      assert a + b == b;
    } else {
      var h := if keep(a[0]) then [a[0]] else [];
      var ab := a + b;
      assert ab[1..] == a[1..] + b;
      assert Filter(ab, keep) == h + Filter(a[1..] + b, keep);
      FilterAppend(a[1..], b, keep);
      SeqAssociates(h, Filter(a[1..], keep), Filter(b, keep));
    }
  }

  lemma SeqAssociates<T>(a: seq<T>, b: seq<T>, c: seq<T>)
    ensures a + (b + c) == (a + b) + c
  {
  }

  /** The positions whose element passes. */
  function PassingPositions<T>(xs: seq<T>, keep: T -> bool): set<nat> {
    set i: nat | i < |xs| && keep(xs[i])
  }

  /** One more element adds its position when it passes. */
  lemma PassingPositionsSnoc<T>(xs: seq<T>, x: T, keep: T -> bool)
    ensures PassingPositions(xs + [x], keep) == PassingPositions(xs, keep) + (if keep(x) then {|xs|} else {})
    ensures |xs| !in PassingPositions(xs, keep)
  {
    var e := xs + [x];
    forall i: nat | i < |xs| ensures e[i] == xs[i] {
    }
    assert e[|xs|] == x;
  }

  /** The filter keeps one element per passing position: with duplicates
      kept and nothing added, its length is the number of elements that
      pass. */
  lemma {:induction false} FilterCount<T>(xs: seq<T>, keep: T -> bool)
    ensures |Filter(xs, keep)| == |PassingPositions(xs, keep)|
    decreases |xs|
  {
    if xs != [] {
      var init, x := xs[..|xs| - 1], xs[|xs| - 1];
      assert xs == init + [x];
      FilterAppend(init, [x], keep);
      assert [x][1..] == [];
      FilterCount(init, keep);
      PassingPositionsSnoc(init, x, keep);
    }
  }

  /** Tests that agree on every element filter alike. */
  lemma {:induction false} FilterSameTest<T>(xs: seq<T>, p: T -> bool, q: T -> bool)
    requires forall i :: 0 <= i < |xs| ==> p(xs[i]) == q(xs[i])
    ensures Filter(xs, p) == Filter(xs, q)
    decreases |xs|
  {
    if xs != [] {
      FilterSameTest(xs[1..], p, q);
    }
  }

  /** When every element passes, the filter keeps the list whole. */
  lemma {:induction false} FilterAll<T>(xs: seq<T>, keep: T -> bool)
    requires forall i :: 0 <= i < |xs| ==> keep(xs[i])
    ensures Filter(xs, keep) == xs
    decreases |xs|
  {
    if xs != [] {
      FilterAll(xs[1..], keep);
      assert xs == [xs[0]] + xs[1..];
    }
  }

  /** When no element passes, the filter keeps nothing. */
  lemma {:induction false} FilterNone<T>(xs: seq<T>, keep: T -> bool)
    requires forall i :: 0 <= i < |xs| ==> !keep(xs[i])
    ensures Filter(xs, keep) == []
    decreases |xs|
  {
    if xs != [] {
      FilterNone(xs[1..], keep);
    }
  }

  /** The first element adds one to the filter's length when it passes. */
  lemma FilterStep<T>(xs: seq<T>, keep: T -> bool)
    requires xs != []
    ensures |Filter(xs, keep)| == (if keep(xs[0]) then 1 else 0) + |Filter(xs[1..], keep)|
  {
  }

  /** The UTF-16 code units one character takes: two for a character
      outside the Basic Multilingual Plane (a surrogate pair), one
      otherwise. */
  function CodeUnits(c: char): nat {
    if c as int > 0xFFFF then 2 else 1
  }

  /** `s.length`: JavaScript counts UTF-16 code units, not characters. */
  function Utf16Length(s: string): (n: nat)
    ensures |s| <= n <= 2 * |s|
  {
    if s == [] then 0 else Utf16Length(s[..|s| - 1]) + CodeUnits(s[|s| - 1])
  }

  /** Lengths add up over concatenation. */
  lemma {:induction false} Utf16LengthAppend(a: string, b: string)
    ensures Utf16Length(a + b) == Utf16Length(a) + Utf16Length(b)
    decreases |b|
  {
    var ab := a + b;
    if b == [] {
      assert ab == a;
    } else {
      assert ab[..|ab| - 1] == a + b[..|b| - 1];
      assert ab[|ab| - 1] == b[|b| - 1];
      Utf16LengthAppend(a, b[..|b| - 1]);
    }
  }

  /** Within the Basic Multilingual Plane the length is the number of
      characters. */
  lemma {:induction false} Utf16LengthOfBmp(s: string)
    requires forall i :: 0 <= i < |s| ==> s[i] as int <= 0xFFFF
    ensures Utf16Length(s) == |s|
    decreases |s|
  {
    if s != [] {
      Utf16LengthOfBmp(s[..|s| - 1]);
    }
  }

  /** Four emoji are four characters but eight code units, enough for an
      eight-character minimum. */
  lemma FourEmojiAreEight()
    ensures var s := "\U{1F600}\U{1F600}\U{1F600}\U{1F600}";
      |s| == 4 && Utf16Length(s) == 8
  {
    var e := '\U{1F600}';
    assert CodeUnits(e) == 2;
    assert Utf16Length([e]) == 2 by { assert [e][..0] == []; }
    assert Utf16Length([e, e]) == 4 by { assert [e, e][..1] == [e]; }
    assert Utf16Length([e, e, e]) == 6 by { assert [e, e, e][..2] == [e, e]; }
    assert Utf16Length([e, e, e, e]) == 8 by { assert [e, e, e, e][..3] == [e, e, e]; }
  }

  function Digit(d: nat): char
    requires d < 10
  {
    "0123456789"[d]
  }

  function DigitValue(c: char): nat {
    if '0' <= c <= '9' then c as int - '0' as int else 0
  }

  /** `n.toString()` for a non-negative integer. */
  function DecimalString(n: nat): (s: string)
    ensures |s| > 0
  {
    if n < 10 then [Digit(n)] else DecimalString(n / 10) + [Digit(n % 10)]
  }

  /** The value of a string of decimal digits (`parseInt` on digits). */
  function DecimalValue(s: string): nat {
    if s == [] then 0 else DecimalValue(s[..|s| - 1]) * 10 + DigitValue(s[|s| - 1])
  }

  /** Reading back the decimal form of a number gives the number. */
  lemma {:induction false} DecimalRoundTrip(n: nat)
    ensures DecimalValue(DecimalString(n)) == n
  {
    var s := DecimalString(n);
    if n < 10 {
      assert s[..|s| - 1] == [];
    } else {
      var p := DecimalString(n / 10);
      assert s == p + [Digit(n % 10)];
      assert s[..|s| - 1] == p;
      DecimalRoundTrip(n / 10);
    }
  }

  /** Distinct numbers have distinct decimal forms, so comparing the
      string ids the front end uses is comparing the numeric ids. */
  lemma DecimalStringInjective(a: nat, b: nat)
    requires DecimalString(a) == DecimalString(b)
    ensures a == b
  {
    DecimalRoundTrip(a);
    DecimalRoundTrip(b);
  }
}
