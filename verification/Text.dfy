/**
 The string operations the parsers and printers share, with the meaning the Rust standard
 library gives them.  A `char` is a Unicode scalar value, as in Rust.
 */
module Text {

  type byte = b: int | 0 <= b < 256

  datatype Option<+T> = None | Some(value: T)

  const MAX_U16: nat := 0xFFFF
  const MAX_U32: nat := 0xFFFF_FFFF

  /** The pieces one after the other. */
  function Concat<T>(pieces: seq<seq<T>>): seq<T> {
    if pieces == [] then [] else pieces[0] + Concat(pieces[1..])
  }

  lemma {:induction false} ConcatAppend<T>(a: seq<seq<T>>, b: seq<seq<T>>)
    ensures Concat(a + b) == Concat(a) + Concat(b)
  {
    if a == [] {
      assert a + b == b;
    } else {
      ConcatAppend(a[1..], b);
      assert (a + b)[1..] == a[1..] + b;
      Associative(a[0], Concat(a[1..]), Concat(b));
    }
  }

  // ---------------------------------------------------------------- decimal numbers

  predicate IsDigit(c: char) {
    '0' <= c <= '9'
  }

  predicate AllDigits(s: string) {
    forall i :: 0 <= i < |s| ==> IsDigit(s[i])
  }

  function Digit(n: nat): char
    requires n < 10
  {
    '0' + n as char
  }

  function DigitValue(c: char): nat
    requires IsDigit(c)
  {
    c as int - '0' as int
  }

  /** The shortest decimal numeral of `n`. */
  function Dec(n: nat): (s: string)
    ensures |s| > 0 && AllDigits(s)
  {
    if n < 10 then [Digit(n)] else Dec(n / 10) + [Digit(n % 10)]
  }

  function Value(s: string): nat
    requires AllDigits(s)
  {
    if s == [] then 0 else 10 * Value(s[..|s| - 1]) + DigitValue(s[|s| - 1])
  }

  /** `str::parse` for an unsigned integer type whose largest value is `max`. */
  function ParseUnsigned(s: string, max: nat): (r: Option<nat>)
    ensures r.Some? ==> r.value <= max
  {
    var digits := if |s| > 1 && s[0] == '+' then s[1..] else s;
    if digits == [] || !AllDigits(digits) || Value(digits) > max then None else Some(Value(digits))
  }

  lemma {:induction false} ValueOfDec(n: nat)
    ensures Value(Dec(n)) == n
  {
    if n >= 10 {
      ValueOfDec(n / 10);
      assert Dec(n)[..|Dec(n)| - 1] == Dec(n / 10);
    }
  }

  /** A numeral parses to its number if that fits, and not at all if it does not. */
  lemma {:induction false} ParseOfDec(n: nat, max: nat)
    ensures ParseUnsigned(Dec(n), max) == if n <= max then Some(n) else None
  {
    ValueOfDec(n);
    assert IsDigit(Dec(n)[0]);
  }

  /** A plus sign may come first; a sign alone, no digits, or anything else is no number. */
  lemma {:induction false} ParseForms(n: nat, max: nat, c: char, rest: string)
    requires !IsDigit(c) && c != '+'
    ensures ParseUnsigned("+" + Dec(n), max) == ParseUnsigned(Dec(n), max)
    ensures ParseUnsigned("", max) == ParseUnsigned("+", max) == ParseUnsigned([c] + rest, max) == None
  {
    ParseOfDec(n, max);
    assert ("+" + Dec(n))[1..] == Dec(n) && IsDigit(Dec(n)[0]);
  }

  function Pow10(i: nat): (p: nat)
    ensures p >= 1
  {
    if i == 0 then 1 else 10 * Pow10(i - 1)
  }

  lemma {:induction false} DivideTwice(n: nat, p: nat)
    requires p >= 1
    ensures n / 10 / p == n / (10 * p)
  {
    var q, r := n / 10, n % 10;
    var a, b := q / p, q % p;
    assert n == 10 * (a * p + b) + r == (10 * p) * a + (10 * b + r);
    QuotientIs(n, 10 * p, a, 10 * b + r);
  }

  lemma {:induction false} TimesSteps(d: int, k: int)
    requires d >= 0
    ensures k >= 1 ==> d * k >= d
    ensures k <= -1 ==> d * k <= -d
  {}

  lemma {:induction false} QuotientIs(n: nat, d: nat, a: nat, r: nat)
    requires d >= 1 && n == d * a + r && r < d
    ensures n / d == a
  {
    var q, m := n / d, n % d;
    assert n == d * q + m;
    assert d * (q - a) == d * q - d * a == r - m;
    TimesSteps(d, q - a);
  }

  /** A numeral's digit in place `i` from the right is that of the number; it has no leading zero. */
  lemma {:induction false} DecDigits(n: nat, i: nat)
    requires i < |Dec(n)|
    ensures Dec(n)[|Dec(n)| - 1 - i] as int == '0' as int + n / Pow10(i) % 10
    ensures n > 0 ==> Dec(n)[0] != '0'
    ensures n == 0 ==> Dec(n) == "0"
  {
    if n >= 10 {
      DecDigits(n / 10, if i == 0 then 0 else i - 1);
      if i > 0 { DivideTwice(n, Pow10(i - 1)); }
    }
  }

  // ---------------------------------------------------------------- searching and cutting

  /** The first position holding one of `chars`, or the length when there is none. */
  function FindAny(s: string, chars: string): (k: nat)
    ensures k <= |s|
    ensures forall i :: 0 <= i < k ==> s[i] !in chars
    ensures k < |s| ==> s[k] in chars
  {
    if s == [] || s[0] in chars then 0 else 1 + FindAny(s[1..], chars)
  }

  lemma {:induction false} FindAnyIs(s: string, chars: string, k: nat)
    requires k <= |s|
    requires forall i :: 0 <= i < k ==> s[i] !in chars
    requires k < |s| ==> s[k] in chars
    ensures FindAny(s, chars) == k
  {
  }

  lemma {:induction false} Associative<T>(a: seq<T>, b: seq<T>, c: seq<T>)
    ensures (a + b) + c == a + (b + c)
  {}

  predicate OccursAt(s: string, sub: string, k: nat) {
    k <= |s| && sub <= s[k..]
  }

  /** The first occurrence of `sub`, or the length when there is none. */
  function Find(s: string, sub: string): (k: nat)
    requires sub != []
    ensures k <= |s| && (k < |s| ==> OccursAt(s, sub, k))
    ensures forall i :: 0 <= i < k ==> !OccursAt(s, sub, i)
  {
    if s == [] || sub <= s then 0
    else
      assert forall i :: 1 <= i <= |s| ==> s[1..][i - 1..] == s[i..];
      assert forall i :: 1 <= i <= |s| ==> OccursAt(s, sub, i) == OccursAt(s[1..], sub, i - 1);
      1 + Find(s[1..], sub)
  }

  /** Written after `s`, the separator does not begin any earlier. */
  predicate IsSeparable(s: string, sep: string) {
    forall i :: 0 <= i < |s| ==> !OccursAt(s + sep, sep, i)
  }

  lemma {:induction false} OccursBefore(s: string, sep: string, rest: string, i: nat)
    requires i <= |s|
    ensures OccursAt(s + sep + rest, sep, i) <==> OccursAt(s + sep, sep, i)
  {
    assert (s + sep + rest)[i..] == (s + sep)[i..] + rest;
    assert |sep| <= |(s + sep)[i..]|;
  }

  /** The separator is found where it was written exactly when the text before it is separable. */
  lemma {:induction false} FindSeparatorIff(s: string, sep: string, rest: string)
    requires sep != []
    ensures Find(s + sep + rest, sep) <= |s|
    ensures Find(s + sep + rest, sep) == |s| <==> IsSeparable(s, sep)
  {
    var all := s + sep + rest;
    assert all[|s|..] == sep + rest;
    assert OccursAt(all, sep, |s|);
    forall i: nat | i <= |s| ensures OccursAt(all, sep, i) <==> OccursAt(s + sep, sep, i) {
      OccursBefore(s, sep, rest, i);
    }
  }

  /** For a separator of one repeated character: none inside, and not that character at the end. */
  lemma {:induction false} SeparableIff(s: string, sep: string, c: char)
    requires sep != [] && forall i :: 0 <= i < |sep| ==> sep[i] == c
    ensures IsSeparable(s, sep) <==>
            (forall i :: 0 <= i < |s| ==> !OccursAt(s, sep, i)) && (s != [] ==> s[|s| - 1] != c)
  {
    var all := s + sep;
    forall i: nat | i < |s| ensures OccursAt(s, sep, i) ==> OccursAt(all, sep, i) {
      assert all[i..] == s[i..] + sep;
    }
    if s != [] && s[|s| - 1] == c {
      assert all[|s| - 1..] == [c] + sep;
      assert forall j :: 0 <= j < |sep| ==> ([c] + sep)[j] == c;
      assert OccursAt(all, sep, |s| - 1);
    }
    forall i: nat | i < |s| && OccursAt(all, sep, i) ensures OccursAt(s, sep, i) || s[|s| - 1] == c {
      assert all[i..][..|sep|] == sep;
      if i + |sep| <= |s| {
        assert s[i..][..|sep|] == all[i..][..|sep|];
      } else {
        assert all[i..][|s| - 1 - i] == s[|s| - 1];
      }
    }
  }

  /** `str::strip_prefix` */
  function StripPrefix(s: string, prefix: string): Option<string> {
    if prefix <= s then Some(s[|prefix|..]) else None
  }

  /** `str::split_once` with a one-character separator */
  function SplitOnce(s: string, sep: char): Option<(string, string)> {
    var k := FindAny(s, [sep]);
    if k == |s| then None else Some((s[..k], s[k + 1..]))
  }

  lemma {:induction false} SplitOnceOf(a: string, sep: char, b: string)
    requires sep !in a
    ensures SplitOnce(a + [sep] + b, sep) == Some((a, b))
  {
    var s := a + [sep] + b;
    FindAnyIs(s, [sep], |a|);
    assert s[..|a|] == a && s[|a| + 1..] == b;
  }

  /** `str::splitn(n, sep)`: at most `n` parts, the last one holding the remainder. */
  function SplitN(s: string, n: nat, sep: char): (parts: seq<string>)
    requires n >= 1
    ensures 1 <= |parts| <= n
    decreases n
  {
    var k := FindAny(s, [sep]);
    if n == 1 || k == |s| then [s] else [s[..k]] + SplitN(s[k + 1..], n - 1, sep)
  }

  lemma {:induction false} SplitNOf(a: string, sep: char, b: string, n: nat)
    requires n >= 2 && sep !in a
    ensures SplitN(a + [sep] + b, n, sep) == [a] + SplitN(b, n - 1, sep)
  {
    SplitOnceOf(a, sep, b);
  }

  /** `str::split(sep)`: every part, at least one. */
  function Split(s: string, sep: char): (parts: seq<string>)
    ensures |parts| >= 1
    decreases |s|
  {
    var k := FindAny(s, [sep]);
    if k == |s| then [s] else [s[..k]] + Split(s[k + 1..], sep)
  }

  lemma {:induction false} SplitOf(a: string, sep: char, b: string)
    requires sep !in a
    ensures Split(a + [sep] + b, sep) == [a] + Split(b, sep)
  {
    SplitOnceOf(a, sep, b);
  }

  lemma {:induction false} SplitWhole(a: string, sep: char)
    requires sep !in a
    ensures Split(a, sep) == [a]
  {
    FindAnyIs(a, [sep], |a|);
  }

  /** The words with one separator between neighbours. */
  function Join(words: seq<string>, sep: char): string
    requires words != []
  {
    if |words| == 1 then words[0] else words[0] + [sep] + Join(words[1..], sep)
  }

  lemma {:induction false} SplitOfJoin(words: seq<string>, sep: char)
    requires words != [] && forall i :: 0 <= i < |words| ==> sep !in words[i]
    ensures Split(Join(words, sep), sep) == words
  {
    if |words| == 1 {
      SplitWhole(words[0], sep);
    } else {
      SplitOf(words[0], sep, Join(words[1..], sep));
      SplitOfJoin(words[1..], sep);
    }
  }

  lemma {:induction false} JoinHoldsNo(words: seq<string>, sep: char, c: char)
    requires words != [] && c != sep && forall i :: 0 <= i < |words| ==> c !in words[i]
    ensures c !in Join(words, sep)
  {
    if |words| > 1 {
      JoinHoldsNo(words[1..], sep, c);
    }
  }

  // ---------------------------------------------------------------- trimming

  /** `char::is_whitespace`: the Unicode White_Space property */
  predicate IsWhitespace(c: char) {
    var n := c as int;
    || 9 <= n <= 13 || n == 0x20 || n == 0x85 || n == 0xA0 || n == 0x1680
    || 0x2000 <= n <= 0x200A || n == 0x2028 || n == 0x2029 || n == 0x202F || n == 0x205F || n == 0x3000
  }

  function TrimStart(s: string): string {
    if s != [] && IsWhitespace(s[0]) then TrimStart(s[1..]) else s
  }

  function TrimEnd(s: string): string {
    if s != [] && IsWhitespace(s[|s| - 1]) then TrimEnd(s[..|s| - 1]) else s
  }

  function Trim(s: string): string {
    TrimEnd(TrimStart(s))
  }

  predicate IsBlank(s: string) {
    forall i :: 0 <= i < |s| ==> s[i] == ' ' || s[i] == '\t' || s[i] == '\r' || s[i] == '\n'
  }

  /** Blanks around a text are trimmed, and only those if it starts and ends otherwise. */
  lemma {:induction false} TrimPadded(before: string, s: string, after: string)
    requires IsBlank(before) && IsBlank(after) && s != "" && !IsWhitespace(s[0]) && !IsWhitespace(s[|s| - 1])
    ensures Trim(before + s + after) == s
    decreases |before| + |after|
  {
    if before != "" {
      assert (before + s + after)[1..] == before[1..] + s + after;
      TrimPadded(before[1..], s, after);
    } else {
      assert before + s + after == s + after;
      TrimEndPadded(s, after);
      assert TrimStart(s + after) == s + after;
    }
  }

  lemma {:induction false} TrimEndPadded(s: string, after: string)
    requires IsBlank(after) && s != "" && !IsWhitespace(s[|s| - 1])
    ensures TrimEnd(s + after) == s
  {
    if after != "" {
      assert (s + after)[..|s + after| - 1] == s + after[..|after| - 1];
      TrimEndPadded(s, after[..|after| - 1]);
    } else {
      assert s + after == s;
    }
  }

  /** `trim_end_matches('\r')` */
  function TrimCr(s: string): string {
    if s != [] && s[|s| - 1] == '\r' then TrimCr(s[..|s| - 1]) else s
  }

  predicate AllCr(s: string) {
    forall i :: 0 <= i < |s| ==> s[i] == '\r'
  }

  lemma {:induction false} TrimCrOf(s: string, crs: string)
    requires AllCr(crs) && (s != [] ==> s[|s| - 1] != '\r')
    ensures TrimCr(s + crs) == s
  {
    if crs == [] {
      assert s + crs == s;
    } else {
      assert (s + crs)[..|s + crs| - 1] == s + crs[..|crs| - 1];
      TrimCrOf(s, crs[..|crs| - 1]);
    }
  }
}
