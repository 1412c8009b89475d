/**
 UTF-8: how Rust writes a character as bytes, and how any reader takes the bytes apart again.
 */
module Encoding {
  import opened Text

  /** `char::encode_utf8` (section 3 of RFC 3629) */
  function Utf8(c: char): (bytes: seq<byte>)
    ensures 1 <= |bytes| <= 4
  {
    var n := c as int;
    if n < 0x80 then [n]
    else if n < 0x800 then [0xC0 + n / 0x40, 0x80 + n % 0x40]
    else if n < 0x10000 then [0xE0 + n / 0x1000, 0x80 + n / 0x40 % 0x40, 0x80 + n % 0x40]
    else [0xF0 + n / 0x40000, 0x80 + n / 0x1000 % 0x40, 0x80 + n / 0x40 % 0x40, 0x80 + n % 0x40]
  }

  /** `str::len`: the number of bytes the text occupies. */
  function Utf8Len(s: string): nat {
    if s == [] then 0 else |Utf8(s[0])| + Utf8Len(s[1..])
  }

  // ---------------------------------------------------------------- reading

  /** A continuation byte: 10xxxxxx */
  predicate IsContinuation(b: byte) {
    0x80 <= b < 0xC0
  }

  predicate IsScalar(n: nat) {
    n < 0xD800 || 0xE000 <= n < 0x11_0000
  }

  /** How many bytes a leading byte announces: 0xxxxxxx, 110xxxxx, 1110xxxx or 11110xxx. */
  function Announced(lead: byte): Option<nat> {
    if lead < 0x80 then Some(1)
    else if 0xC0 <= lead < 0xE0 then Some(2)
    else if 0xE0 <= lead < 0xF0 then Some(3)
    else if 0xF0 <= lead < 0xF8 then Some(4)
    else None
  }

  function Bits(b: byte, marker: nat): nat
    requires marker <= b
  {
    b as int - marker
  }

  /** The value the bits of `count` bytes spell, most significant first. */
  function Spelled(b: seq<byte>, count: nat): nat
    requires 1 <= count <= 4 && count <= |b| && Announced(b[0]) == Some(count)
    requires forall i :: 1 <= i < count ==> IsContinuation(b[i])
  {
    assert forall i :: 1 <= i < count ==> IsContinuation(b[i]) && b[i] >= 0x80;
    match count
    case 1 => b[0]
    case 2 => Bits(b[0], 0xC0) * 0x40 + Bits(b[1], 0x80)
    case 3 => Bits(b[0], 0xE0) * 0x1000 + Bits(b[1], 0x80) * 0x40 + Bits(b[2], 0x80)
    case _ => Bits(b[0], 0xF0) * 0x40000 + Bits(b[1], 0x80) * 0x1000 + Bits(b[2], 0x80) * 0x40 + Bits(b[3], 0x80)
  }

  /** The least value that needs `count` bytes. */
  function Least(count: nat): nat {
    match count
    case 1 => 0
    case 2 => 0x80
    case 3 => 0x800
    case _ => 0x10000
  }

  /** The first character and the length of its form; only the shortest form is one. */
  function ReadChar(b: seq<byte>): (r: Option<(char, nat)>)
    ensures r.Some? ==> 1 <= r.value.1 <= |b|
  {
    if b == [] || Announced(b[0]).None? then None
    else
      var count := Announced(b[0]).value;
      if |b| < count || exists i :: 1 <= i < count && !IsContinuation(b[i]) then None
      else
        var n := Spelled(b, count);
        if n < Least(count) || !IsScalar(n) then None else Some((n as char, count))
  }

  function ReadText(b: seq<byte>): Option<string>
    decreases |b|
  {
    if b == [] then Some("")
    else
      var first := ReadChar(b);
      if first.None? then None
      else
        var rest := ReadText(b[first.value.1..]);
        if rest.None? then None else Some([first.value.0] + rest.value)
  }

  lemma {:induction false} FewBits(n: nat)
    requires n < 0x20_0000
    ensures n == n / 0x40 * 0x40 + n % 0x40
    ensures n / 0x40 == n / 0x1000 * 0x40 + n / 0x40 % 0x40
    ensures n / 0x1000 == n / 0x40000 * 0x40 + n / 0x1000 % 0x40
  {}

  /** Every character is read back from its bytes, whatever follows. */
  lemma {:induction false} Utf8RoundTrip(c: char, rest: seq<byte>)
    ensures ReadChar(Utf8(c) + rest) == Some((c, |Utf8(c)|))
  {
    var n, b, count := c as int, Utf8(c) + rest, |Utf8(c)|;
    FewBits(n);
    assert forall i :: 0 <= i < count ==> b[i] == Utf8(c)[i];
    assert Announced(b[0]) == Some(count);
    assert forall i :: 1 <= i < count ==> IsContinuation(b[i]);
    assert Spelled(b, count) == n;
  }
}
