/**
 tmux escapes the bytes of `%output` lines as a backslash and three octal digits.  The server and
 the agent each carry their own decoder.  Both are modelled as written, with a look-ahead cursor
 over the characters, and compared through what one turn of their loops consumes and produces.
 */
module Octal {
  import opened Text
  import opened Encoding

  const BACKSLASH: byte := 92

  predicate IsOctal(c: char) {
    '0' <= c <= '7'
  }

  function OctalDigit(n: nat): (c: char)
    requires n < 8
    ensures IsOctal(c)
  {
    '0' + n as char
  }

  predicate AllOctal(s: string) {
    forall i :: 0 <= i < |s| ==> IsOctal(s[i])
  }

  function OctalDigitValue(c: char): nat
    requires IsOctal(c)
  {
    c as int - '0' as int
  }

  /** `u8::from_str_radix(s, 8)` before its range check */
  function OctalValue(s: string): nat
    requires AllOctal(s)
  {
    if s == [] then 0 else 8 * OctalValue(s[..|s| - 1]) + OctalDigitValue(s[|s| - 1])
  }

  lemma {:induction false} OctalOf3(s: string)
    requires |s| == 3 && AllOctal(s)
    ensures OctalValue(s) == 64 * OctalDigitValue(s[0]) + 8 * OctalDigitValue(s[1]) + OctalDigitValue(s[2])
  {
    var s2 := s[..2];
    var s1 := s2[..1];
    assert OctalValue(s1) == OctalDigitValue(s[0]) by { assert s1[..0] == []; }
    assert OctalValue(s2) == 8 * OctalValue(s1) + OctalDigitValue(s[1]);
  }

  lemma {:induction false} OctalShort(s: string)
    requires |s| <= 2 && AllOctal(s)
    ensures OctalValue(s) < 64
  {
    if |s| == 2 {
      assert OctalValue(s[..1]) < 8 by { assert s[..1][..0] == []; }
    }
  }

  // ---------------------------------------------------------------- the two decoders

  /** What one turn of a decoder's loop takes from the front of the text and adds to the output. */
  datatype Turn = Turn(taken: nat, out: seq<byte>)

  /** The server tests only the first digit before consuming; the next two characters are taken
      whatever they are, and a failed escape leaves a literal backslash. */
  function ServerTurn(s: string): (t: Turn)
    requires s != []
    ensures 1 <= t.taken <= |s|
    ensures |t.out| <= Utf8Len(s[..t.taken])
  {
    assert |Utf8(s[0])| <= Utf8Len(s[..1]);
    if s[0] != '\\' then Turn(1, Utf8(s[0]))
    else if |s| >= 2 && IsOctal(s[1]) then
      assert s[..if |s| < 4 then |s| else 4][0] == s[0];
      if |s| >= 4 && AllOctal(s[1..4]) && OctalValue(s[1..4]) < 256
      then Turn(4, [OctalValue(s[1..4])])
      else Turn(if |s| < 4 then |s| else 4, [BACKSLASH])
    else Turn(1, [BACKSLASH])
  }

  function ServerDecode(s: string): seq<byte> {
    if s == [] then [] else ServerTurn(s).out + ServerDecode(s[ServerTurn(s).taken..])
  }

  /** How many of the first `max` characters are octal digits before the first that is not. */
  function OctalRun(s: string, max: nat): (k: nat)
    ensures k <= max && k <= |s|
    ensures AllOctal(s[..k])
    ensures k < max && k < |s| ==> !IsOctal(s[k])
  {
    if max == 0 || s == [] || !IsOctal(s[0]) then 0 else 1 + OctalRun(s[1..], max - 1)
  }

  lemma {:induction false} OctalRunIs(s: string, max: nat, k: nat)
    requires k <= max && k <= |s|
    requires AllOctal(s[..k])
    requires k < max && k < |s| ==> !IsOctal(s[k])
    ensures OctalRun(s, max) == k
  {
    if k > 0 {
      OctalRunIs(s[1..], max - 1, k - 1);
    }
  }

  /** The agent collects up to three digits by peeking, drops a value over 255 silently, and reads
      two backslashes as one. */
  function AgentTurn(s: string): (t: Turn)
    requires s != []
    ensures 1 <= t.taken <= |s|
  {
    if s[0] != '\\' then Turn(1, Utf8(s[0]))
    else
      var k := OctalRun(s[1..], 3);
      if k > 0 then
        var v := OctalValue(s[1..][..k]);
        Turn(1 + k, if v < 256 then [v] else [])
      else if |s| == 1 then Turn(1, [])
      else if s[1] == '\\' then Turn(2, [BACKSLASH])
      else Turn(1, [BACKSLASH])
  }

  function AgentDecode(s: string): seq<byte> {
    if s == [] then [] else AgentTurn(s).out + AgentDecode(s[AgentTurn(s).taken..])
  }

  lemma {:induction false} ServerAdvance(out: seq<byte>, s: string)
    requires s != []
    ensures out + ServerDecode(s) == (out + ServerTurn(s).out) + ServerDecode(s[ServerTurn(s).taken..])
  {
    Associative(out, ServerTurn(s).out, ServerDecode(s[ServerTurn(s).taken..]));
  }

  lemma {:induction false} AgentAdvance(out: seq<byte>, s: string)
    requires s != []
    ensures out + AgentDecode(s) == (out + AgentTurn(s).out) + AgentDecode(s[AgentTurn(s).taken..])
  {
    Associative(out, AgentTurn(s).out, AgentDecode(s[AgentTurn(s).taken..]));
  }

  /** `decode_tmux_output` of the server; `chars` is what the iterator has left. */
  method DecodeOnServer(s: string) returns (out: seq<byte>)
    ensures out == ServerDecode(s)
    ensures |out| <= Utf8Len(s)
  {
    OutputFitsReserve(s);
    out := [];
    var chars := s;
    while chars != []
      invariant out + ServerDecode(chars) == ServerDecode(s)
      decreases |chars|
    {
      ServerAdvance(out, chars);
      var bytes;
      if chars[0] == '\\' {
        bytes, chars := ReadServerEscape(chars);
      } else {
        bytes, chars := Utf8(chars[0]), chars[1..];
      }
      out := out + bytes;
    }
    assert out + [] == out;
  }

  method ReadServerEscape(s: string) returns (bytes: seq<byte>, chars: string)
    requires s != [] && s[0] == '\\'
    ensures bytes == ServerTurn(s).out && chars == s[ServerTurn(s).taken..]
  {
    chars := s[1..];
    if chars != [] && IsOctal(chars[0]) {
      var d1 := chars[0];
      var d2: Option<char>, d3: Option<char> := None, None;
      chars := chars[1..];
      if chars != [] {
        if IsOctal(chars[0]) { d2 := Some(chars[0]); }
        chars := chars[1..];
      }
      if chars != [] {
        if IsOctal(chars[0]) { d3 := Some(chars[0]); }
        chars := chars[1..];
      }
      if d2.Some? && d3.Some? {
        var octal := [d1, d2.value, d3.value];
        assert octal == s[1..4];
        if OctalValue(octal) < 256 { return [OctalValue(octal)], chars; }
      }
    }
    bytes := [BACKSLASH];
  }

  /** `decode_tmux_output` of the agent. */
  method DecodeOnAgent(s: string) returns (out: seq<byte>)
    ensures out == AgentDecode(s)
  {
    out := [];
    var chars := s;
    while chars != []
      invariant out + AgentDecode(chars) == AgentDecode(s)
      decreases |chars|
    {
      AgentAdvance(out, chars);
      var bytes;
      if chars[0] == '\\' {
        bytes, chars := ReadAgentEscape(chars);
      } else {
        bytes, chars := Utf8(chars[0]), chars[1..];
      }
      out := out + bytes;
    }
    assert out + [] == out;
  }

  method ReadAgentEscape(s: string) returns (bytes: seq<byte>, chars: string)
    requires s != [] && s[0] == '\\'
    ensures bytes == AgentTurn(s).out && chars == s[AgentTurn(s).taken..]
  {
    var octal := "";
    chars := s[1..];
    var n := 0;
    while n < 3 && (chars != [] ==> IsOctal(chars[0]))
      invariant 0 <= n <= 3 && |octal| <= n && |octal| < |s|
      invariant octal == s[1..1 + |octal|] && chars == s[1 + |octal|..]
      invariant |octal| == n || chars == []
      invariant AllOctal(octal)
    {
      if chars != [] {
        octal, chars := octal + [chars[0]], chars[1..];
      }
      n := n + 1;
    }
    assert s[1..][..|octal|] == octal;
    OctalRunIs(s[1..], 3, |octal|);
    if octal != "" {
      bytes := if OctalValue(octal) < 256 then [OctalValue(octal)] else [];
    } else if chars != [] {
      bytes := [BACKSLASH];
      if chars[0] == '\\' { chars := chars[1..]; }
    } else {
      bytes := [];
    }
  }

  // ---------------------------------------------------------------- size

  lemma {:induction false} Utf8LenSplit(s: string, k: nat)
    requires k <= |s|
    ensures Utf8Len(s) == Utf8Len(s[..k]) + Utf8Len(s[k..])
  {
    if k > 0 {
      Utf8LenSplit(s[1..], k - 1);
      assert s[..k][1..] == s[1..][..k - 1];
    } else {
      assert s[k..] == s;
    }
  }

  /** On any text at all the output fits the capacity reserved before the loop. */
  lemma {:induction false} OutputFitsReserve(s: string)
    ensures |ServerDecode(s)| <= Utf8Len(s)
  {
    if s != [] {
      var t := ServerTurn(s);
      OutputFitsReserve(s[t.taken..]);
      Utf8LenSplit(s, t.taken);
    }
  }

  // ---------------------------------------------------------------- concatenation

  /** The decoder's cursor stops at `k` between two turns. */
  predicate IsBoundary(s: string, k: nat)
    requires k <= |s|
  {
    k == 0 || (ServerTurn(s).taken <= k && IsBoundary(s[ServerTurn(s).taken..], k - ServerTurn(s).taken))
  }

  lemma {:induction false} TurnOfPrefix(s: string, k: nat)
    requires 0 < k <= |s| && ServerTurn(s).taken <= k
    ensures ServerTurn(s[..k]) == ServerTurn(s)
  {
    if k >= 4 {
      assert s[..k][1..4] == s[1..4];
    }
  }

  lemma {:induction false} DecodeDistributes(s: string, k: nat)
    requires k <= |s| && IsBoundary(s, k)
    ensures ServerDecode(s) == ServerDecode(s[..k]) + ServerDecode(s[k..])
    decreases k
  {
    if k == 0 {
      assert s[k..] == s;
    } else {
      var t := ServerTurn(s);
      DecodeDistributes(s[t.taken..], k - t.taken);
      TurnOfPrefix(s, k);
      assert s[t.taken..][..k - t.taken] == s[..k][t.taken..];
      assert s[t.taken..][k - t.taken..] == s[k..];
      var mid, last := ServerDecode(s[..k][t.taken..]), ServerDecode(s[k..]);
      Associative(t.out, mid, last);
    }
  }

  // ---------------------------------------------------------------- escaped streams

  /** One piece of a stream as tmux writes it. */
  datatype Piece =
    | Raw(c: char)       // any character but a backslash, as itself
    | Escaped(b: byte)   // a byte as a backslash and three octal digits

  predicate IsPiece(p: Piece) {
    p.Raw? ==> p.c != '\\'
  }

  function Octal3(b: byte): string {
    ['\\', OctalDigit(b / 64), OctalDigit(b / 8 % 8), OctalDigit(b % 8)]
  }

  function PrintPiece(p: Piece): string {
    if p.Raw? then [p.c] else Octal3(p.b)
  }

  function PieceMeaning(p: Piece): seq<byte> {
    if p.Raw? then Utf8(p.c) else [p.b]
  }

  function Print(pieces: seq<Piece>): string {
    if pieces == [] then [] else PrintPiece(pieces[0]) + Print(pieces[1..])
  }

  /** The bytes a stream stands for. */
  function Meaning(pieces: seq<Piece>): seq<byte> {
    if pieces == [] then [] else PieceMeaning(pieces[0]) + Meaning(pieces[1..])
  }

  lemma {:induction false} OctalOfByte(b: byte)
    ensures var digits := [OctalDigit(b / 64), OctalDigit(b / 8 % 8), OctalDigit(b % 8)];
            AllOctal(digits) && OctalValue(digits) == b
  {
    OctalOf3([OctalDigit(b / 64), OctalDigit(b / 8 % 8), OctalDigit(b % 8)]);
  }

  lemma {:induction false} ServerTurnOnEscape(digits: string, rest: string)
    requires |digits| == 3 && AllOctal(digits) && OctalValue(digits) < 256
    ensures ServerTurn("\\" + digits + rest) == Turn(4, [OctalValue(digits)])
  {
    var s := "\\" + digits + rest;
    assert s[1..4] == digits;
    assert s[1] == digits[0];
  }

  lemma {:induction false} AgentTurnOnEscape(digits: string, rest: string)
    requires |digits| == 3 && AllOctal(digits) && OctalValue(digits) < 256
    ensures AgentTurn("\\" + digits + rest) == Turn(4, [OctalValue(digits)])
  {
    var s := "\\" + digits + rest;
    assert s[1..][..3] == digits;
    OctalRunIs(s[1..], 3, 3);
  }

  lemma {:induction false} TurnOnPiece(p: Piece, rest: string)
    requires IsPiece(p)
    ensures var s := PrintPiece(p) + rest;
            ServerTurn(s) == AgentTurn(s) == Turn(|PrintPiece(p)|, PieceMeaning(p))
  {
    if p.Escaped? {
      var digits := [OctalDigit(p.b / 64), OctalDigit(p.b / 8 % 8), OctalDigit(p.b % 8)];
      OctalOfByte(p.b);
      ServerTurnOnEscape(digits, rest);
      AgentTurnOnEscape(digits, rest);
      assert PrintPiece(p) == "\\" + digits;
    }
  }

  lemma {:induction false} DecodePiece(p: Piece, rest: string)
    requires IsPiece(p)
    ensures ServerDecode(PrintPiece(p) + rest) == PieceMeaning(p) + ServerDecode(rest)
    ensures AgentDecode(PrintPiece(p) + rest) == PieceMeaning(p) + AgentDecode(rest)
  {
    TurnOnPiece(p, rest);
    assert (PrintPiece(p) + rest)[|PrintPiece(p)|..] == rest;
  }

  /** Both decoders return the meaning of every well-formed stream, whatever follows it. */
  lemma {:induction false} DecodersReadStream(pieces: seq<Piece>, rest: string)
    requires forall i :: 0 <= i < |pieces| ==> IsPiece(pieces[i])
    ensures ServerDecode(Print(pieces) + rest) == Meaning(pieces) + ServerDecode(rest)
    ensures AgentDecode(Print(pieces) + rest) == Meaning(pieces) + AgentDecode(rest)
  {
    if pieces == [] {
      assert Print(pieces) + rest == rest;
    } else {
      var tail := Print(pieces[1..]) + rest;
      assert Print(pieces) + rest == PrintPiece(pieces[0]) + tail;
      DecodePiece(pieces[0], tail);
      DecodersReadStream(pieces[1..], rest);
      Associative(PieceMeaning(pieces[0]), Meaning(pieces[1..]), ServerDecode(rest));
      Associative(PieceMeaning(pieces[0]), Meaning(pieces[1..]), AgentDecode(rest));
    }
  }

  /** Bytes that cannot stand for themselves: the backslash and all that is not ASCII. */
  predicate NeedsEscape(b: byte) {
    b == BACKSLASH || b >= 128
  }

  /** A choice, per position, of which bytes to escape. */
  predicate LegalChoice(data: seq<byte>, choice: seq<bool>) {
    |choice| == |data| && forall i :: 0 <= i < |data| ==> NeedsEscape(data[i]) ==> choice[i]
  }

  function Pieces(data: seq<byte>, choice: seq<bool>): (pieces: seq<Piece>)
    requires LegalChoice(data, choice)
    ensures |pieces| == |data|
    ensures forall i :: 0 <= i < |data| ==>
              pieces[i] == if choice[i] then Escaped(data[i]) else Raw(data[i] as char)
  {
    seq(|data|, i requires 0 <= i < |data| => if choice[i] then Escaped(data[i]) else Raw(data[i] as char))
  }

  function Escape(data: seq<byte>, choice: seq<bool>): string
    requires LegalChoice(data, choice)
  {
    Print(Pieces(data, choice))
  }

  lemma {:induction false} MeaningOfPieces(data: seq<byte>, choice: seq<bool>)
    requires LegalChoice(data, choice)
    ensures Meaning(Pieces(data, choice)) == data
  {
    if data != [] {
      MeaningOfPieces(data[1..], choice[1..]);
      assert Pieces(data, choice)[1..] == Pieces(data[1..], choice[1..]);
    }
  }

  /** Every byte sequence survives every legal choice of escapes, in both decoders. */
  lemma {:induction false} EscapeRoundTrip(data: seq<byte>, choice: seq<bool>)
    requires LegalChoice(data, choice)
    ensures ServerDecode(Escape(data, choice)) == data
    ensures AgentDecode(Escape(data, choice)) == data
  {
    var pieces := Pieces(data, choice);
    DecodersReadStream(pieces, []);
    MeaningOfPieces(data, choice);
    assert Print(pieces) + [] == Print(pieces);
    assert Meaning(pieces) + [] == Meaning(pieces);
  }

  /** Text without a backslash, of any language, leaves either decoder as its UTF-8: a reader of
      those bytes gets the text back. */
  lemma {:induction false} RawTextIsRead(text: string)
    requires '\\' !in text
    ensures ReadText(ServerDecode(text)) == Some(text) && ReadText(AgentDecode(text)) == Some(text)
  {
    if text != "" {
      RawTextIsRead(text[1..]);
      ReadOn(text[0], ServerDecode(text[1..]), text[1..]);
      ReadOn(text[0], AgentDecode(text[1..]), text[1..]);
      assert [text[0]] + text[1..] == text;
    }
  }

  lemma {:induction false} ReadOn(c: char, rest: seq<byte>, text: string)
    requires ReadText(rest) == Some(text)
    ensures ReadText(Utf8(c) + rest) == Some([c] + text)
  {
    Utf8RoundTrip(c, rest);
    assert (Utf8(c) + rest)[|Utf8(c)|..] == rest;
  }

  /** An escape is a backslash and three octal digits, the most significant first: \033 is ESC. */
  lemma {:induction false} EscapeIs(rest: string)
    ensures Octal3(27) == "\\033"
    ensures ServerDecode("\\033" + rest) == [27] + ServerDecode(rest)
    ensures AgentDecode("\\033" + rest) == [27] + AgentDecode(rest)
  {
    assert Octal3(27) == "\\033";
    DecodePiece(Escaped(27), rest);
  }

  // ---------------------------------------------------------------- where the decoders part

  /** The front of the text is something tmux writes, or a backslash before a character that is
      neither an octal digit nor a backslash. */
  predicate SharedFront(s: string)
    requires s != []
  {
    || s[0] != '\\'
    || (|s| >= 4 && AllOctal(s[1..4]) && OctalValue(s[1..4]) < 256)
    || (|s| >= 2 && !IsOctal(s[1]) && s[1] != '\\')
  }

  lemma {:induction false} TurnsAgreeExactly(s: string)
    requires s != []
    ensures ServerTurn(s) == AgentTurn(s) <==> SharedFront(s)
  {
    if s[0] == '\\' && |s| >= 2 && IsOctal(s[1]) {
      var r := OctalRun(s[1..], 3);
      if |s| >= 4 { assert s[1..][..3] == s[1..4]; }
      if |s| >= 4 && AllOctal(s[1..4]) {
        OctalRunIs(s[1..], 3, 3);
      } else {
        OctalShort(s[1..][..r]);
      }
    }
  }

  /** Every turn of the server's loop starts at a shared front. */
  predicate WellFormed(s: string) {
    s == [] || (SharedFront(s) && WellFormed(s[ServerTurn(s).taken..]))
  }

  /** The two decoders return the same bytes for exactly the well-formed texts. */
  lemma {:induction false} DecodersAgreeExactly(s: string)
    ensures ServerDecode(s) == AgentDecode(s) <==> WellFormed(s)
  {
    if s != [] {
      TurnsAgreeExactly(s);
      if SharedFront(s) {
        DecodersAgreeExactly(s[ServerTurn(s).taken..]);
        SameFront(ServerTurn(s).out, ServerDecode(s[ServerTurn(s).taken..]), AgentDecode(s[ServerTurn(s).taken..]));
      } else {
        UnsharedFrontDiffers(s);
      }
    }
  }

  lemma {:induction false} SameFront(front: seq<byte>, a: seq<byte>, b: seq<byte>)
    ensures front + a == front + b <==> a == b
  {
    assert (front + a)[|front|..] == a && (front + b)[|front|..] == b;
  }

  lemma {:induction false} UnsharedFrontDiffers(s: string)
    requires s != [] && !SharedFront(s)
    ensures ServerDecode(s) != AgentDecode(s)
  {
    if |s| == 1 {
      assert s[1..] == [];
    } else if s[1] == '\\' {
      DoubledNeverFits(0, s);
      assert Backslashes(0) + ServerDecode(s) == ServerDecode(s);
    } else if |s| >= 4 && AllOctal(s[1..4]) {
      LargeEscape(s);
      BackslashesNeverFit(1, s[4..]);
      assert Backslashes(1) == [BACKSLASH];
    } else {
      ShortEscape(s);
    }
  }

  /** An escape over 255: the server leaves a backslash, the agent nothing. */
  lemma {:induction false} LargeEscape(s: string)
    requires |s| >= 4 && s[0] == '\\' && AllOctal(s[1..4]) && OctalValue(s[1..4]) >= 256
    ensures ServerTurn(s) == Turn(4, [BACKSLASH]) && AgentTurn(s) == Turn(4, [])
  {
    assert s[1] == s[1..4][0];
    assert s[1..][..3] == s[1..4];
    OctalRunIs(s[1..], 3, 3);
  }

  /** An escape of one or two digits: a byte below 64 for the agent, a backslash for the server. */
  lemma {:induction false} ShortEscape(s: string)
    requires |s| >= 2 && s[0] == '\\' && IsOctal(s[1]) && !(|s| >= 4 && AllOctal(s[1..4]))
    ensures ServerTurn(s).out == [BACKSLASH]
    ensures |AgentTurn(s).out| == 1 && AgentTurn(s).out[0] < 64
  {
    var r := OctalRun(s[1..], 3);
    assert |s| >= 4 ==> s[1..][..3] == s[1..4];
    OctalShort(s[1..][..r]);
  }

  function Backslashes(k: nat): (out: seq<byte>)
    ensures |out| == k && forall i :: 0 <= i < k ==> out[i] == BACKSLASH
  {
    seq(k, i => BACKSLASH)
  }

  lemma {:induction false} FirstByte(c: char)
    ensures Utf8(c)[0] == BACKSLASH <==> c == '\\'
    ensures Utf8(c)[0] < 128 <==> Utf8(c) == [c as int]
  {}

  /** The server leaves backslashes where the agent drops them, and can never make up for it: with
      one or more backslashes too many, its output differs whatever follows. */
  lemma {:induction false} BackslashesNeverFit(k: nat, s: string)
    requires k >= 1
    ensures Backslashes(k) + ServerDecode(s) != AgentDecode(s)
    decreases |s|
  {
    var left := Backslashes(k) + ServerDecode(s);
    assert left[0] == BACKSLASH;
    if s == [] {
    } else if s[0] != '\\' {
      FirstByte(s[0]);
      assert AgentDecode(s)[0] == Utf8(s[0])[0];
    } else if |s| == 1 {
      assert s[1..] == [];
    } else if s[1] == '\\' {
      DoubledNeverFits(k, s);
    } else if SharedFront(s) {
      TurnsAgreeExactly(s);
      BackslashesBeforeShared(k, s);
    } else if |s| >= 4 && AllOctal(s[1..4]) {
      BackslashesBeforeLarge(k, s);
    } else {
      ShortEscape(s);
      assert AgentDecode(s)[0] == AgentTurn(s).out[0];
    }
  }

  lemma {:induction false} BackslashesBeforeLarge(k: nat, s: string)
    requires |s| >= 4 && s[0] == '\\' && AllOctal(s[1..4]) && OctalValue(s[1..4]) >= 256
    ensures Backslashes(k) + ServerDecode(s) != AgentDecode(s)
    decreases |s|, 0
  {
    LargeEscape(s);
    BackslashesNeverFit(k + 1, s[4..]);
    OneBackslashMore(k, ServerDecode(s[4..]));
  }

  lemma {:induction false} OneBackslashMore(k: nat, rest: seq<byte>)
    ensures Backslashes(k) + ([BACKSLASH] + rest) == Backslashes(k + 1) + rest
    ensures Backslashes(k + 1) + rest == [BACKSLASH] + (Backslashes(k) + rest)
  {}

  lemma {:induction false} BackslashesBeforeShared(k: nat, s: string)
    requires k >= 1 && s != [] && s[0] == '\\' && ServerTurn(s) == AgentTurn(s) && |ServerTurn(s).out| == 1
    ensures Backslashes(k) + ServerDecode(s) != AgentDecode(s)
    decreases |s|, 0
  {
    var t := ServerTurn(s);
    var server, agent := ServerDecode(s[t.taken..]), AgentDecode(s[t.taken..]);
    BackslashesNeverFit(k, s[t.taken..]);
    if t.out == [BACKSLASH] {
      OneBackslashMore(k, server);
      SameFront([BACKSLASH], Backslashes(k) + server, agent);
    } else {
      assert (Backslashes(k) + ServerDecode(s))[0] == BACKSLASH && AgentDecode(s)[0] == t.out[0];
    }
  }

  /** Two backslashes are one to the agent; to the server the second may start an escape. */
  lemma {:induction false} DoubledNeverFits(k: nat, s: string)
    requires |s| >= 2 && s[0] == '\\' && s[1] == '\\'
    ensures Backslashes(k) + ServerDecode(s) != AgentDecode(s)
    decreases |s|, 0
  {
    var server, agent := ServerDecode(s[1..]), AgentDecode(s[2..]);
    assert AgentTurn(s) == Turn(2, [BACKSLASH]) && ServerTurn(s) == Turn(1, [BACKSLASH]);
    OneBackslashMore(k, server);
    SameFront([BACKSLASH], Backslashes(k) + server, agent);
    assert s[1..][1..] == s[2..];
    if |s| == 2 || !IsOctal(s[2]) {
      BackslashesNeverFit(k + 1, s[2..]);
      OneBackslashMore(k, ServerDecode(s[2..]));
    } else {
      DigitAfterDoubled(s[1..]);
      assert agent[0] == s[2] as int;
      assert k > 0 ==> (Backslashes(k) + server)[0] == BACKSLASH;
      assert k == 0 ==> Backslashes(k) + server == server;
    }
  }

  /** An escape read as one by the server only: what it stands for is not its own digits, nor are
      those of \060, which stands for the digit it starts with. */
  lemma {:induction false} DigitAfterDoubled(s: string)
    requires |s| >= 2 && s[0] == '\\' && IsOctal(s[1])
    ensures ServerDecode(s) != AgentDecode(s[1..])
  {
    assert AgentDecode(s[1..])[0] == s[1] as int;
    if |s| >= 4 && AllOctal(s[1..4]) && OctalValue(s[1..4]) < 256 {
      OctalOf3(s[1..4]);
      assert ServerDecode(s)[0] == OctalValue(s[1..4]);
      if OctalValue(s[1..4]) == s[1] as int {
        assert s[1] == '0' && s[2] == '6' && s[3] == '0';
        ZeroSixZero(s);
      }
    } else {
      assert ServerDecode(s)[0] == BACKSLASH;
    }
  }

  lemma {:induction false} ZeroSixZero(s: string)
    requires |s| >= 4 && s[0] == '\\' && s[1] == '0' && s[2] == '6' && s[3] == '0'
    requires OctalValue(s[1..4]) == '0' as int
    ensures ServerDecode(s) != AgentDecode(s[1..])
  {
    var zero: byte, six: byte := '0' as int, '6' as int;
    ServerReadsEscape(s, zero);
    AgentReadsDigits(s);
    NeverShifted(s[4..], six, zero);
    SkipFirst(zero, six, zero, ServerDecode(s[4..]), AgentDecode(s[4..]));
  }

  lemma {:induction false} ServerReadsEscape(s: string, v: byte)
    requires |s| >= 4 && s[0] == '\\' && AllOctal(s[1..4]) && OctalValue(s[1..4]) == v
    ensures ServerDecode(s) == [v] + ServerDecode(s[4..])
  {
    assert s[1] == s[1..4][0];
  }

  lemma {:induction false} AgentReadsDigits(s: string)
    requires |s| >= 4 && AllOctal(s[1..4])
    ensures AgentDecode(s[1..]) == [s[1] as int, s[2] as int, s[3] as int] + AgentDecode(s[4..])
  {
    assert s[1..][..3] == s[1..4] && s[1..][3..] == s[4..];
    ThreeRaw(s[1..]);
  }

  lemma {:induction false} SkipFirst(x: byte, y: byte, z: byte, server: seq<byte>, agent: seq<byte>)
    ensures [x] + server == [x, y, z] + agent <==> server == [y, z] + agent
  {
    assert [x, y, z] + agent == [x] + ([y, z] + agent);
    SameFront([x], server, [y, z] + agent);
  }

  lemma {:induction false} ThreeRaw(s: string)
    requires |s| >= 3 && AllOctal(s[..3])
    ensures AgentDecode(s) == [s[0] as int, s[1] as int, s[2] as int] + AgentDecode(s[3..])
  {
    assert IsOctal(s[..3][0]) && IsOctal(s[..3][1]) && IsOctal(s[..3][2]);
    assert s[1..][1..] == s[2..] && s[2..][1..] == s[3..];
    assert AgentDecode(s[2..]) == [s[2] as int] + AgentDecode(s[3..]);
    assert AgentDecode(s[1..]) == [s[1] as int] + AgentDecode(s[2..]);
  }

  lemma {:induction false} ShiftedFront(s: string, x: byte)
    requires s != [] && x < 128 && x != BACKSLASH && ServerTurn(s).out != [] && ServerTurn(s).out[0] == x
    ensures ServerTurn(s) == AgentTurn(s) && ServerTurn(s).out == [x]
  {
    TurnsAgreeExactly(s);
    FirstByte(s[0]);
  }

  lemma {:induction false} ShiftOn(x: byte, y: byte, server: seq<byte>, agent: seq<byte>)
    ensures [x] + server == [x, y] + ([x] + agent) <==> server == [y, x] + agent
  {
    assert [x, y] + ([x] + agent) == [x] + ([y, x] + agent);
    SameFront([x], server, [y, x] + agent);
  }

  /** The server's output is never two ASCII bytes, neither a backslash, ahead of the agent's. */
  lemma {:induction false} NeverShifted(s: string, x: byte, y: byte)
    requires x < 128 && y < 128 && x != BACKSLASH && y != BACKSLASH
    ensures ServerDecode(s) != [x, y] + AgentDecode(s)
    decreases |s|
  {
    if s != [] {
      var t := ServerTurn(s);
      assert |t.out| >= 1 && ServerDecode(s)[0] == t.out[0];
      if t.out[0] == x {
        ShiftedFront(s, x);
        ShiftOn(x, y, ServerDecode(s[t.taken..]), AgentDecode(s[t.taken..]));
        NeverShifted(s[t.taken..], y, x);
      }
    }
  }

  /** A doubled backslash, a lone final one, a short escape and an escape over 255: each is read
      differently by the two decoders. */
  lemma {:induction false} DecodersDiffer()
    ensures ServerDecode("\\\\") == [92, 92] && AgentDecode("\\\\") == [92]
    ensures ServerDecode("\\") == [92] && AgentDecode("\\") == []
    ensures ServerDecode("\\1") == [92] && AgentDecode("\\1") == [1]
    ensures ServerDecode("\\777") == [92] && AgentDecode("\\777") == []
  {
    ReadOnce("\\");
    assert "\\\\"[1..] == "\\" && "\\\\"[2..] == "";
    assert AgentTurn("\\\\") == Turn(2, [92]);
    DigitEscapes();
    ReadOnce("\\1");
    ReadOnce("\\777");
  }

  lemma {:induction false} DigitEscapes()
    ensures ServerTurn("\\1") == Turn(2, [92]) && AgentTurn("\\1") == Turn(2, [1])
    ensures ServerTurn("\\777") == Turn(4, [92]) && AgentTurn("\\777") == Turn(4, [])
  {
    var s, one := "\\777", "\\1"[1..];
    assert one[..1] == one == "1" && OctalValue("1") == 1 by { assert "1"[..0] == ""; }
    OctalRunIs(one, 3, 1);
    assert s[1..][..3] == s[1..4] == "777";
    OctalOf3("777");
    OctalRunIs(s[1..], 3, 3);
  }

  lemma {:induction false} ReadOnce(s: string)
    requires s != []
    ensures ServerTurn(s).taken == |s| ==> ServerDecode(s) == ServerTurn(s).out
    ensures AgentTurn(s).taken == |s| ==> AgentDecode(s) == AgentTurn(s).out
  {
    assert s[|s|..] == [];
  }
}
