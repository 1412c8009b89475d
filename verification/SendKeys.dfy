/**
 Keystrokes travel to tmux as `send-keys -H` commands.  The agent and the server's SSH transport
 each build that text in their own way.
 */
module SendKeys {
  import opened Text

  const SEND: string := "send-keys -t "
  const HEX_FLAG: string := "-H"

  function HexDigit(n: nat): (c: char)
    requires n < 16
  {
    if n < 10 then '0' + n as char else 'a' + (n - 10) as char
  }

  /** `{:02x}` */
  function Hex2(b: byte): (s: string)
    ensures |s| == 2
  {
    [HexDigit(b / 16), HexDigit(b % 16)]
  }

  /** `%` and a number */
  predicate IsPaneId(pane: string) {
    |pane| > 1 && pane[0] == '%' && AllDigits(pane[1..])
  }

  /** A pane id is a percent sign and one or more of the ten digits, and nothing else. */
  lemma {:induction false} PaneIdIff(pane: string)
    ensures IsPaneId(pane) <==>
            exists digits: string :: && digits != "" && pane == "%" + digits
                                     && forall i :: 0 <= i < |digits| ==> digits[i] in "0123456789"
  {
    if IsPaneId(pane) {
      var digits := pane[1..];
      assert pane == "%" + digits;
      forall i | 0 <= i < |digits| ensures digits[i] in "0123456789" {
        DigitIff(digits[i]);
      }
    }
    if digits: string :| && digits != "" && pane == "%" + digits
                         && forall i :: 0 <= i < |digits| ==> digits[i] in "0123456789" {
      assert pane[1..] == digits;
      forall i | 0 <= i < |digits| ensures IsDigit(digits[i]) {
        DigitIff(digits[i]);
      }
    }
  }

  lemma {:induction false} DigitIff(c: char)
    ensures IsDigit(c) <==> c in "0123456789"
  {
    var all := "0123456789";
    assert |all| == 10 && forall i :: 0 <= i < 10 ==> all[i] as int == '0' as int + i;
    if IsDigit(c) { assert all[c as int - '0' as int] == c; }
  }

  lemma {:induction false} PaneIdChars(pane: string)
    requires IsPaneId(pane)
    ensures forall i :: 0 <= i < |pane| ==> pane[i] == '%' || IsDigit(pane[i])
  {
    forall i | 0 < i < |pane| ensures IsDigit(pane[i]) {
      assert pane[i] == pane[1..][i - 1];
    }
  }

  // ---------------------------------------------------------------- the agent

  function SpaceFirst(data: seq<byte>): string {
    if data == [] then "" else SpaceFirst(data[..|data| - 1]) + ([' '] + Hex2(data[|data| - 1]))
  }

  /** What the agent writes to tmux, if anything. */
  function AgentText(pane: string, data: seq<byte>): Option<string> {
    if data == [] || !IsPaneId(pane) then None
    else Some(SEND + pane + [' '] + HEX_FLAG + SpaceFirst(data) + ['\n'])
  }

  method SendTmuxInput(pane: string, data: seq<byte>) returns (written: Option<string>)
    ensures written == AgentText(pane, data)
  {
    if data == [] || !IsPaneId(pane) { return None; }
    var head := SEND + pane + [' '] + HEX_FLAG;
    var cmd := head;
    assert cmd == head + SpaceFirst(data[..0]);
    for i := 0 to |data|
      invariant cmd == head + SpaceFirst(data[..i])
    {
      assert data[..i + 1][..i] == data[..i];
      Associative(head, SpaceFirst(data[..i]), [' '] + Hex2(data[i]));
      cmd := cmd + ([' '] + Hex2(data[i]));
    }
    assert data[..|data|] == data;
    return Some(cmd + ['\n']);
  }

  // ---------------------------------------------------------------- the server

  function SpaceLast(data: seq<byte>): string {
    if data == [] then "" else Hex2(data[0]) + [' '] + SpaceLast(data[1..])
  }

  /** A newline is added unless the command already ends with one. */
  function WithNewline(cmd: string): string {
    if cmd != [] && cmd[|cmd| - 1] == '\n' then cmd else cmd + ['\n']
  }

  function ServerText(pane: string, data: seq<byte>): string {
    WithNewline(SEND + pane + [' '] + HEX_FLAG + [' '] + Trim(SpaceLast(data)))
  }

  // ---------------------------------------------------------------- both are one text

  /** Two-digit numbers separated by single spaces. */
  function Spaced(data: seq<byte>): string
    requires data != []
  {
    if |data| == 1 then Hex2(data[0]) else Hex2(data[0]) + [' '] + Spaced(data[1..])
  }

  predicate IsHexDigit(c: char) {
    '0' <= c <= '9' || 'a' <= c <= 'f'
  }

  lemma {:induction false} Hex2IsHex(b: byte)
    ensures IsHexDigit(Hex2(b)[0]) && IsHexDigit(Hex2(b)[1])
  {}

  lemma {:induction false} SpacedEnds(data: seq<byte>)
    requires data != []
    ensures |Spaced(data)| >= 2 && IsHexDigit(Spaced(data)[0]) && IsHexDigit(Spaced(data)[|Spaced(data)| - 1])
    ensures SpaceLast(data) == Spaced(data) + [' ']
    ensures '\n' !in Spaced(data)
  {
    Hex2IsHex(data[0]);
    if |data| > 1 {
      SpacedEnds(data[1..]);
      assert Hex2(data[0]) + [' '] + (Spaced(data[1..]) + [' ']) == Hex2(data[0]) + [' '] + Spaced(data[1..]) + [' '];
    } else {
      assert SpaceLast(data[1..]) == "";
    }
  }

  lemma {:induction false} TrimOneSpace(s: string)
    requires s != [] && IsHexDigit(s[0]) && IsHexDigit(s[|s| - 1])
    ensures Trim(s + [' ']) == s
  {
    assert (s + [' '])[..|s|] == s;
    assert TrimEnd(s + [' ']) == TrimEnd(s) == s;
  }

  lemma {:induction false} SpaceFirstIs(data: seq<byte>)
    requires data != []
    ensures SpaceFirst(data) == [' '] + Spaced(data)
  {
    var n := |data| - 1;
    if n == 0 {
      assert SpaceFirst(data[..0]) == "";
    } else {
      SpaceFirstIs(data[..n]);
      SpacedLast(data);
      Associative([' '], Spaced(data[..n]), [' '] + Hex2(data[n]));
    }
  }

  lemma {:induction false} SpacedLast(data: seq<byte>)
    requires |data| >= 2
    ensures Spaced(data) == Spaced(data[..|data| - 1]) + ([' '] + Hex2(data[|data| - 1]))
  {
    var n := |data| - 1;
    if n > 1 {
      SpacedLast(data[1..]);
      assert data[1..][..n - 1] == data[..n][1..];
      Associative(Hex2(data[0]) + [' '], Spaced(data[..n][1..]), [' '] + Hex2(data[n]));
    }
  }

  function Command(pane: string, data: seq<byte>): string
    requires data != []
  {
    SEND + (pane + [' '] + (HEX_FLAG + ([' '] + Spaced(data)))) + ['\n']
  }

  lemma {:induction false} Regroup(a: string, b: string, c: string, d: string, e: string)
    ensures a + b + c + d + e == a + (b + c + (d + e))
  {}

  lemma {:induction false} AgentWritesCommand(pane: string, data: seq<byte>)
    requires IsPaneId(pane) && data != []
    ensures AgentText(pane, data) == Some(Command(pane, data))
  {
    SpaceFirstIs(data);
    Regroup(SEND, pane, [' '], HEX_FLAG, SpaceFirst(data));
  }

  lemma {:induction false} ServerWritesCommand(pane: string, data: seq<byte>)
    requires data != []
    ensures ServerText(pane, data) == Command(pane, data)
  {
    SpacedEnds(data);
    TrimOneSpace(Spaced(data));
    var cmd := SEND + pane + [' '] + HEX_FLAG + ([' '] + Spaced(data));
    Associative(SEND + pane + [' '] + HEX_FLAG, [' '], Spaced(data));
    Regroup(SEND, pane, [' '], HEX_FLAG, [' '] + Spaced(data));
    assert cmd[|cmd| - 1] == Spaced(data)[|Spaced(data)| - 1];
  }

  /** For a valid pane the two texts are equal, character for character, exactly when there is
      something to send: with no bytes the agent writes nothing and the server an empty command. */
  lemma {:induction false} SameTextIffBytes(pane: string, data: seq<byte>)
    requires IsPaneId(pane)
    ensures AgentText(pane, data) == Some(ServerText(pane, data)) <==> data != []
  {
    if data != [] {
      AgentWritesCommand(pane, data);
      ServerWritesCommand(pane, data);
    }
  }

  /** The command is one line: its only newline is its last character. */
  lemma {:induction false} OneNewline(pane: string, data: seq<byte>)
    requires IsPaneId(pane) && data != []
    ensures var t := Command(pane, data);
            t[|t| - 1] == '\n' && '\n' !in t[..|t| - 1]
  {
    SpacedEnds(data);
    var t := Command(pane, data);
    var front := SEND + (pane + [' '] + (HEX_FLAG + ([' '] + Spaced(data))));
    assert t[..|t| - 1] == front;
    NoNewline(SEND, HEX_FLAG, pane, Spaced(data));
    ConstantsAreText();
  }

  lemma {:induction false} ConstantsAreText()
    ensures '\n' !in SEND && '\n' !in HEX_FLAG && ' ' !in HEX_FLAG
  {}

  lemma {:induction false} NoNewline(send: string, flag: string, pane: string, hex: string)
    requires IsPaneId(pane)
    ensures '\n' !in send && '\n' !in flag && '\n' !in hex ==>
              '\n' !in send + (pane + [' '] + (flag + ([' '] + hex)))
    ensures ' ' !in pane && '\n' !in pane
  {
    PaneIdChars(pane);
  }

  // ---------------------------------------------------------------- reading it back

  function HexValue(c: char): Option<nat> {
    if '0' <= c <= '9' then Some(c as int - '0' as int)
    else if 'a' <= c <= 'f' then Some(c as int - 'a' as int + 10)
    else None
  }

  function ReadByte(s: string): (r: Option<byte>) {
    if |s| != 2 then None
    else
      var hi, lo := HexValue(s[0]), HexValue(s[1]);
      if hi.Some? && lo.Some? && 16 * hi.value + lo.value < 256 then Some(16 * hi.value + lo.value) else None
  }

  function ReadBytes(words: seq<string>): Option<seq<byte>> {
    if words == [] then Some([])
    else
      var first, rest := ReadByte(words[0]), ReadBytes(words[1..]);
      if first.Some? && rest.Some? then Some([first.value] + rest.value) else None
  }

  /** A `send-keys` line as tmux takes it apart: pane, flag, then one word per byte. */
  function ReadCommand(text: string): Option<(string, seq<byte>)> {
    if text == [] || text[|text| - 1] != '\n' then None
    else
      var body := StripPrefix(text[..|text| - 1], "send-keys -t ");
      if body.None? then None else ReadArguments(Split(body.value, ' '))
  }

  function ReadArguments(words: seq<string>): Option<(string, seq<byte>)> {
    if |words| < 2 || words[1] != "-H" then None
    else
      var data := ReadBytes(words[2..]);
      if data.Some? then Some((words[0], data.value)) else None
  }

  function Words(data: seq<byte>): (words: seq<string>)
    ensures |words| == |data|
  {
    seq(|data|, i requires 0 <= i < |data| => Hex2(data[i]))
  }

  lemma {:induction false} SplitSpaced(data: seq<byte>)
    requires data != []
    ensures Split(Spaced(data), ' ') == Words(data)
  {
    Hex2IsHex(data[0]);
    assert ' ' !in Hex2(data[0]);
    if |data| == 1 {
      SplitWhole(Hex2(data[0]), ' ');
    } else {
      SplitOf(Hex2(data[0]), ' ', Spaced(data[1..]));
      SplitSpaced(data[1..]);
      assert Words(data) == [Hex2(data[0])] + Words(data[1..]);
    }
  }

  lemma {:induction false} ReadWords(data: seq<byte>)
    ensures ReadBytes(Words(data)) == Some(data)
  {
    if data != [] {
      ReadWords(data[1..]);
      assert Words(data)[1..] == Words(data[1..]);
      assert ReadByte(Hex2(data[0])) == Some(data[0]);
      assert [data[0]] + data[1..] == data;
    }
  }

  /** Reading the command back gives exactly the pane and the bytes that went in. */
  lemma {:induction false} CommandRoundTrip(pane: string, data: seq<byte>)
    requires IsPaneId(pane) && data != []
    ensures ReadCommand(Command(pane, data)) == Some((pane, data))
  {
    NoNewline(SEND, HEX_FLAG, pane, Spaced(data));
    ConstantsAreText();
    ReadUnwrapped(pane + [' '] + (HEX_FLAG + ([' '] + Spaced(data))));
    Associative(HEX_FLAG, [' '], Spaced(data));
    SplitArguments(pane, HEX_FLAG, data);
    ReadArgumentsOf(pane, data);
  }

  lemma {:induction false} ReadUnwrapped(rest: string)
    ensures ReadCommand(SEND + rest + ['\n']) == ReadArguments(Split(rest, ' '))
  {
    Unwrap(SEND, rest);
  }

  lemma {:induction false} ReadArgumentsOf(pane: string, data: seq<byte>)
    ensures ReadArguments([pane, HEX_FLAG] + Words(data)) == Some((pane, data))
  {
    ReadWords(data);
    assert ([pane, HEX_FLAG] + Words(data))[2..] == Words(data);
  }

  lemma {:induction false} Unwrap(prefix: string, rest: string)
    ensures var t := prefix + rest + ['\n'];
            t[..|t| - 1] == prefix + rest && StripPrefix(t[..|t| - 1], prefix) == Some(rest)
  {
    assert (prefix + rest)[|prefix|..] == rest;
  }

  lemma {:induction false} SplitArguments(pane: string, flag: string, data: seq<byte>)
    requires ' ' !in pane && ' ' !in flag && data != []
    ensures Split(pane + [' '] + (flag + [' '] + Spaced(data)), ' ') == [pane, flag] + Words(data)
  {
    SplitOf(pane, ' ', flag + [' '] + Spaced(data));
    SplitOf(flag, ' ', Spaced(data));
    SplitSpaced(data);
  }

  /** Read back as tmux would, either end's text gives the pane and bytes, and is one line. */
  lemma {:induction false} BothTextsReadBack(pane: string, data: seq<byte>)
    requires IsPaneId(pane) && data != []
    ensures AgentText(pane, data).Some?
    ensures ReadCommand(AgentText(pane, data).value) == ReadCommand(ServerText(pane, data)) == Some((pane, data))
    ensures var t := ServerText(pane, data); t != [] && t[|t| - 1] == '\n' && '\n' !in t[..|t| - 1]
  {
    AgentWritesCommand(pane, data);
    ServerWritesCommand(pane, data);
    CommandRoundTrip(pane, data);
    OneNewline(pane, data);
  }
}
