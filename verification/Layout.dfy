/**
 The tmux layout grammar: a tree of panes printed as `COLSxROWS,X,Y` headers, with `[...]` around
 stacked children, `{...}` around side-by-side children and a pane id at each leaf.
 */
module Layout {
  import opened Text

  type u16 = n: int | 0 <= n <= 0xFFFF
  type u32 = n: int | 0 <= n <= 0xFFFF_FFFF

  datatype PaneLayout = PaneLayout(cols: u16, rows: u16, x: u16, y: u16, node: LayoutNode)

  datatype LayoutNode =
    | Pane(paneId: u32)
    | VSplit(vertical: seq<PaneLayout>)
    | HSplit(horizontal: seq<PaneLayout>)

  datatype Parse<T> = Failed | Parsed(value: T, rest: string)

  // ---------------------------------------------------------------- the header

  /** The position of the `n`-th comma, or the length when there are fewer. */
  function NthComma(s: string, n: nat): (k: nat)
    requires n >= 1
    ensures k <= |s|
  {
    if s == [] then 0
    else if s[0] != ',' then 1 + NthComma(s[1..], n)
    else if n == 1 then 0
    else 1 + NthComma(s[1..], n - 1)
  }

  /** The header stops at the third comma before the first opening bracket, or at that bracket. */
  function HeaderEnd(s: string): (k: nat)
    ensures k <= |s|
  {
    NthComma(s[..FindAny(s, "[{")], 3)
  }

  method SplitHeader(s: string) returns (header: string, rest: string)
    ensures header == s[..HeaderEnd(s)] && rest == s[HeaderEnd(s)..]
  {
    var end := FindAny(s, "[{");
    var commaCount := 0;
    var headerEnd := end;
    ghost var front := s[..end];
    for i := 0 to end
      invariant headerEnd == end && 0 <= commaCount < 3
      invariant HeaderEnd(s) == i + NthComma(front[i..], 3 - commaCount)
    {
      assert front[i..][0] == s[i] && front[i..][1..] == front[i + 1..];
      if s[i] == ',' {
        commaCount := commaCount + 1;
        if commaCount == 3 {
          headerEnd := i;
          break;
        }
      }
    }
    header, rest := s[..headerEnd], s[headerEnd..];
  }

  function Dimensions(header: string): Option<(u16, u16, u16, u16)> {
    DimensionsOf(Split(header, ','))
  }

  function DimensionsOf(parts: seq<string>): Option<(u16, u16, u16, u16)> {
    if |parts| < 3 then None
    else
      var size := SplitOnce(parts[0], 'x');
      if size.None? then None
      else
        var cols, rows := ParseUnsigned(size.value.0, MAX_U16), ParseUnsigned(size.value.1, MAX_U16);
        var x, y := ParseUnsigned(parts[1], MAX_U16), ParseUnsigned(parts[2], MAX_U16);
        if cols.Some? && rows.Some? && x.Some? && y.Some?
        then Some((cols.value, rows.value, x.value, y.value))
        else None
  }

  // ---------------------------------------------------------------- the parser

  function DigitsEnd(s: string): (k: nat)
    ensures k <= |s| && AllDigits(s[..k])
    ensures k < |s| ==> !IsDigit(s[k])
  {
    if s == [] || !IsDigit(s[0]) then 0 else 1 + DigitsEnd(s[1..])
  }

  /** A leaf's pane id is optional and defaults to 0. */
  function ParsePaneId(s: string): (r: Parse<u32>)
    ensures r.Parsed? ==> |r.rest| <= |s|
  {
    var digits := AfterComma(s);
    var end := DigitsEnd(digits);
    if end == 0 then Parsed(0, digits)
    else
      var id := ParseUnsigned(digits[..end], MAX_U32);
      if id.Some? then Parsed(id.value, digits[end..]) else Failed
  }

  function ParseNode(s: string): (r: Parse<PaneLayout>)
    ensures r.Parsed? ==> |r.rest| < |s|
    decreases |s|, 1
  {
    var end := HeaderEnd(s);
    var dims := Dimensions(s[..end]);
    if dims.None? then Failed
    else
      assert end > 0;
      var node := ParseBody(s[end..]);
      if node.Failed? then Failed
      else
        var (cols, rows, x, y) := dims.value;
        Parsed(PaneLayout(cols, rows, x, y, node.value), node.rest)
  }

  /** What follows a header: bracketed children, or a pane id. */
  function ParseBody(s: string): (r: Parse<LayoutNode>)
    ensures r.Parsed? ==> |r.rest| <= |s|
    decreases |s|, 0
  {
    if s != [] && s[0] == '[' then
      var children := ParseChildren(s[1..], ']');
      if children.Failed? then Failed else Parsed(VSplit(children.value), children.rest)
    else if s != [] && s[0] == '{' then
      var children := ParseChildren(s[1..], '}');
      if children.Failed? then Failed else Parsed(HSplit(children.value), children.rest)
    else
      var id := ParsePaneId(s);
      if id.Failed? then Failed else Parsed(Pane(id.value), id.rest)
  }

  function ParseChildren(s: string, close: char): (r: Parse<seq<PaneLayout>>)
    ensures r.Parsed? ==> |r.rest| < |s|
    decreases |s|, 2
  {
    if s != [] && s[0] == close then Parsed([], s[1..])
    else
      var child := ParseNode(AfterComma(s));
      if child.Failed? then Failed
      else
        Prepend([child.value], ParseChildren(child.rest, close))
  }

  function Prepend(children: seq<PaneLayout>, r: Parse<seq<PaneLayout>>): Parse<seq<PaneLayout>> {
    if r.Failed? then Failed else Parsed(children + r.value, r.rest)
  }

  /** A comma before a child or a pane id is skipped if it is there. */
  function AfterComma(s: string): (r: string)
    ensures |r| <= |s|
  {
    if s != [] && s[0] == ',' then s[1..] else s
  }

  method ParseNodeByLoop(s: string) returns (r: Parse<PaneLayout>)
    ensures r == ParseNode(s)
    decreases |s|, 1
  {
    var header, rest := SplitHeader(s);
    var dims := Dimensions(header);
    if dims.None? { return Failed; }
    var (cols, rows, x, y) := dims.value;
    if rest != [] && rest[0] == '[' {
      var children := ParseChildrenByLoop(rest[1..], ']');
      if children.Failed? { return Failed; }
      r := Parsed(PaneLayout(cols, rows, x, y, VSplit(children.value)), children.rest);
    } else if rest != [] && rest[0] == '{' {
      var children := ParseChildrenByLoop(rest[1..], '}');
      if children.Failed? { return Failed; }
      r := Parsed(PaneLayout(cols, rows, x, y, HSplit(children.value)), children.rest);
    } else {
      var id := ParsePaneId(rest);
      if id.Failed? { return Failed; }
      r := Parsed(PaneLayout(cols, rows, x, y, Pane(id.value)), id.rest);
    }
  }

  method ParseChildrenByLoop(s: string, close: char) returns (r: Parse<seq<PaneLayout>>)
    ensures r == ParseChildren(s, close)
    decreases |s|, 2
  {
    var children: seq<PaneLayout> := [];
    var rem := s;
    PrependNone(ParseChildren(s, close));
    while true
      invariant |rem| <= |s|
      invariant ParseChildren(s, close) == Prepend(children, ParseChildren(rem, close))
      decreases |rem|
    {
      if rem != [] && rem[0] == close {
        assert children + [] == children;
        return Parsed(children, rem[1..]);
      }
      ghost var start := rem;
      if rem != [] && rem[0] == ',' {
        rem := rem[1..];
      }
      assert rem == AfterComma(start);
      var child := ParseNodeByLoop(rem);
      if child.Failed? { return Failed; }
      PrependOne(children, child.value, ParseChildren(child.rest, close));
      children := children + [child.value];
      rem := child.rest;
    }
  }

  lemma {:induction false} PrependNone(r: Parse<seq<PaneLayout>>)
    ensures Prepend([], r) == r
  {
    if r.Parsed? {
      assert [] + r.value == r.value;
    }
  }

  lemma {:induction false} PrependOne(children: seq<PaneLayout>, child: PaneLayout, r: Parse<seq<PaneLayout>>)
    ensures Prepend(children + [child], r) == Prepend(children, Prepend([child], r))
  {
    if r.Parsed? {
      assert children + ([child] + r.value) == (children + [child]) + r.value;
    }
  }

  predicate IsAlphanumeric(c: char) {
    IsDigit(c) || 'a' <= c <= 'z' || 'A' <= c <= 'Z'
  }

  predicate IsChecksum(s: string) {
    |s| == 4 && forall i :: 0 <= i < |s| ==> IsAlphanumeric(s[i])
  }

  /** The text without surrounding whitespace and checksum. */
  function LayoutBody(text: string): string {
    var s := Trim(text);
    var comma := FindAny(s, ",");
    if comma < |s| && IsChecksum(s[..comma]) then s[comma + 1..] else s
  }

  /** What the first node leaves unread is dropped. */
  function ParseLayout(text: string): Option<PaneLayout> {
    var r := ParseNode(LayoutBody(text));
    if r.Failed? then None else Some(r.value)
  }

  // ---------------------------------------------------------------- the printer

  function Size(t: PaneLayout): string {
    Dec(t.cols) + ['x'] + Dec(t.rows)
  }

  function Header(t: PaneLayout): string {
    Size(t) + [','] + (Dec(t.x) + [','] + Dec(t.y))
  }

  function Print(t: PaneLayout): string
    decreases t
  {
    Header(t) + PrintBody(t.node)
  }

  function PrintBody(node: LayoutNode): (s: string)
    ensures s != [] && s[0] in ",[{"
    decreases node
  {
    match node
    case Pane(id) => [','] + Dec(id)
    case VSplit(children) => ['['] + (PrintList(children) + [']'])
    case HSplit(children) => ['{'] + (PrintList(children) + ['}'])
  }

  function PrintList(children: seq<PaneLayout>): string
    decreases children, 1
  {
    if children == [] then "" else Print(children[0]) + PrintMore(children[1..])
  }

  function PrintMore(children: seq<PaneLayout>): string
    decreases children, 0
  {
    if children == [] then "" else [','] + Print(children[0]) + PrintMore(children[1..])
  }

  // ---------------------------------------------------------------- reading the header back

  lemma {:induction false} NthCommaSkip(a: string, b: string, n: nat)
    requires n >= 1 && ',' !in a
    ensures NthComma(a + b, n) == |a| + NthComma(b, n)
  {
    if a == [] {
      assert a + b == b;
    } else {
      assert (a + b)[1..] == a[1..] + b;
      NthCommaSkip(a[1..], b, n);
    }
  }

  lemma {:induction false} NthCommaStep(a: string, b: string, n: nat)
    requires n >= 2 && ',' !in a
    ensures NthComma(a + [','] + b, n) == |a| + 1 + NthComma(b, n - 1)
  {
    assert a + [','] + b == a + ([','] + b);
    NthCommaSkip(a, [','] + b, n);
    assert ([','] + b)[1..] == b;
  }

  /** Characters a header is printed with */
  predicate IsPlain(c: char) {
    IsDigit(c) || c == '+' || c == 'x' || c == ','
  }

  predicate AllPlain(s: string) {
    forall i :: 0 <= i < |s| ==> IsPlain(s[i])
  }

  lemma {:induction false} DigitsHoldNo(s: string, c: char)
    requires AllDigits(s) && !IsDigit(c)
    ensures c !in s
  {}

  lemma {:induction false} HeaderCommas(t: PaneLayout, tail: string)
    ensures NthComma(Header(t) + tail, 3) == |Header(t)| + NthComma(tail, 1)
  {
    var y := Dec(t.y);
    assert ',' !in Size(t) && ',' !in Dec(t.x) && ',' !in y;
    assert Header(t) + tail == Size(t) + [','] + (Dec(t.x) + [','] + (y + tail));
    NthCommaStep(Size(t), Dec(t.x) + [','] + (y + tail), 3);
    NthCommaStep(Dec(t.x), y + tail, 2);
    NthCommaSkip(y, tail, 1);
  }

  lemma {:induction false} HeaderIsPlain(t: PaneLayout)
    ensures AllPlain(Header(t)) && Header(t) != [] && IsDigit(Header(t)[0])
  {}

  lemma {:induction false} SplitThree(a: string, b: string, c: string)
    requires ',' !in a && ',' !in b && ',' !in c
    ensures Split(a + [','] + (b + [','] + c), ',') == [a, b, c]
  {
    SplitOf(a, ',', b + [','] + c);
    SplitOf(b, ',', c);
    SplitWhole(c, ',');
  }

  lemma {:induction false} DimensionsOfHeader(t: PaneLayout)
    ensures Dimensions(Header(t)) == Some((t.cols, t.rows, t.x, t.y))
  {
    DigitsHoldNo(Dec(t.x), ',');
    DigitsHoldNo(Dec(t.y), ',');
    SizeHoldsNoComma(t);
    SplitThree(Size(t), Dec(t.x), Dec(t.y));
    DimensionsOfNumbers(Dec(t.cols), Dec(t.rows), Dec(t.x), Dec(t.y), t);
  }

  lemma {:induction false} SizeHoldsNoComma(t: PaneLayout)
    ensures ',' !in Size(t)
  {}

  lemma {:induction false} DimensionsOfNumbers(cols: string, rows: string, x: string, y: string, t: PaneLayout)
    requires cols == Dec(t.cols) && rows == Dec(t.rows) && x == Dec(t.x) && y == Dec(t.y)
    ensures DimensionsOf([cols + ['x'] + rows, x, y]) == Some((t.cols, t.rows, t.x, t.y))
  {
    SplitOnceOf(cols, 'x', rows);
    ParseOfDec(t.cols, MAX_U16);
    ParseOfDec(t.rows, MAX_U16);
    ParseOfDec(t.x, MAX_U16);
    ParseOfDec(t.y, MAX_U16);
  }

  /** The header is found again whatever follows it, if that starts with a comma or a bracket. */
  lemma {:induction false} HeaderEndOf(t: PaneLayout, tail: string)
    requires tail != [] && tail[0] in ",[{"
    ensures HeaderEnd(Header(t) + tail) == |Header(t)|
  {
    var s, h := Header(t) + tail, |Header(t)|;
    var end := FindAny(s, "[{");
    HeaderIsPlain(t);
    assert end >= h by {
      assert forall i :: 0 <= i < h ==> IsPlain(s[i]);
    }
    assert s[..end] == Header(t) + tail[..end - h];
    HeaderCommas(t, tail[..end - h]);
    if tail[0] == ',' {
      assert s[h] == ',';
      assert tail[..end - h][0] == ',';
    } else {
      assert s[h] == tail[0];
      FindAnyIs(s, "[{", h);
    }
  }

  // ---------------------------------------------------------------- round trip

  predicate NoDigitFirst(s: string) {
    s == [] || !IsDigit(s[0])
  }

  lemma {:induction false} DigitsEndIs(digits: string, rest: string)
    requires AllDigits(digits) && NoDigitFirst(rest)
    ensures DigitsEnd(digits + rest) == |digits|
  {
    if digits != [] {
      assert (digits + rest)[1..] == digits[1..] + rest;
      DigitsEndIs(digits[1..], rest);
    } else {
      assert digits + rest == rest;
    }
  }

  lemma {:induction false} PaneIdOf(digits: string, id: u32, rest: string)
    requires digits != [] && AllDigits(digits) && ParseUnsigned(digits, MAX_U32) == Some(id)
    requires NoDigitFirst(rest)
    ensures ParsePaneId([','] + digits + rest) == Parsed(id, rest)
  {
    var s := [','] + digits + rest;
    assert s[1..] == digits + rest;
    DigitsEndIs(digits, rest);
    assert s[1..][..|digits|] == digits && s[1..][|digits|..] == rest;
  }

  lemma {:induction false} ParseHeader(t: PaneLayout, tail: string)
    requires tail != [] && tail[0] in ",[{"
    ensures var s := Header(t) + tail;
            && Dimensions(s[..HeaderEnd(s)]) == Some((t.cols, t.rows, t.x, t.y))
            && s[HeaderEnd(s)..] == tail
  {
    var s := Header(t) + tail;
    HeaderEndOf(t, tail);
    assert s[..|Header(t)|] == Header(t) && s[|Header(t)|..] == tail;
    DimensionsOfHeader(t);
  }

  /** Printing any tree and parsing it returns that tree and whatever followed it. */
  lemma {:induction false} NodeRoundTrip(t: PaneLayout, rest: string)
    requires t.node.Pane? ==> NoDigitFirst(rest)
    ensures ParseNode(Print(t) + rest) == Parsed(t, rest)
    decreases t, 0
  {
    var tail := PrintBody(t.node) + rest;
    assert Print(t) + rest == Header(t) + tail;
    ParseHeader(t, tail);
    BodyRoundTrip(t.node, rest);
  }

  lemma {:induction false} BodyRoundTrip(node: LayoutNode, rest: string)
    requires node.Pane? ==> NoDigitFirst(rest)
    ensures ParseBody(PrintBody(node) + rest) == Parsed(node, rest)
    decreases node, 0
  {
    var s := PrintBody(node) + rest;
    match node
    case Pane(id) =>
      ParseOfDec(id, MAX_U32);
      PaneIdOf(Dec(id), id, rest);
    case VSplit(children) =>
      assert s[1..] == PrintList(children) + ([']'] + rest);
      ListRoundTrip(children, ']', rest);
    case HSplit(children) =>
      assert s[1..] == PrintList(children) + (['}'] + rest);
      ListRoundTrip(children, '}', rest);
  }

  lemma {:induction false} ListRoundTrip(children: seq<PaneLayout>, close: char, rest: string)
    requires close == ']' || close == '}'
    ensures ParseChildren(PrintList(children) + ([close] + rest), close) == Parsed(children, rest)
    decreases children, 2
  {
    var s := PrintList(children) + ([close] + rest);
    if children == [] {
      assert s == [close] + rest && s[1..] == rest;
    } else {
      var tail := PrintMore(children[1..]) + ([close] + rest);
      MoreRoundTrip(children[1..], close, rest);
      NodeRoundTrip(children[0], tail);
      Associative(Print(children[0]), PrintMore(children[1..]), [close] + rest);
      PrintEnds(children[0]);
      ChildFirst(s, close, children[0], tail);
      Prepended(children, rest);
    }
  }

  lemma {:induction false} MoreRoundTrip(children: seq<PaneLayout>, close: char, rest: string)
    requires close == ']' || close == '}'
    ensures ParseChildren(PrintMore(children) + ([close] + rest), close) == Parsed(children, rest)
    ensures NoDigitFirst(PrintMore(children) + ([close] + rest))
    decreases children, 1
  {
    var s := PrintMore(children) + ([close] + rest);
    if children == [] {
      assert s == [close] + rest && s[1..] == rest;
    } else {
      var tail := PrintMore(children[1..]) + ([close] + rest);
      MoreRoundTrip(children[1..], close, rest);
      NodeRoundTrip(children[0], tail);
      CommaFirst(Print(children[0]), PrintMore(children[1..]), [close] + rest);
      ChildFirst(s, close, children[0], tail);
      Prepended(children, rest);
    }
  }

  lemma {:induction false} Prepended(children: seq<PaneLayout>, rest: string)
    requires children != []
    ensures Prepend([children[0]], Parsed(children[1..], rest)) == Parsed(children, rest)
  {
    assert [children[0]] + children[1..] == children;
  }

  lemma {:induction false} ChildFirst(s: string, close: char, child: PaneLayout, tail: string)
    requires s != [] && s[0] != close && ParseNode(AfterComma(s)) == Parsed(child, tail)
    ensures ParseChildren(s, close) == Prepend([child], ParseChildren(tail, close))
  {}

  lemma {:induction false} CommaFirst(a: string, b: string, c: string)
    ensures var s := [','] + a + b + c; s[0] == ',' && AfterComma(s) == a + (b + c)
  {}

  lemma {:induction false} HeaderAlone(t: PaneLayout)
    ensures HeaderEnd(Header(t)) == |Header(t)|
  {
    HeaderIsPlain(t);
    FindAnyIs(Header(t), "[{", |Header(t)|);
    HeaderCommas(t, "");
    assert Header(t) + "" == Header(t) == Header(t)[..|Header(t)|];
  }

  lemma {:induction false} BodyAlone()
    ensures ParseBody("") == ParseBody([',']) == Parsed(Pane(0), "")
  {
    assert [','][1..] == "";
  }

  /** A leaf at the end of the text may leave its pane id out; it is then 0. */
  lemma {:induction false} LeafWithoutId(t: PaneLayout)
    requires t.node == Pane(0)
    ensures ParseNode(Header(t)) == Parsed(t, "") && ParseNode(Header(t) + [',']) == Parsed(t, "")
  {
    HeaderAlone(t);
    DimensionsOfHeader(t);
    assert Header(t)[..|Header(t)|] == Header(t) && Header(t)[|Header(t)|..] == "";
    ParseHeader(t, [',']);
    BodyAlone();
    NodeOf(Header(t), t, "");
    NodeOf(Header(t) + [','], t, [',']);
  }

  lemma {:induction false} NodeOf(s: string, t: PaneLayout, tail: string)
    requires Dimensions(s[..HeaderEnd(s)]) == Some((t.cols, t.rows, t.x, t.y)) && s[HeaderEnd(s)..] == tail
    requires ParseBody(tail) == Parsed(t.node, "")
    ensures ParseNode(s) == Parsed(t, "")
  {}

  /** Printing what any text parsed to, and parsing that, gives the same tree. */
  lemma {:induction false} ReparseIsStable(s: string)
    requires ParseNode(s).Parsed?
    ensures ParseNode(Print(ParseNode(s).value)) == Parsed(ParseNode(s).value, "")
  {
    var t := ParseNode(s).value;
    NodeRoundTrip(t, "");
    assert Print(t) + "" == Print(t);
  }

  /** A leaf as tmux prints it: columns, rows, position and pane id. */
  lemma {:induction false} LeafExample()
    ensures Print(PaneLayout(80, 24, 0, 1, Pane(2))) == "80x24,0,1,2"
  {
    assert Dec(8) == "8" && Dec(2) == "2" && Dec(0) == "0" && Dec(1) == "1";
    assert Dec(80) == "80" && Dec(24) == "24";
  }

  /** A split as tmux prints it: braces around panes side by side, brackets around stacked ones. */
  lemma {:induction false} SplitPrinted(t: PaneLayout, a: PaneLayout, b: PaneLayout)
    requires t.node == HSplit([a, b]) || t.node == VSplit([a, b])
    ensures var inner := Print(a) + ("," + Print(b));
            Print(t) == Header(t) + if t.node.HSplit? then "{" + (inner + "}") else "[" + (inner + "]")
  {
    assert [a, b][1..] == [b] && [b][1..] == [];
    assert PrintMore([b]) == "," + Print(b) + PrintMore([]) == "," + Print(b);
    assert PrintList([a, b]) == Print(a) + PrintMore([b]);
    var inner := Print(a) + ("," + Print(b));
    assert PrintBody(t.node) == if t.node.HSplit? then "{" + (inner + "}") else "[" + (inner + "]");
  }

  // ---------------------------------------------------------------- the checksum

  lemma {:induction false} PrintEnds(t: PaneLayout)
    ensures Print(t) != [] && IsDigit(Print(t)[0])
    ensures var last := Print(t)[|Print(t)| - 1]; IsDigit(last) || last == ']' || last == '}'
  {
    HeaderIsPlain(t);
    var body := PrintBody(t.node);
    assert Print(t)[0] == Header(t)[0];
    assert Print(t)[|Print(t)| - 1] == body[|body| - 1];
  }

  lemma {:induction false} TrimKeeps(s: string)
    requires s != [] && !IsWhitespace(s[0]) && !IsWhitespace(s[|s| - 1])
    ensures Trim(s) == s
  {}

  lemma {:induction false} SizeIsFirst(t: PaneLayout)
    ensures FindAny(Print(t), ",") == |Size(t)| && Print(t)[..|Size(t)|] == Size(t)
    ensures |Size(t)| < |Print(t)|
  {
    assert ',' !in Size(t);
    var after := Dec(t.x) + [','] + Dec(t.y) + PrintBody(t.node);
    assert Print(t) == Size(t) + ([','] + after);
    FindAnyIs(Print(t), ",", |Size(t)|);
  }

  lemma {:induction false} SizeIsAlphanumeric(t: PaneLayout)
    ensures forall i :: 0 <= i < |Size(t)| ==> IsAlphanumeric(Size(t)[i])
  {}

  /** With four letters and digits and a comma in front, and blanks around, every tree comes back. */
  lemma {:induction false} ChecksumRoundTrip(before: string, checksum: string, t: PaneLayout, after: string)
    requires IsBlank(before) && IsBlank(after) && |checksum| == 4
    requires forall i :: 0 <= i < 4 ==>
               '0' <= checksum[i] <= '9' || 'a' <= checksum[i] <= 'z' || 'A' <= checksum[i] <= 'Z'
    ensures ParseLayout(before + (checksum + [','] + Print(t)) + after) == Some(t)
  {
    var s := checksum + [','] + Print(t);
    PrintEnds(t);
    assert s[|s| - 1] == Print(t)[|Print(t)| - 1];
    assert s[0] == checksum[0];
    TrimPadded(before, s, after);
    assert ',' !in checksum && IsChecksum(checksum);
    FindAnyIs(s, ",", 4);
    assert s[..4] == checksum && s[5..] == Print(t);
    NodeRoundTrip(t, "");
    assert Print(t) + "" == Print(t);
  }

  /** Without one, a tree comes back exactly when its leading size is not four characters long:
      a four-character size is itself taken for a checksum, and what is left never parses. */
  lemma {:induction false} PlainRoundTrip(t: PaneLayout)
    ensures ParseLayout(Print(t)) == if |Size(t)| == 4 then None else Some(t)
  {
    PrintEnds(t);
    TrimKeeps(Print(t));
    SizeIsFirst(t);
    SizeIsAlphanumeric(t);
    if |Size(t)| == 4 {
      var after := Dec(t.x) + [','] + (Dec(t.y) + PrintBody(t.node));
      assert Print(t) == Size(t) + [','] + after;
      assert Print(t)[5..] == after;
      NoSizeNoParse(Dec(t.x), Dec(t.y) + PrintBody(t.node));
    } else {
      NodeRoundTrip(t, "");
      assert Print(t) + "" == Print(t);
    }
  }

  /** A text whose first comma-separated part is a number alone is never a node. */
  lemma {:induction false} NoSizeNoParse(number: string, after: string)
    requires AllDigits(number)
    ensures ParseNode(number + [','] + after).Failed?
  {
    var s := number + [','] + after;
    var end := HeaderEnd(s);
    var header := s[..end];
    if |number| < end {
      assert header == number + [','] + s[|number| + 1..end];
      SplitOf(number, ',', s[|number| + 1..end]);
      FindAnyIs(number, ['x'], |number|);
    } else {
      assert AllDigits(header) by { assert forall i :: 0 <= i < end ==> header[i] == number[i]; }
      SplitWhole(header, ',');
    }
  }

  // ---------------------------------------------------------------- what a success consumes

  predicate IsBracket(c: char) {
    c == '[' || c == ']' || c == '{' || c == '}'
  }

  /** The stack of closers still owed after a character; other characters do not matter. */
  function Owe(c: char, owed: string): Option<string> {
    if c == '[' then Some([']'] + owed)
    else if c == '{' then Some(['}'] + owed)
    else if c == ']' || c == '}' then if owed != [] && owed[0] == c then Some(owed[1..]) else None
    else Some(owed)
  }

  /** Matches brackets, each by its own kind. */
  function Scan(s: string, owed: string): Option<string> {
    if s == [] then Some(owed)
    else
      var next := Owe(s[0], owed);
      if next.None? then None else Scan(s[1..], next.value)
  }

  lemma {:induction false} ScanAppend(a: string, b: string, owed: string, between: string)
    requires Scan(a, owed) == Some(between)
    ensures Scan(a + b, owed) == Scan(b, between)
    decreases |a|
  {
    if a == [] {
      assert a + b == b;
    } else {
      assert (a + b)[1..] == a[1..] + b;
      ScanAppend(a[1..], b, Owe(a[0], owed).value, between);
    }
  }

  /** Scanning takes `owed` to `left` and never goes below `floor` closers on the way. */
  predicate Keeps(s: string, owed: string, floor: nat, left: string)
    decreases |s|
  {
    && |owed| >= floor
    && if s == [] then owed == left
       else Owe(s[0], owed).Some? && Keeps(s[1..], Owe(s[0], owed).value, floor, left)
  }

  /** The last character, and none before it, brings the stack down to `left`. */
  predicate Closes(s: string, owed: string, left: string)
    decreases |s|
  {
    && s != [] && |owed| > |left| && Owe(s[0], owed).Some?
    && if |s| == 1 then Owe(s[0], owed).value == left else Closes(s[1..], Owe(s[0], owed).value, left)
  }

  lemma {:induction false} KeepsAppend(a: string, b: string, owed: string, floor: nat, between: string, left: string)
    requires Keeps(a, owed, floor, between) && Keeps(b, between, floor, left)
    ensures Keeps(a + b, owed, floor, left)
    decreases |a|
  {
    if a == [] {
      assert a + b == b;
    } else {
      assert (a + b)[1..] == a[1..] + b;
      KeepsAppend(a[1..], b, Owe(a[0], owed).value, floor, between, left);
    }
  }

  lemma {:induction false} KeepsThenCloses(a: string, b: string, owed: string, between: string, left: string)
    requires Keeps(a, owed, |left| + 1, between) && Closes(b, between, left)
    ensures Closes(a + b, owed, left)
    decreases |a|
  {
    if a == [] {
      assert a + b == b;
    } else {
      assert (a + b)[1..] == a[1..] + b;
      KeepsThenCloses(a[1..], b, Owe(a[0], owed).value, between, left);
    }
  }

  lemma {:induction false} ClosesKeeps(s: string, owed: string, left: string)
    requires Closes(s, owed, left)
    ensures Keeps(s, owed, |left|, left)
    decreases |s|
  {
    if |s| == 1 {
      assert s[1..] == [];
    } else {
      ClosesKeeps(s[1..], Owe(s[0], owed).value, left);
    }
  }

  lemma {:induction false} KeepsScans(s: string, owed: string, floor: nat, left: string)
    requires Keeps(s, owed, floor, left)
    ensures Scan(s, owed) == Some(left)
    decreases |s|
  {
    if s != [] {
      KeepsScans(s[1..], Owe(s[0], owed).value, floor, left);
    }
  }

  /** Text without brackets changes nothing. */
  lemma {:induction false} PlainKeeps(s: string, owed: string)
    requires HasNoBracket(s)
    ensures Keeps(s, owed, |owed|, owed)
  {
    if s != [] {
      PlainKeeps(s[1..], owed);
    }
  }

  lemma {:induction false} CommaIsFound(s: string, k: nat)
    requires k < |s| && s[k] == ','
    ensures NthComma(s, 1) < |s|
  {
    if s[0] != ',' {
      CommaIsFound(s[1..], k - 1);
    }
  }

  /** Text without a third comma has at most three parts. */
  lemma {:induction false} FewParts(s: string, n: nat)
    requires n >= 1 && NthComma(s, n) == |s|
    ensures |Split(s, ',')| <= n
    decreases n
  {
    var k := FindAny(s, [',']);
    if k < |s| {
      if n >= 2 {
        assert s == s[..k] + [','] + s[k + 1..];
        NthCommaStep(s[..k], s[k + 1..], n);
      } else {
        CommaIsFound(s, k);
      }
      FewParts(s[k + 1..], n - 1);
    }
  }

  predicate HasNoBracket(s: string) {
    forall i :: 0 <= i < |s| ==> !IsBracket(s[i])
  }

  lemma {:induction false} PartsCoverText(s: string, sep: char)
    requires !IsBracket(sep)
    requires forall i :: 0 <= i < |Split(s, sep)| ==> HasNoBracket(Split(s, sep)[i])
    ensures HasNoBracket(s)
    decreases |s|
  {
    var k := FindAny(s, [sep]);
    var parts := Split(s, sep);
    assert HasNoBracket(parts[0]);
    if k < |s| {
      var rest := Split(s[k + 1..], sep);
      assert parts == [s[..k]] + rest;
      forall i | 0 <= i < |rest| ensures HasNoBracket(rest[i]) {
        assert rest[i] == parts[i + 1];
      }
      PartsCoverText(s[k + 1..], sep);
      WholeHasNoBracket(s, k);
    } else {
      assert s[..k] == s;
    }
  }

  lemma {:induction false} NumberHasNoBracket(s: string, max: nat)
    requires ParseUnsigned(s, max).Some?
    ensures HasNoBracket(s)
  {
    forall i | 0 <= i < |s| ensures !IsBracket(s[i]) {
      if !(i == 0 && s[0] == '+') {
        var digits := if |s| > 1 && s[0] == '+' then s[1..] else s;
        assert s[i] == digits[i - (|s| - |digits|)];
      }
    }
  }

  lemma {:induction false} SizeHasNoBracket(s: string)
    requires SplitOnce(s, 'x').Some?
    requires ParseUnsigned(SplitOnce(s, 'x').value.0, MAX_U16).Some?
    requires ParseUnsigned(SplitOnce(s, 'x').value.1, MAX_U16).Some?
    ensures HasNoBracket(s)
  {
    NumberHasNoBracket(SplitOnce(s, 'x').value.0, MAX_U16);
    NumberHasNoBracket(SplitOnce(s, 'x').value.1, MAX_U16);
    var k := FindAny(s, ['x']);
    WholeHasNoBracket(s, k);
  }

  lemma {:induction false} WholeHasNoBracket(s: string, k: nat)
    requires k < |s| && !IsBracket(s[k]) && HasNoBracket(s[..k]) && HasNoBracket(s[k + 1..])
    ensures HasNoBracket(s)
  {
    assert s == s[..k] + [s[k]] + s[k + 1..];
  }

  lemma {:induction false} PartsHaveNoBracket(size: string, x: string, y: string)
    requires SplitOnce(size, 'x').Some?
    requires ParseUnsigned(SplitOnce(size, 'x').value.0, MAX_U16).Some?
    requires ParseUnsigned(SplitOnce(size, 'x').value.1, MAX_U16).Some?
    requires ParseUnsigned(x, MAX_U16).Some? && ParseUnsigned(y, MAX_U16).Some?
    ensures HasNoBracket(size) && HasNoBracket(x) && HasNoBracket(y)
  {
    SizeHasNoBracket(size);
    NumberHasNoBracket(x, MAX_U16);
    NumberHasNoBracket(y, MAX_U16);
  }

  lemma {:induction false} PartsParse(parts: seq<string>)
    requires |parts| <= 3 && DimensionsOf(parts).Some?
    ensures |parts| == 3 && ParseUnsigned(parts[1], MAX_U16).Some? && ParseUnsigned(parts[2], MAX_U16).Some?
    ensures SplitOnce(parts[0], 'x').Some?
    ensures ParseUnsigned(SplitOnce(parts[0], 'x').value.0, MAX_U16).Some?
    ensures ParseUnsigned(SplitOnce(parts[0], 'x').value.1, MAX_U16).Some?
  {}

  lemma {:induction false} DimensionsHaveNoBracket(parts: seq<string>)
    requires |parts| <= 3 && DimensionsOf(parts).Some?
    ensures forall i :: 0 <= i < |parts| ==> HasNoBracket(parts[i])
  {
    PartsParse(parts);
    PartsHaveNoBracket(parts[0], parts[1], parts[2]);
    forall i | 0 <= i < |parts| ensures HasNoBracket(parts[i]) {
      assert i == 0 || i == 1 || i == 2;
    }
  }

  lemma {:induction false} HeaderHasNoBracket(header: string)
    requires Dimensions(header).Some? && NthComma(header, 3) == |header|
    ensures HasNoBracket(header)
  {
    FewParts(header, 3);
    DimensionsHaveNoBracket(Split(header, ','));
    PartsCoverText(header, ',');
  }

  lemma {:induction false} NthCommaOfPrefix(s: string, n: nat)
    requires n >= 1
    ensures NthComma(s[..NthComma(s, n)], n) == NthComma(s, n)
  {
    var k := NthComma(s, n);
    if s != [] && k > 0 {
      assert s[..k][1..] == s[1..][..k - 1];
      NthCommaOfPrefix(s[1..], if s[0] == ',' then n - 1 else n);
    }
  }

  lemma {:induction false} HeaderKeeps(s: string, owed: string)
    requires Dimensions(s[..HeaderEnd(s)]).Some?
    ensures Keeps(s[..HeaderEnd(s)], owed, |owed|, owed)
  {
    var front := s[..FindAny(s, "[{")];
    NthCommaOfPrefix(front, 3);
    assert front[..HeaderEnd(s)] == s[..HeaderEnd(s)];
    HeaderHasNoBracket(s[..HeaderEnd(s)]);
    PlainKeeps(s[..HeaderEnd(s)], owed);
  }

  /** The comma skipped before `tail`, if it was there, and `tail`. */
  function WithComma(s: string, tail: string): string {
    if s != [] && s[0] == ',' then [','] + tail else tail
  }

  lemma {:induction false} CommaTaken(s: string, tail: string, rest: string)
    requires AfterComma(s) == tail + rest
    ensures s == WithComma(s, tail) + rest
  {
    if s != [] && s[0] == ',' { assert s == [','] + s[1..]; }
  }

  lemma {:induction false} CommaKeeps(s: string, tail: string, owed: string, floor: nat, left: string)
    requires |owed| >= floor
    ensures Keeps(tail, owed, floor, left) ==> Keeps(WithComma(s, tail), owed, floor, left)
    ensures Closes(tail, owed, left) ==> Closes(WithComma(s, tail), owed, left)
  {
    assert ([','] + tail)[1..] == tail;
  }

  lemma {:induction false} PaneIdConsumes(s: string, owed: string) returns (taken: string)
    requires ParsePaneId(s).Parsed?
    ensures s == taken + ParsePaneId(s).rest && Keeps(taken, owed, |owed|, owed)
  {
    var digits := AfterComma(s);
    var number := digits[..DigitsEnd(digits)];
    assert digits == number + ParsePaneId(s).rest;
    PlainKeeps(number, owed);
    CommaTaken(s, number, ParsePaneId(s).rest);
    CommaKeeps(s, number, owed, |owed|, owed);
    taken := WithComma(s, number);
  }

  /** A parsed node takes a nonempty piece off the front of the text whose brackets are all matched
      within it. */
  lemma {:induction false} NodeConsumes(s: string, owed: string) returns (taken: string)
    requires ParseNode(s).Parsed?
    ensures s == taken + ParseNode(s).rest && taken != [] && Scan(taken, owed) == Some(owed)
    ensures Keeps(taken, owed, |owed|, owed)
    decreases |s|, 1, 1
  {
    HeaderKeeps(s, owed);
    taken := HeaderAndBodyConsume(s, HeaderEnd(s), owed);
    KeepsScans(taken, owed, |owed|, owed);
  }

  lemma {:induction false} HeaderAndBodyConsume(s: string, end: nat, owed: string) returns (taken: string)
    requires end <= |s| && Keeps(s[..end], owed, |owed|, owed) && ParseBody(s[end..]).Parsed?
    ensures s == taken + ParseBody(s[end..]).rest && Keeps(taken, owed, |owed|, owed)
    decreases |s|, 1, 0
  {
    var body := BodyConsumes(s[end..], owed);
    taken := s[..end] + body;
    HeaderThenBody(s, end, body, ParseBody(s[end..]).rest, owed);
  }

  lemma {:induction false} HeaderThenBody(s: string, end: nat, body: string, rest: string, owed: string)
    requires end <= |s| && s[end..] == body + rest
    requires Keeps(s[..end], owed, |owed|, owed) && Keeps(body, owed, |owed|, owed)
    ensures s == s[..end] + body + rest && Keeps(s[..end] + body, owed, |owed|, owed)
  {
    KeepsAppend(s[..end], body, owed, |owed|, owed, owed);
    assert s == s[..end] + s[end..];
  }

  predicate IsOpener(c: char) {
    c == '[' || c == '{'
  }

  function CloserOf(c: char): char
    requires IsOpener(c)
  {
    if c == '[' then ']' else '}'
  }

  /** A body is the children behind its bracket, or a pane id. */
  lemma {:induction false} BodyIs(s: string)
    requires ParseBody(s).Parsed?
    ensures if s != [] && IsOpener(s[0]) then
              var children := ParseChildren(s[1..], CloserOf(s[0]));
              children.Parsed? && children.rest == ParseBody(s).rest
            else ParsePaneId(s).Parsed? && ParsePaneId(s).rest == ParseBody(s).rest
  {}

  lemma {:induction false} BodyConsumes(s: string, owed: string) returns (taken: string)
    requires ParseBody(s).Parsed?
    ensures s == taken + ParseBody(s).rest && Keeps(taken, owed, |owed|, owed)
    decreases |s|, 0
  {
    BodyIs(s);
    if s != [] && IsOpener(s[0]) {
      taken := BracketConsumes(s[0], s[1..], owed);
      assert s == [s[0]] + s[1..];
    } else {
      taken := PaneIdConsumes(s, owed);
    }
  }

  lemma {:induction false} BracketConsumes(open: char, s: string, owed: string) returns (taken: string)
    requires IsOpener(open) && ParseChildren(s, CloserOf(open)).Parsed?
    ensures [open] + s == taken + ParseChildren(s, CloserOf(open)).rest && Keeps(taken, owed, |owed|, owed)
    decreases |s|, 3
  {
    var inner := ChildrenConsume(s, CloserOf(open), owed);
    taken := [open] + inner;
    Opened(open, inner, ParseChildren(s, CloserOf(open)).rest, owed);
  }

  lemma {:induction false} Opened(open: char, inner: string, rest: string, owed: string)
    requires IsOpener(open) && Closes(inner, [CloserOf(open)] + owed, owed)
    ensures Keeps([open] + inner, owed, |owed|, owed) && [open] + (inner + rest) == [open] + inner + rest
  {
    ClosesKeeps(inner, [CloserOf(open)] + owed, owed);
    assert ([open] + inner)[1..] == inner;
  }

  /** The children end at the closer that was owed first, and not before. */
  lemma {:induction false} ChildrenConsume(s: string, close: char, owed: string) returns (taken: string)
    requires (close == ']' || close == '}') && ParseChildren(s, close).Parsed?
    ensures s == taken + ParseChildren(s, close).rest && Closes(taken, [close] + owed, owed)
    decreases |s|, 2
  {
    if s != [] && s[0] == close {
      taken := [close];
      Closed(close, owed);
    } else {
      var node := ParseNode(AfterComma(s));
      var first := NodeConsumes(AfterComma(s), [close] + owed);
      var more := ChildrenConsume(node.rest, close, owed);
      taken := WithComma(s, first + more);
      ChildThenMore(s, first, more, ParseChildren(s, close).rest, [close] + owed, owed);
    }
  }

  lemma {:induction false} ChildThenMore(
      s: string, first: string, more: string, rest: string, owed: string, left: string)
    requires |owed| == |left| + 1 && Keeps(first, owed, |owed|, owed) && Closes(more, owed, left)
    requires AfterComma(s) == first + (more + rest)
    ensures s == WithComma(s, first + more) + rest && Closes(WithComma(s, first + more), owed, left)
  {
    KeepsThenCloses(first, more, owed, owed, left);
    assert first + (more + rest) == (first + more) + rest;
    CommaTaken(s, first + more, rest);
    CommaKeeps(s, first + more, owed, |owed|, left);
  }

  lemma {:induction false} Closed(close: char, owed: string)
    requires close == ']' || close == '}'
    ensures Closes([close], [close] + owed, owed)
  {
    assert ([close] + owed)[1..] == owed;
  }

  /** Every success returns a strictly shorter suffix of its input. */
  lemma {:induction false} NodeReturnsSuffix(s: string)
    requires ParseNode(s).Parsed?
    ensures var rest := ParseNode(s).rest; |rest| < |s| && rest == s[|s| - |rest|..]
  {
    var taken := NodeConsumes(s, "");
  }

  /** An opening bracket right after the header that is never closed properly is an error. */
  lemma {:induction false} UnclosedNeverParses(s: string)
    requires HeaderEnd(s) < |s| && s[HeaderEnd(s)] in "[{"
    requires forall k :: HeaderEnd(s) < k <= |s| ==> Scan(s[..k], "") != Some("")
    ensures ParseNode(s).Failed?
  {
    if ParseNode(s).Parsed? {
      var taken := NodeConsumes(s, "");
      assert s[..|taken|] == taken;
      NodeTakesBody(s);
    }
  }

  lemma {:induction false} NodeTakesBody(s: string)
    requires ParseNode(s).Parsed? && HeaderEnd(s) < |s| && s[HeaderEnd(s)] in "[{"
    ensures |ParseNode(s).rest| < |s| - HeaderEnd(s)
  {}

  predicate IsBalanced(s: string) {
    Scan(s, "") == Some("")
  }

  lemma {:induction false} ScanAsRest(s: string)
    requires ParseNode(s).Parsed?
    ensures Scan(s, "") == Scan(ParseNode(s).rest, "")
  {
    var taken := NodeConsumes(s, "");
    ScanAppend(taken, ParseNode(s).rest, "", "");
  }

  lemma {:induction false} ScanTrimStart(s: string)
    ensures Scan(TrimStart(s), "") == Scan(s, "")
  {
    if s != [] && IsWhitespace(s[0]) {
      ScanTrimStart(s[1..]);
    }
  }

  lemma {:induction false} ScanEndsPlainly(s: string, c: char, owed: string)
    requires !IsBracket(c)
    ensures Scan(s + [c], owed) == Scan(s, owed)
    decreases |s|
  {
    if s == [] {
      assert ([] + [c])[1..] == [];
    } else {
      assert (s + [c])[1..] == s[1..] + [c];
      if Owe(s[0], owed).Some? { ScanEndsPlainly(s[1..], c, Owe(s[0], owed).value); }
    }
  }

  lemma {:induction false} ScanTrimEnd(s: string)
    ensures Scan(TrimEnd(s), "") == Scan(s, "")
  {
    if s != [] && IsWhitespace(s[|s| - 1]) {
      var front, last := s[..|s| - 1], s[|s| - 1];
      ScanTrimEnd(front);
      ScanEndsPlainly(front, last, "");
      assert s == front + [last];
    }
  }

  lemma {:induction false} ScanBody(text: string)
    ensures Scan(LayoutBody(text), "") == Scan(text, "")
  {
    ScanTrimStart(text);
    ScanTrimEnd(TrimStart(text));
    var s := Trim(text);
    var comma := FindAny(s, ",");
    if comma < |s| && IsChecksum(s[..comma]) {
      var front := s[..comma + 1];
      assert forall i :: 0 <= i < comma ==> front[i] == s[..comma][i];
      PlainKeeps(front, "");
      KeepsScans(front, "", 0, "");
      ScanAppend(front, s[comma + 1..], "", "");
      assert s == front + s[comma + 1..];
    }
  }

  // ---------------------------------------------------------------- where a parse stops

  /** The length of the text up to and including the character that pays the last closer owed. */
  function CloserEnd(s: string, owed: string): Option<nat> {
    if s == [] then None
    else
      var next := Owe(s[0], owed);
      if next.None? then None
      else if next.value == [] then Some(1)
      else
        var end := CloserEnd(s[1..], next.value);
        if end.None? then None else Some(1 + end.value)
  }

  /** That is the first place where the brackets balance, if there is one. */
  lemma {:induction false} CloserEndIsFirst(s: string, owed: string)
    requires owed != []
    ensures var end := CloserEnd(s, owed);
            if end.Some? then
              && 0 < end.value <= |s| && Scan(s[..end.value], owed) == Some("")
              && forall j :: 0 <= j < end.value ==> Scan(s[..j], owed) != Some("")
            else forall j :: 0 <= j <= |s| ==> Scan(s[..j], owed) != Some("")
    decreases |s|
  {
    if s != [] {
      var next := Owe(s[0], owed);
      assert forall j :: 1 <= j <= |s| ==> s[..j][0] == s[0] && s[..j][1..] == s[1..][..j - 1];
      if next.Some? && next.value != [] {
        CloserEndIsFirst(s[1..], next.value);
      } else if next.Some? {
        assert s[..1][1..] == [];
      }
    }
  }

  /** Where a body that begins at `h` ends: at the bracket matching its first character, or after
      the digits of a pane id. */
  function EndFrom(s: string, h: nat): Option<nat>
    requires h <= |s|
  {
    if h < |s| && IsOpener(s[h]) then
      var end := CloserEnd(s[h + 1..], [CloserOf(s[h])]);
      if end.None? then None else Some(h + 1 + end.value)
    else
      var digits := AfterComma(s[h..]);
      Some(|s| - |digits| + DigitsEnd(digits))
  }

  /** Where a node ends, read off the text. */
  function NodeEnd(s: string): Option<nat> {
    EndFrom(s, HeaderEnd(s))
  }

  lemma {:induction false} ClosesEnds(s: string, owed: string, rest: string)
    requires Closes(s, owed, "")
    ensures CloserEnd(s + rest, owed) == Some(|s|)
    decreases |s|
  {
    assert (s + rest)[1..] == s[1..] + rest;
    if |s| > 1 {
      ClosesEnds(s[1..], Owe(s[0], owed).value, rest);
    }
  }

  lemma {:induction false} ChildrenEnd(s: string, close: char)
    requires (close == ']' || close == '}') && ParseChildren(s, close).Parsed?
    ensures var end := CloserEnd(s, [close]);
            end.Some? && end.value <= |s| && ParseChildren(s, close).rest == s[end.value..]
  {
    var taken := ChildrenConsume(s, close, "");
    assert [close] + "" == [close];
    ClosesEnds(taken, [close], ParseChildren(s, close).rest);
  }

  lemma {:induction false} PaneIdEnds(s: string)
    requires ParsePaneId(s).Parsed?
    ensures var digits := AfterComma(s); ParsePaneId(s).rest == s[|s| - |digits| + DigitsEnd(digits)..]
  {}

  lemma {:induction false} NodeIs(s: string)
    requires ParseNode(s).Parsed?
    ensures var body := ParseBody(s[HeaderEnd(s)..]); body.Parsed? && body.rest == ParseNode(s).rest
  {}

  lemma {:induction false} DropTwice(s: string, h: nat, k: nat)
    requires h + k <= |s|
    ensures s[h..][k..] == s[h + k..]
  {}

  lemma {:induction false} EndFromBracket(s: string, h: nat)
    requires h < |s| && IsOpener(s[h])
    requires var end := CloserEnd(s[h + 1..], [CloserOf(s[h])]); end.Some? && end.value <= |s| - h - 1
    ensures var end := CloserEnd(s[h + 1..], [CloserOf(s[h])]);
            EndFrom(s, h) == Some(h + 1 + end.value) && s[h + 1..][end.value..] == s[h + 1 + end.value..]
  {}

  lemma {:induction false} BracketEnds(s: string, h: nat)
    requires h < |s| && IsOpener(s[h]) && ParseChildren(s[h + 1..], CloserOf(s[h])).Parsed?
    ensures var end := EndFrom(s, h);
            && end.Some? && end.value <= |s|
            && ParseChildren(s[h + 1..], CloserOf(s[h])).rest == s[end.value..]
  {
    ChildrenEnd(s[h + 1..], CloserOf(s[h]));
    EndFromBracket(s, h);
  }

  lemma {:induction false} LeafEnds(s: string, h: nat)
    requires h <= |s| && !(h < |s| && IsOpener(s[h])) && ParsePaneId(s[h..]).Parsed?
    ensures var end := EndFrom(s, h); end.Some? && end.value <= |s| && ParsePaneId(s[h..]).rest == s[end.value..]
  {
    PaneIdEnds(s[h..]);
    DropTwice(s, h, EndFrom(s, h).value - h);
  }

  lemma {:induction false} BodyEnds(s: string, h: nat)
    requires h <= |s| && ParseBody(s[h..]).Parsed?
    ensures var end := EndFrom(s, h); end.Some? && end.value <= |s| && ParseBody(s[h..]).rest == s[end.value..]
  {
    BodyIs(s[h..]);
    if h < |s| && IsOpener(s[h]) {
      DropTwice(s, h, 1);
      BracketEnds(s, h);
    } else {
      LeafEnds(s, h);
    }
  }

  /** A parse that succeeds stops exactly at the end of its node: at the bracket matching the first
      one, or after the pane id. */
  lemma {:induction false} ParseStopsAtNodeEnd(s: string)
    requires ParseNode(s).Parsed?
    ensures var end := NodeEnd(s); end.Some? && end.value <= |s| && ParseNode(s).rest == s[end.value..]
  {
    NodeIs(s);
    BodyEnds(s, HeaderEnd(s));
  }

  /** A layout that is accepted has all its brackets matched, each by its own kind, if and only if
      the text after the end of its first node has. */
  lemma {:induction false} BalancedIffTailIs(text: string)
    requires ParseLayout(text).Some?
    ensures var body := LayoutBody(text);
            var end := NodeEnd(body);
            && end.Some? && end.value <= |body|
            && (IsBalanced(text) <==> IsBalanced(body[end.value..]))
  {
    ScanBody(text);
    ScanAsRest(LayoutBody(text));
    ParseStopsAtNodeEnd(LayoutBody(text));
  }

  lemma {:induction false} BodyIsWhole(t: PaneLayout, c: char)
    requires |Size(t)| != 4 && !IsWhitespace(c)
    ensures LayoutBody(Print(t) + [c]) == Print(t) + [c]
  {
    var text := Print(t) + [c];
    PrintEnds(t);
    assert text[0] == Print(t)[0] && text[|text| - 1] == c;
    TrimKeeps(text);
    SizeIsFirst(t);
    assert forall i :: 0 <= i < |Print(t)| ==> text[i] == Print(t)[i];
    FindAnyIs(text, ",", |Size(t)|);
  }

  lemma {:induction false} ScanCloser(close: char)
    requires close == ']' || close == '}'
    ensures Scan([close], "") == None
  {}

  /** A stray closing bracket after any tree is left unread, and the layout accepted. */
  lemma {:induction false} StrayBracketIsAccepted(t: PaneLayout, close: char)
    requires (close == ']' || close == '}') && |Size(t)| != 4
    ensures ParseLayout(Print(t) + [close]) == Some(t) && !IsBalanced(Print(t) + [close])
  {
    BodyIsWhole(t, close);
    NodeRoundTrip(t, [close]);
    ScanAsRest(Print(t) + [close]);
    ScanCloser(close);
  }
}
