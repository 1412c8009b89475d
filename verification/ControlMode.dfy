/**
 The line-driven parser of tmux control mode, and the lines tmux prints for it.
 */
module ControlMode {
  import opened Text
  import opened Octal
  import opened Machines

  const MAX_U64: nat := 0xFFFF_FFFF_FFFF_FFFF

  datatype TmuxEvent =
    | Output(paneId: string, data: seq<byte>)
    | CommandResponse(timestamp: nat, flags: nat, lines: seq<string>)
    | SessionChanged(id: string, name: string)
    | SessionCreated(id: string, name: string)
    | SessionClosed(id: string)
    | WindowAdd(id: string)
    | WindowClose(id: string)
    | WindowRenamed(id: string, name: string)
    | LayoutChange(id: string, layout: string)
    | PaneModeChanged(paneId: string)
    | Exit(reason: Option<string>)

  datatype Block = Block(timestamp: nat, flags: nat, lines: seq<string>)

  // ---------------------------------------------------------------- one line

  function OrZero(r: Option<nat>): nat {
    if r.Some? then r.value else 0
  }

  function OpenBlock(rest: string): Block {
    var parts := SplitN(rest, 3, ' ');
    Block(OrZero(ParseUnsigned(parts[0], MAX_U64)),
          if |parts| > 2 then OrZero(ParseUnsigned(parts[2], MAX_U32)) else 0,
          [])
  }

  /** The line prefixes tried outside a block, in the order they are tried. */
  const NOTICES: seq<string> := [
    "%begin ", "%output ", "%session-changed ", "%session-created ", "%session-closed ",
    "%window-add ", "%window-close ", "%window-renamed ", "%layout-change ",
    "%pane-mode-changed ", "%exit "]

  /** The line prefixes tried inside a block. */
  const BLOCK_ENDS: seq<string> := ["%end ", "%error "]

  /** The first of `prefixes` that the line starts with, or their number when it starts with none. */
  function FirstPrefix(line: string, prefixes: seq<string>): (k: nat)
    ensures k <= |prefixes|
    ensures k < |prefixes| ==> prefixes[k] <= line
    ensures forall i :: 0 <= i < k ==> !(prefixes[i] <= line)
  {
    if prefixes == [] || prefixes[0] <= line then 0 else 1 + FirstPrefix(line, prefixes[1..])
  }

  /** The event of a line that starts with notice `k` and goes on with `rest`, if it has one. */
  function Notify(k: nat, rest: string): seq<TmuxEvent> {
    match k
    case 1 =>
      var cut := SplitOnce(rest, ' ');
      if cut.Some? then [Output(cut.value.0, ServerDecode(cut.value.1))] else []
    case 2 =>
      var parts := SplitN(rest, 2, ' ');
      if |parts| == 2 then [SessionChanged(parts[0], parts[1])] else []
    case 3 =>
      var parts := SplitN(rest, 2, ' ');
      [SessionCreated(parts[0], if |parts| > 1 then parts[1] else "")]
    case 4 => [SessionClosed(rest)]
    case 5 => [WindowAdd(rest)]
    case 6 => [WindowClose(rest)]
    case 7 =>
      var cut := SplitOnce(rest, ' ');
      if cut.Some? then [WindowRenamed(cut.value.0, cut.value.1)] else []
    case 8 =>
      var cut := SplitOnce(rest, ' ');
      if cut.Some? then [LayoutChange(cut.value.0, cut.value.1)] else []
    case 9 => [PaneModeChanged(rest)]
    case 10 => [Exit(Some(rest))]
    case _ => []
  }

  function FeedOutside(line: string): (Option<Block>, seq<TmuxEvent>) {
    var k := FirstPrefix(line, NOTICES);
    if k == |NOTICES| then (None, if line == "%exit" then [Exit(None)] else [])
    else
      var rest := line[|NOTICES[k]|..];
      if k == 0 then (Some(OpenBlock(rest)), []) else (None, Notify(k, rest))
  }

  function FeedInside(b: Block, line: string): (Option<Block>, seq<TmuxEvent>) {
    match FirstPrefix(line, BLOCK_ENDS)
    case 0 => (None, [CommandResponse(b.timestamp, b.flags, b.lines)])
    case 1 => (None, [])
    case _ => (Some(b.(lines := b.lines + [line])), [])
  }

  /** The block left open and the events emitted by one line. */
  function Feed(block: Option<Block>, rawLine: string): (Option<Block>, seq<TmuxEvent>) {
    var line := TrimCr(rawLine);
    if block.Some? then FeedInside(block.value, line) else FeedOutside(line)
  }

  function FeedAll(block: Option<Block>, lines: seq<string>): (Option<Block>, seq<TmuxEvent>) {
    Run(Feed, block, lines)
  }

  class ControlModeParser {
    var inBlock: Option<Block>
    var emitted: seq<TmuxEvent>  // what has been sent to the event channel

    constructor ()
      ensures inBlock == None && emitted == []
    {
      inBlock, emitted := None, [];
    }

    method FeedLine(rawLine: string)
      modifies this
      ensures inBlock == Feed(old(inBlock), rawLine).0
      ensures emitted == old(emitted) + Feed(old(inBlock), rawLine).1
    {
      var line := TrimCr(rawLine);

      if inBlock.Some? {
        var block := inBlock.value;
        var marker := FirstPrefix(line, BLOCK_ENDS);
        if marker == 0 {
          inBlock := None;
          Emit(CommandResponse(block.timestamp, block.flags, block.lines));
        } else if marker == 1 {
          inBlock := None;
        } else {
          inBlock := Some(block.(lines := block.lines + [line]));
        }
        return;
      }

      var k := FirstPrefix(line, NOTICES);
      if k == 0 {
        inBlock := Some(OpenBlock(line[|NOTICES[k]|..]));
      } else if k < |NOTICES| {
        var events := Notify(k, line[|NOTICES[k]|..]);
        if events != [] {
          Emit(events[0]);
        }
      } else if line == "%exit" {
        Emit(Exit(None));
      }
    }

    method Emit(event: TmuxEvent)
      modifies `emitted
      ensures emitted == old(emitted) + [event]
    {
      emitted := emitted + [event];
    }
  }

  // ---------------------------------------------------------------- what tmux prints

  /** A stretch of control-mode output: a notification with a choice of which output bytes to
      escape, a command's reply or failure between its markers, or a line no branch recognises. */
  datatype Item =
    | Notification(event: TmuxEvent, choice: seq<bool>)
    | Reply(timestamp: nat, number: nat, flags: nat, lines: seq<string>)
    | Failure(timestamp: nat, number: nat, flags: nat, lines: seq<string>)
    | Noise(line: string)

  /** Text that can end a line: the parser strips carriage returns, the reader cuts at newlines. */
  predicate IsText(s: string) {
    '\n' !in s && (s != [] ==> s[|s| - 1] != '\r')
  }

  predicate IsId(s: string) {
    ' ' !in s && '\n' !in s
  }

  /** A line a block keeps as it is: no marker in front, no carriage return at the end. */
  predicate IsKept(s: string) {
    (s != [] ==> s[|s| - 1] != '\r') && !("%end " <= s) && !("%error " <= s)
  }

  predicate IsBodyLine(s: string) {
    '\n' !in s && IsKept(s)
  }

  predicate IsOutputData(data: seq<byte>, choice: seq<bool>) {
    && LegalChoice(data, choice)
    && (forall i :: 0 <= i < |data| ==> data[i] == 10 ==> choice[i])
    && (data != [] && data[|data| - 1] == 13 ==> choice[|data| - 1])
  }

  predicate IsPrintableEvent(e: TmuxEvent, choice: seq<bool>) {
    match e
    case Output(pane, data) => IsId(pane) && IsOutputData(data, choice)
    case CommandResponse(_, _, _) => false  // printed as a Reply
    case SessionChanged(id, name) => IsId(id) && IsText(name)
    case SessionCreated(id, name) => IsId(id) && IsText(name)
    case SessionClosed(id) => IsText(id)
    case WindowAdd(id) => IsText(id)
    case WindowClose(id) => IsText(id)
    case WindowRenamed(id, name) => IsId(id) && IsText(name)
    case LayoutChange(id, layout) => IsId(id) && IsText(layout)
    case PaneModeChanged(pane) => IsText(pane)
    case Exit(reason) => reason.Some? ==> IsText(reason.value)
  }

  predicate IsNotice(line: string) {
    || "%begin " <= line || "%output " <= line || "%session-changed " <= line || "%session-created " <= line
    || "%session-closed " <= line || "%window-add " <= line || "%window-close " <= line
    || "%window-renamed " <= line || "%layout-change " <= line || "%pane-mode-changed " <= line
    || "%exit " <= line
  }

  predicate IsPrintable(item: Item) {
    match item
    case Notification(e, choice) => IsPrintableEvent(e, choice)
    case Reply(_, _, _, lines) => forall i :: 0 <= i < |lines| ==> IsBodyLine(lines[i])
    case Failure(_, _, _, lines) => forall i :: 0 <= i < |lines| ==> IsBodyLine(lines[i])
    case Noise(line) =>
      IsText(line) && line != "%exit" && !IsNotice(line)
  }

  function Stamp(timestamp: nat, number: nat, flags: nat): string {
    Dec(timestamp) + [' '] + (Dec(number) + [' '] + Dec(flags))
  }

  function PrintEvent(e: TmuxEvent, choice: seq<bool>): string
    requires IsPrintableEvent(e, choice)
  {
    match e
    case Output(pane, data) => "%output " + (pane + [' '] + Escape(data, choice))
    case SessionChanged(id, name) => "%session-changed " + (id + [' '] + name)
    case SessionCreated(id, name) => "%session-created " + (id + [' '] + name)
    case SessionClosed(id) => "%session-closed " + id
    case WindowAdd(id) => "%window-add " + id
    case WindowClose(id) => "%window-close " + id
    case WindowRenamed(id, name) => "%window-renamed " + (id + [' '] + name)
    case LayoutChange(id, layout) => "%layout-change " + (id + [' '] + layout)
    case PaneModeChanged(pane) => "%pane-mode-changed " + pane
    case Exit(None) => "%exit"
    case Exit(Some(reason)) => "%exit " + reason
  }

  /** The place of an event's notice among the parser's, and the text after it. */
  function EventText(e: TmuxEvent, choice: seq<bool>): (nat, string)
    requires IsPrintableEvent(e, choice) && e != Exit(None)
  {
    match e
    case Output(pane, data) => (1, pane + [' '] + Escape(data, choice))
    case SessionChanged(id, name) => (2, id + [' '] + name)
    case SessionCreated(id, name) => (3, id + [' '] + name)
    case SessionClosed(id) => (4, id)
    case WindowAdd(id) => (5, id)
    case WindowClose(id) => (6, id)
    case WindowRenamed(id, name) => (7, id + [' '] + name)
    case LayoutChange(id, layout) => (8, id + [' '] + layout)
    case PaneModeChanged(pane) => (9, pane)
    case Exit(Some(reason)) => (10, reason)
  }

  function PrintItem(item: Item): seq<string>
    requires IsPrintable(item)
  {
    match item
    case Notification(e, choice) => [PrintEvent(e, choice)]
    case Reply(ts, number, flags, lines) =>
      ["%begin " + Stamp(ts, number, flags)] + lines + ["%end " + Stamp(ts, number, flags)]
    case Failure(ts, number, flags, lines) =>
      ["%begin " + Stamp(ts, number, flags)] + lines + ["%error " + Stamp(ts, number, flags)]
    case Noise(line) => [line]
  }

  predicate ArePrintable(items: seq<Item>) {
    forall i :: 0 <= i < |items| ==> IsPrintable(items[i])
  }

  function PrintAll(items: seq<Item>): seq<string>
    requires ArePrintable(items)
  {
    if items == [] then [] else PrintItem(items[0]) + PrintAll(items[1..])
  }

  /** What the parser owes the reader of a stretch of output; a number too large for its field is 0. */
  function EventsOf(item: Item): seq<TmuxEvent> {
    match item
    case Notification(e, _) => [e]
    case Reply(ts, _, flags, lines) =>
      [CommandResponse(if ts < 0x1_0000_0000_0000_0000 then ts else 0,
                       if flags < 0x1_0000_0000 then flags else 0, lines)]
    case Failure(_, _, _, _) => []
    case Noise(_) => []
  }

  function AllEvents(items: seq<Item>): seq<TmuxEvent> {
    if items == [] then [] else EventsOf(items[0]) + AllEvents(items[1..])
  }

  // ---------------------------------------------------------------- printed lines are text

  lemma {:induction false} TextAfter(prefix: string, s: string)
    requires IsText(s) && '\n' !in prefix && prefix != [] && prefix[|prefix| - 1] != '\r'
    ensures IsText(prefix + s)
  {}

  lemma {:induction false} PrintedPiecesAreText(pieces: seq<Piece>)
    requires forall i :: 0 <= i < |pieces| ==> pieces[i].Raw? ==> pieces[i].c != '\n'
    requires pieces != [] && pieces[|pieces| - 1].Raw? ==> pieces[|pieces| - 1].c != '\r'
    ensures IsText(Print(pieces)) && (pieces != [] ==> Print(pieces) != [])
  {
    if pieces != [] {
      PrintedPiecesAreText(pieces[1..]);
      assert Print(pieces) == PrintPiece(pieces[0]) + Print(pieces[1..]);
    }
  }

  lemma {:induction false} IdThenText(id: string, s: string)
    requires IsId(id) && IsText(s)
    ensures IsText(id + [' '] + s)
    ensures SplitOnce(id + [' '] + s, ' ') == Some((id, s))
    ensures SplitN(id + [' '] + s, 2, ' ') == [id, s]
  {
    SplitOnceOf(id, ' ', s);
    SplitNOf(id, ' ', s, 2);
  }

  lemma {:induction false} EscapedIsText(data: seq<byte>, choice: seq<bool>)
    requires IsOutputData(data, choice)
    ensures IsText(Escape(data, choice))
  {
    PrintedPiecesAreText(Pieces(data, choice));
  }

  lemma {:induction false} DigitsAreText(s: string)
    requires AllDigits(s)
    ensures IsId(s) && IsText(s)
  {}

  lemma {:induction false} StampIsText(ts: nat, number: nat, flags: nat)
    ensures IsText(Stamp(ts, number, flags))
    ensures SplitN(Stamp(ts, number, flags), 3, ' ') == [Dec(ts), Dec(number), Dec(flags)]
  {
    DigitsAreText(Dec(ts));
    DigitsAreText(Dec(number));
    DigitsAreText(Dec(flags));
    IdThenText(Dec(number), Dec(flags));
    IdThenText(Dec(ts), Dec(number) + [' '] + Dec(flags));
    SplitNOf(Dec(ts), ' ', Dec(number) + [' '] + Dec(flags), 3);
  }

  lemma {:induction false} TrimOfText(s: string)
    requires IsText(s)
    ensures TrimCr(s) == s
  {}

  // ---------------------------------------------------------------- reading it back

  predicate Differ(p: string, q: string) {
    exists j :: 0 <= j < |p| && j < |q| && p[j] != q[j]
  }

  lemma {:induction false} FirstPrefixIs(line: string, prefixes: seq<string>, k: nat)
    requires k < |prefixes| && prefixes[k] <= line
    requires forall i :: 0 <= i < k ==> Differ(prefixes[i], prefixes[k])
    ensures FirstPrefix(line, prefixes) == k
  {
    forall i | 0 <= i < k
      ensures !(prefixes[i] <= line)
    {
      var j :| 0 <= j < |prefixes[i]| && j < |prefixes[k]| && prefixes[i][j] != prefixes[k][j];
      assert line[j] == prefixes[k][j];
    }
  }

  lemma {:induction false} NoPrefixOfShort(line: string, prefixes: seq<string>)
    requires forall i :: 0 <= i < |prefixes| ==> |prefixes[i]| > |line|
    ensures FirstPrefix(line, prefixes) == |prefixes|
  {}

  lemma {:induction false} PrintedAs(e: TmuxEvent, choice: seq<bool>)
    requires IsPrintableEvent(e, choice) && e != Exit(None)
    ensures var (k, text) := EventText(e, choice);
            k < |NOTICES| && PrintEvent(e, choice) == NOTICES[k] + text
  {}

  /** The parser's table holds the texts tmux prints. */
  lemma {:induction false} UnknownLine(line: string)
    ensures FirstPrefix(line, NOTICES) == |NOTICES| <==> !IsNotice(line)
  {
    var k, n := FirstPrefix(line, NOTICES), NOTICES;
    assert n[0] == "%begin " && n[1] == "%output " && n[2] == "%session-changed " && n[3] == "%session-created ";
    assert n[4] == "%session-closed " && n[5] == "%window-add " && n[6] == "%window-close ";
    assert n[7] == "%window-renamed " && n[8] == "%layout-change " && n[9] == "%pane-mode-changed ";
    assert n[10] == "%exit ";
    if k < 11 {
      assert k == 0 || k == 1 || k == 2 || k == 3 || k == 4 || k == 5 || k >= 6;
      assert k < 6 || k == 6 || k == 7 || k == 8 || k == 9 || k == 10;
    }
  }

  lemma {:induction false} KeptLine(line: string)
    ensures FirstPrefix(line, BLOCK_ENDS) == |BLOCK_ENDS| <==> !("%end " <= line) && !("%error " <= line)
  {
    assert |BLOCK_ENDS| == 2;
  }

  lemma {:induction false} NoticesDiffer(i: nat, k: nat)
    requires i < k < |NOTICES|
    ensures Differ(NOTICES[i], NOTICES[k])
  {
    var at := if i >= 5 && k <= 7 then 8 else if i >= 2 && k <= 4 then 10 else 1;
    assert "%begin "[1] == 'b' && "%output "[1] == 'o' && "%layout-change "[1] == 'l';
    assert "%pane-mode-changed "[1] == 'p' && "%exit "[1] == 'e';
    assert "%session-changed "[1] == "%session-created "[1] == "%session-closed "[1] == 's';
    assert "%session-changed "[10] == 'h' && "%session-created "[10] == 'r' && "%session-closed "[10] == 'l';
    assert "%window-add "[1] == "%window-close "[1] == "%window-renamed "[1] == 'w';
    assert "%window-add "[8] == 'a' && "%window-close "[8] == 'c' && "%window-renamed "[8] == 'r';
    assert NOTICES[i][at] != NOTICES[k][at];
  }

  lemma {:induction false} FeedNotice(k: nat, rest: string)
    requires k < |NOTICES|
    ensures FeedOutside(NOTICES[k] + rest) ==
            if k == 0 then (Some(OpenBlock(rest)), []) else (None, Notify(k, rest))
  {
    forall i | 0 <= i < k ensures Differ(NOTICES[i], NOTICES[k]) {
      NoticesDiffer(i, k);
    }
    FirstPrefixIs(NOTICES[k] + rest, NOTICES, k);
    assert (NOTICES[k] + rest)[|NOTICES[k]|..] == rest;
  }

  lemma {:induction false} FeedBlockEnd(block: Block, k: nat, rest: string)
    requires k < |BLOCK_ENDS|
    ensures FeedInside(block, BLOCK_ENDS[k] + rest) ==
            (None, if k == 0 then [CommandResponse(block.timestamp, block.flags, block.lines)] else [])
  {
    assert BLOCK_ENDS[0][2] == 'n' && BLOCK_ENDS[1][2] == 'r';
    FirstPrefixIs(BLOCK_ENDS[k] + rest, BLOCK_ENDS, k);
  }

  lemma {:induction false} NotifyOutput(pane: string, data: seq<byte>, choice: seq<bool>)
    requires IsId(pane) && IsOutputData(data, choice)
    ensures var text := pane + [' '] + Escape(data, choice);
            IsText(text) && Notify(1, text) == [Output(pane, data)]
  {
    EscapedIsText(data, choice);
    EscapeRoundTrip(data, choice);
    IdThenText(pane, Escape(data, choice));
  }

  lemma {:induction false} NotifyEvent(e: TmuxEvent, choice: seq<bool>)
    requires IsPrintableEvent(e, choice) && e != Exit(None)
    ensures var (k, text) := EventText(e, choice);
            IsText(text) && 0 < k && Notify(k, text) == [e]
  {
    match e
    case Output(pane, data) => NotifyOutput(pane, data, choice);
    case SessionChanged(id, name) => IdThenText(id, name);
    case SessionCreated(id, name) => IdThenText(id, name);
    case WindowRenamed(id, name) => IdThenText(id, name);
    case LayoutChange(id, layout) => IdThenText(id, layout);
    case _ =>
  }

  lemma {:induction false} MissingField(k: nat, id: string)
    requires k in {1, 2, 3, 7, 8} && IsId(id) && IsText(id)
    ensures FeedAll(None, [NOTICES[k] + id]) == (None, if k == 3 then [SessionCreated(id, "")] else [])
  {
    NoticeIsText(k, id);
    FeedText(None, NOTICES[k] + id);
    FeedNotice(k, id);
    FindAnyIs(id, [' '], |id|);
  }

  /** A notice whose second field is missing has no event, but a created session may lack a name. */
  lemma {:induction false} MissingSecondField(id: string)
    requires IsId(id) && IsText(id)
    ensures FeedAll(None, ["%output " + id]) == (None, [])
    ensures FeedAll(None, ["%session-changed " + id]) == (None, [])
    ensures FeedAll(None, ["%session-created " + id]) == (None, [SessionCreated(id, "")])
    ensures FeedAll(None, ["%window-renamed " + id]) == (None, [])
    ensures FeedAll(None, ["%layout-change " + id]) == (None, [])
  {
    MissingField(1, id);
    MissingField(2, id);
    MissingField(3, id);
    MissingField(7, id);
    MissingField(8, id);
  }

  lemma {:induction false} NoticeIsText(k: nat, text: string)
    requires k < |NOTICES| && IsText(text)
    ensures IsText(NOTICES[k] + text)
  {
    var prefix := NOTICES[k];
    assert '\n' !in prefix && prefix[|prefix| - 1] == ' ';
    TextAfter(prefix, text);
  }

  lemma {:induction false} BlockEndIsText(k: nat, text: string)
    requires k < |BLOCK_ENDS| && IsText(text)
    ensures IsText(BLOCK_ENDS[k] + text)
  {
    var prefix := BLOCK_ENDS[k];
    assert '\n' !in prefix && prefix[|prefix| - 1] == ' ';
    TextAfter(prefix, text);
  }

  lemma {:induction false} NoticesAreLong()
    ensures forall i :: 0 <= i < |NOTICES| ==> |NOTICES[i]| > 5
  {
    assert |NOTICES[0]| == 7 && |NOTICES[1]| == 8 && |NOTICES[2]| == 17 && |NOTICES[3]| == 17;
    assert |NOTICES[4]| == 16 && |NOTICES[5]| == 12 && |NOTICES[6]| == 14 && |NOTICES[7]| == 16;
    assert |NOTICES[8]| == 15 && |NOTICES[9]| == 19 && |NOTICES[10]| == 6;
  }

  lemma {:induction false} ExitIsUnlikeNotices()
    ensures FeedOutside("%exit") == (None, [Exit(None)])
  {
    NoticesAreLong();
    NoPrefixOfShort("%exit", NOTICES);
  }

  lemma {:induction false} ExitIsText()
    ensures IsText("%exit")
  {}

  lemma {:induction false} FeedText(block: Option<Block>, line: string)
    requires IsText(line)
    ensures FeedAll(block, [line]) == if block.Some? then FeedInside(block.value, line) else FeedOutside(line)
  {
    TrimOfText(line);
    RunOne(Feed, block, line);
  }

  lemma {:induction false} FeedEvent(e: TmuxEvent, choice: seq<bool>)
    requires IsPrintableEvent(e, choice)
    ensures IsText(PrintEvent(e, choice)) && FeedAll(None, [PrintEvent(e, choice)]) == (None, [e])
  {
    if e == Exit(None) {
      ExitIsUnlikeNotices();
      ExitIsText();
    } else {
      NotifyEvent(e, choice);
      var (k, text) := EventText(e, choice);
      PrintedAs(e, choice);
      NoticeIsText(k, text);
      FeedNotice(k, text);
    }
    FeedText(None, PrintEvent(e, choice));
  }

  lemma {:induction false} TrimCrShrinks(s: string)
    ensures |TrimCr(s)| <= |s|
    ensures TrimCr(s) == s <==> (s != [] ==> s[|s| - 1] != '\r')
  {
    if s != [] && s[|s| - 1] == '\r' {
      TrimCrShrinks(s[..|s| - 1]);
    }
  }

  /** A line inside a block ends it, or is added to it; it is added as it is if it is kept. */
  lemma {:induction false} FeedInBlock(b: Block, line: string)
    ensures var (next, events) := Feed(Some(b), line);
            && (next.Some? ==> next.value == b.(lines := b.lines + [TrimCr(line)]) && events == [])
            && (IsKept(line) <==> next == Some(b.(lines := b.lines + [line])))
  {
    TrimCrShrinks(line);
    assert (b.lines + [line])[|b.lines|] == line && (b.lines + [TrimCr(line)])[|b.lines|] == TrimCr(line);
    KeptLine(TrimCr(line));
    KeptLine(line);
    assert |BLOCK_ENDS| == 2;
  }

  type Feeder = (Option<Block>, string) -> (Option<Block>, seq<TmuxEvent>)

  /** A line adds one line to an open block or ends it; a new block starts empty. */
  ghost predicate AddsOrEnds(feed: Feeder) {
    && (forall b: Block, line :: feed(Some(b), line).0.Some? ==>
          var next := feed(Some(b), line).0.value; |next.lines| == |b.lines| + 1 && b.lines <= next.lines)
    && (forall line :: feed(None, line).0.Some? ==> feed(None, line).0.value.lines == [])
  }

  lemma {:induction false} ParserAddsOrEnds()
    ensures AddsOrEnds(Feed)
  {
    forall b: Block, line | Feed(Some(b), line).0.Some?
      ensures var next := Feed(Some(b), line).0.value; |next.lines| == |b.lines| + 1 && b.lines <= next.lines
    {
      FeedInBlock(b, line);
    }
    forall line | Feed(None, line).0.Some? ensures Feed(None, line).0.value.lines == [] {
      FeedBegins(line);
    }
  }

  lemma {:induction false} FeedBegins(line: string)
    ensures Feed(None, line).0.Some? ==> Feed(None, line).0.value.lines == []
  {}

  /** A block left open holds fewer lines than were fed if one of them began it; and if it holds as
      many as it can, it begins with those it had. */
  lemma {:induction false} OpenLines(feed: Feeder, block: Option<Block>, lines: seq<string>)
    requires AddsOrEnds(feed)
    ensures var end := Run(feed, block, lines).0;
            end.Some? ==>
              if block.None? then |end.value.lines| < |lines|
              else
                && |end.value.lines| <= |block.value.lines| + |lines|
                && (|end.value.lines| == |block.value.lines| + |lines| ==> block.value.lines <= end.value.lines)
    decreases |lines|
  {
    if lines != [] {
      OpenLines(feed, feed(block, lines[0]).0, lines[1..]);
    }
  }

  /** If the first line is not kept, the lines are not kept whatever follows. */
  lemma {:induction false} FirstNotKept(feed: Feeder, block: Block, lines: seq<string>)
    requires AddsOrEnds(feed) && lines != []
    requires feed(Some(block), lines[0]).0 != Some(block.(lines := block.lines + [lines[0]]))
    requires feed(Some(block), lines[0]).0.Some? ==>
               feed(Some(block), lines[0]).0.value.(lines := block.lines) == block
    ensures Run(feed, Some(block), lines).0 != Some(block.(lines := block.lines + lines))
  {
    var next := feed(Some(block), lines[0]).0;
    OpenLines(feed, next, lines[1..]);
    if next.Some? { OneMore(block.lines, next.value.lines, lines); }
  }

  lemma {:induction false} OneMore<T>(front: seq<T>, longer: seq<T>, rest: seq<T>)
    requires |longer| == |front| + 1 && rest != []
    ensures longer <= front + rest <==> longer == front + [rest[0]]
  {
    assert (front + rest)[..|front| + 1] == front + [rest[0]];
  }

  lemma {:induction false} FirstKept(feed: Feeder, block: Block, lines: seq<string>)
    requires lines != [] && feed(Some(block), lines[0]) == (Some(block.(lines := block.lines + [lines[0]])), [])
    ensures var next := block.(lines := block.lines + [lines[0]]);
            && Run(feed, Some(block), lines) == Run(feed, Some(next), lines[1..])
            && block.(lines := block.lines + lines) == next.(lines := next.lines + lines[1..])
  {
    var next := block.(lines := block.lines + [lines[0]]);
    assert [] + Run(feed, Some(next), lines[1..]).1 == Run(feed, Some(next), lines[1..]).1;
    assert block.lines + lines == next.lines + lines[1..];
  }

  /** Inside a block the lines are kept as they are, in order, even if they look like notifications,
      if and only if none starts with a block-end marker or ends in a carriage return. */
  lemma {:induction false} FeedBodyIff(block: Block, lines: seq<string>)
    ensures FeedAll(Some(block), lines) == (Some(block.(lines := block.lines + lines)), []) <==>
            forall i :: 0 <= i < |lines| ==> IsKept(lines[i])
    decreases |lines|
  {
    if lines == [] {
      assert block.lines + lines == block.lines;
    } else {
      FeedInBlock(block, lines[0]);
      if IsKept(lines[0]) {
        FirstKept(Feed, block, lines);
        FeedBodyIff(block.(lines := block.lines + [lines[0]]), lines[1..]);
        assert forall i :: 1 <= i < |lines| ==> lines[1..][i - 1] == lines[i];
      } else {
        ParserAddsOrEnds();
        FirstNotKept(Feed, block, lines);
      }
    }
  }

  lemma {:induction false} FeedOpening(ts: nat, number: nat, flags: nat)
    ensures IsText(NOTICES[0] + Stamp(ts, number, flags))
    ensures FeedAll(None, [NOTICES[0] + Stamp(ts, number, flags)]) ==
            (Some(Block(if ts <= MAX_U64 then ts else 0, if flags <= MAX_U32 then flags else 0, [])), [])
  {
    StampIsText(ts, number, flags);
    NoticeIsText(0, Stamp(ts, number, flags));
    FeedNotice(0, Stamp(ts, number, flags));
    FeedText(None, NOTICES[0] + Stamp(ts, number, flags));
    ParseDecOrZero(ts, MAX_U64);
    ParseDecOrZero(flags, MAX_U32);
  }

  lemma {:induction false} ParseDecOrZero(n: nat, max: nat)
    ensures OrZero(ParseUnsigned(Dec(n), max)) == if n <= max then n else 0
  {
    ValueOfDec(n);
    assert IsDigit(Dec(n)[0]);
  }

  /** A block printed around body lines and closed by marker `k`. */
  lemma {:induction false} FeedBlock(ts: nat, number: nat, flags: nat, lines: seq<string>, k: nat)
    requires k < |BLOCK_ENDS| && forall i :: 0 <= i < |lines| ==> IsBodyLine(lines[i])
    ensures FeedAll(None, [NOTICES[0] + Stamp(ts, number, flags)] + lines +
                          [BLOCK_ENDS[k] + Stamp(ts, number, flags)]) ==
            (None, if k == 1 then []
                   else [CommandResponse(if ts <= MAX_U64 then ts else 0,
                                         if flags <= MAX_U32 then flags else 0, lines)])
  {
    var stamp := Stamp(ts, number, flags);
    FeedOpening(ts, number, flags);
    var block := FeedAll(None, [NOTICES[0] + stamp]).0.value;
    StampIsText(ts, number, flags);
    BlockEndIsText(k, stamp);
    FeedBlockEnd(block.(lines := lines), k, stamp);
    FeedText(Some(block.(lines := lines)), BLOCK_ENDS[k] + stamp);
    FeedBetween(NOTICES[0] + stamp, block, lines, BLOCK_ENDS[k] + stamp);
  }

  lemma {:induction false} FeedBetween(opening: string, block: Block, lines: seq<string>, closing: string)
    requires FeedAll(None, [opening]) == (Some(block), []) && block.lines == []
    requires forall i :: 0 <= i < |lines| ==> IsBodyLine(lines[i])
    ensures FeedAll(None, [opening] + lines + [closing]) == FeedAll(Some(block.(lines := lines)), [closing])
  {
    FeedOpened(opening, block, lines);
    RunAppend(Feed, None, [opening] + lines, [closing]);
    var events := FeedAll(Some(block.(lines := lines)), [closing]).1;
    assert [] + events == events;
  }

  lemma {:induction false} FeedOpened(opening: string, block: Block, lines: seq<string>)
    requires FeedAll(None, [opening]) == (Some(block), []) && block.lines == []
    requires forall i :: 0 <= i < |lines| ==> IsBodyLine(lines[i])
    ensures FeedAll(None, [opening] + lines) == (Some(block.(lines := lines)), [])
  {
    FeedBodyIff(block, lines);
    assert block.lines + lines == lines;
    RunAppend(Feed, None, [opening], lines);
  }

  lemma {:induction false} FeedItem(item: Item)
    requires IsPrintable(item)
    ensures FeedAll(None, PrintItem(item)) == (None, EventsOf(item))
  {
    match item
    case Notification(e, choice) => FeedEvent(e, choice);
    case Reply(ts, number, flags, lines) => FeedBlock(ts, number, flags, lines, 0);
    case Failure(ts, number, flags, lines) => FeedBlock(ts, number, flags, lines, 1);
    case Noise(line) => FeedText(None, line); UnknownLine(line);
  }

  /** The printed lines of any list of items, fed one by one, come back as exactly their events
      in order, and leave no block open. */
  lemma {:induction false} ParserReadsPrinter(items: seq<Item>)
    requires ArePrintable(items)
    ensures FeedAll(None, PrintAll(items)) == (None, AllEvents(items))
  {
    if items != [] {
      FeedItem(items[0]);
      ParserReadsPrinter(items[1..]);
      RunAppend(Feed, None, PrintItem(items[0]), PrintAll(items[1..]));
    }
  }
}
