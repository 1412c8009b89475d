/**
 The reader task between the SSH channel and the parser: it appends each data message to a line
 buffer and feeds the parser every complete line.
 */
module ControlStream {
  import opened Text
  import opened Octal
  import opened Machines
  import opened ControlMode

  /** The complete lines of a buffer, and what follows the last newline. */
  function SplitLines(buf: string): (r: (seq<string>, string))
    ensures '\n' !in r.1
    decreases |buf|
  {
    var k := FindAny(buf, "\n");
    if k == |buf| then ([], buf)
    else
      var rest := SplitLines(buf[k + 1..]);
      ([buf[..k]] + rest.0, rest.1)
  }

  datatype Reader = Reader(buf: string, block: Option<Block>)

  const FRESH := Reader("", None)

  /** One data message, converted to text. */
  function Receive(r: Reader, text: string): (Reader, seq<TmuxEvent>) {
    var (lines, rest) := SplitLines(r.buf + text);
    var (block, events) := FeedAll(r.block, lines);
    (Reader(rest, block), events)
  }

  class ReaderTask {
    var lineBuf: string
    const parser: ControlModeParser

    constructor ()
      ensures State() == FRESH && parser.emitted == [] && fresh(parser)
    {
      lineBuf := "";
      parser := new ControlModeParser();
    }

    ghost function State(): Reader
      reads this, parser
    {
      Reader(lineBuf, parser.inBlock)
    }

    method OnData(text: string)
      modifies this, parser
      ensures State() == Receive(old(State()), text).0
      ensures parser.emitted == old(parser.emitted) + Receive(old(State()), text).1
      ensures '\n' !in lineBuf
    {
      lineBuf := lineBuf + text;
      ghost var (lines, rest) := SplitLines(lineBuf);
      ghost var (block, events) := FeedAll(parser.inBlock, lines);
      var newline := FindAny(lineBuf, "\n");
      while newline < |lineBuf|
        invariant newline == FindAny(lineBuf, "\n")
        invariant SplitLines(lineBuf).1 == rest
        invariant FeedAll(parser.inBlock, SplitLines(lineBuf).0).0 == block
        invariant parser.emitted + FeedAll(parser.inBlock, SplitLines(lineBuf).0).1 == old(parser.emitted) + events
        decreases |lineBuf|
      {
        DrainLine(Feed, parser.inBlock, lineBuf);
        var line := lineBuf[..newline];
        lineBuf := lineBuf[newline + 1..];
        ghost var before, one := parser.emitted, Feed(parser.inBlock, line);
        parser.FeedLine(line);
        Associative(before, one.1, FeedAll(parser.inBlock, SplitLines(lineBuf).0).1);
        newline := FindAny(lineBuf, "\n");
      }
      assert parser.emitted + [] == parser.emitted;
    }
  }

  /** Feeding the first line and then the rest is feeding all the lines; `feed` is any parser. */
  lemma {:induction false} DrainLine(feed: Feeder, block: Option<Block>, buf: string)
    requires FindAny(buf, "\n") < |buf|
    ensures var k := FindAny(buf, "\n");
            var one := feed(block, buf[..k]);
            var rest := SplitLines(buf[k + 1..]);
            && SplitLines(buf).1 == rest.1
            && Run(feed, block, SplitLines(buf).0) == (Run(feed, one.0, rest.0).0, one.1 + Run(feed, one.0, rest.0).1)
  {
    var k := FindAny(buf, "\n");
    RunCons(feed, block, buf[..k], SplitLines(buf[k + 1..]).0);
  }

  // ---------------------------------------------------------------- chunking

  lemma {:induction false} SplitAppended(a: string, b: string)
    ensures var first := SplitLines(a);
            var second := SplitLines(first.1 + b);
            SplitLines(a + b) == (first.0 + second.0, second.1)
    decreases |a|
  {
    var k := FindAny(a, "\n");
    if k < |a| {
      SplitAppended(a[k + 1..], b);
      FindAnyIs(a + b, "\n", k);
      assert (a + b)[..k] == a[..k] && (a + b)[k + 1..] == a[k + 1..] + b;
      Associative([a[..k]], SplitLines(a[k + 1..]).0, SplitLines(SplitLines(a).1 + b).0);
    } else {
      assert [] + SplitLines(a + b).0 == SplitLines(a + b).0;
    }
  }

  /** Two messages in a row do what one message holding both does. */
  lemma {:induction false} ReceiveAppended(r: Reader, a: string, b: string)
    ensures var first := Receive(r, a);
            var second := Receive(first.0, b);
            Receive(r, a + b) == (second.0, first.1 + second.1)
  {
    assert r.buf + (a + b) == (r.buf + a) + b;
    SplitAppended(r.buf + a, b);
    var first := SplitLines(r.buf + a);
    RunAppend(Feed, r.block, first.0, SplitLines(first.1 + b).0);
  }

  function ReceiveAll(r: Reader, chunks: seq<string>): (Reader, seq<TmuxEvent>) {
    Run(Receive, r, chunks)
  }

  lemma {:induction false} ReceiveNothing(r: Reader)
    requires '\n' !in r.buf
    ensures Receive(r, "") == (r, [])
  {
    assert r.buf + "" == r.buf;
    FindAnyIs(r.buf, "\n", |r.buf|);
  }

  /** However the text is cut into messages, the events and the residual are those of the text. */
  lemma {:induction false} ChunkingIsIrrelevant(r: Reader, chunks: seq<string>)
    requires '\n' !in r.buf
    ensures ReceiveAll(r, chunks) == Receive(r, Concat(chunks))
    ensures '\n' !in ReceiveAll(r, chunks).0.buf
    decreases |chunks|
  {
    if chunks == [] {
      ReceiveNothing(r);
    } else {
      ReceiveAppended(r, chunks[0], Concat(chunks[1..]));
      ChunkingIsIrrelevant(Receive(r, chunks[0]).0, chunks[1..]);
    }
  }

  // ---------------------------------------------------------------- from tmux to events

  /** Lines on the wire: each followed by any number of carriage returns and a newline. */
  function Wire(lines: seq<string>, endings: seq<string>): string
    requires |endings| == |lines|
  {
    if lines == [] then "" else lines[0] + endings[0] + "\n" + Wire(lines[1..], endings[1..])
  }

  predicate AreEndings(endings: seq<string>) {
    forall i :: 0 <= i < |endings| ==> AllCr(endings[i])
  }

  predicate AreText(lines: seq<string>) {
    forall i :: 0 <= i < |lines| ==> IsText(lines[i])
  }

  function Ended(lines: seq<string>, endings: seq<string>): (r: seq<string>)
    requires |endings| == |lines|
    ensures |r| == |lines| && forall i :: 0 <= i < |lines| ==> r[i] == lines[i] + endings[i]
  {
    seq(|lines|, i requires 0 <= i < |lines| => lines[i] + endings[i])
  }

  lemma {:induction false} SplitOneLine(line: string, rest: string)
    requires '\n' !in line
    ensures SplitLines(line + "\n" + rest) == ([line] + SplitLines(rest).0, SplitLines(rest).1)
  {
    var wire := line + "\n" + rest;
    FindAnyIs(wire, "\n", |line|);
    assert wire[..|line|] == line && wire[|line| + 1..] == rest;
  }

  lemma {:induction false} SplitWire(lines: seq<string>, endings: seq<string>)
    requires |endings| == |lines| && AreEndings(endings) && AreText(lines)
    ensures SplitLines(Wire(lines, endings)) == (Ended(lines, endings), "")
    decreases |lines|
  {
    if lines != [] {
      SplitOneLine(lines[0] + endings[0], Wire(lines[1..], endings[1..]));
      SplitWire(lines[1..], endings[1..]);
      assert Ended(lines, endings) == [lines[0] + endings[0]] + Ended(lines[1..], endings[1..]);
    }
  }

  /** What ends a line makes no difference to the parser. */
  lemma {:induction false} EndingIsTrimmed(block: Option<Block>, line: string, ending: string)
    requires IsText(line) && AllCr(ending)
    ensures Feed(block, line + ending) == Feed(block, line)
  {
    TrimCrOf(line, ending);
    TrimOfText(line);
  }

  lemma {:induction false} FeedWire(block: Option<Block>, lines: seq<string>, endings: seq<string>)
    requires |endings| == |lines| && AreEndings(endings) && AreText(lines)
    ensures Receive(Reader("", block), Wire(lines, endings)) ==
            (Reader("", FeedAll(block, lines).0), FeedAll(block, lines).1)
  {
    SplitWire(lines, endings);
    assert "" + Wire(lines, endings) == Wire(lines, endings);
    forall b: Option<Block>, i | 0 <= i < |lines|
      ensures Feed(b, Ended(lines, endings)[i]) == Feed(b, lines[i])
    {
      EndingIsTrimmed(b, lines[i], endings[i]);
    }
    RunSame(Feed, block, Ended(lines, endings), lines);
  }

  lemma {:induction false} PrintedBlockIsText(ts: nat, number: nat, flags: nat, lines: seq<string>, k: nat)
    requires k < |BLOCK_ENDS| && forall i :: 0 <= i < |lines| ==> IsBodyLine(lines[i])
    ensures AreText([NOTICES[0] + Stamp(ts, number, flags)] + lines + [BLOCK_ENDS[k] + Stamp(ts, number, flags)])
  {
    var stamp := Stamp(ts, number, flags);
    StampIsText(ts, number, flags);
    NoticeIsText(0, stamp);
    BlockEndIsText(k, stamp);
    WrappedIsText(NOTICES[0] + stamp, lines, BLOCK_ENDS[k] + stamp);
  }

  lemma {:induction false} WrappedIsText(first: string, lines: seq<string>, last: string)
    requires IsText(first) && IsText(last) && forall i :: 0 <= i < |lines| ==> IsBodyLine(lines[i])
    ensures AreText([first] + lines + [last])
  {
    var all := [first] + lines + [last];
    forall i | 0 <= i < |all| ensures IsText(all[i]) {
      if 0 < i <= |lines| { assert IsBodyLine(lines[i - 1]); }
    }
  }

  lemma {:induction false} PrintedItemIsText(item: Item)
    requires IsPrintable(item)
    ensures AreText(PrintItem(item))
  {
    match item
    case Notification(e, choice) => FeedEvent(e, choice);
    case Reply(ts, number, flags, lines) => PrintedBlockIsText(ts, number, flags, lines, 0);
    case Failure(ts, number, flags, lines) => PrintedBlockIsText(ts, number, flags, lines, 1);
    case Noise(line) =>
  }

  lemma {:induction false} PrintedIsText(items: seq<Item>)
    requires ArePrintable(items)
    ensures AreText(PrintAll(items))
  {
    if items != [] {
      PrintedItemIsText(items[0]);
      PrintedIsText(items[1..]);
    }
  }

  /** Whatever tmux prints, whatever ends its lines and however the channel cuts the text, the
      reader task emits exactly the printed events, in order, and is fresh again afterwards. */
  lemma {:induction false} TaskReadsTmux(items: seq<Item>, endings: seq<string>, chunks: seq<string>)
    requires ArePrintable(items)
    requires |endings| == |PrintAll(items)| && AreEndings(endings)
    requires Concat(chunks) == Wire(PrintAll(items), endings)
    ensures ReceiveAll(FRESH, chunks) == (FRESH, AllEvents(items))
  {
    ChunkingIsIrrelevant(FRESH, chunks);
    PrintedIsText(items);
    FeedWire(None, PrintAll(items), endings);
    ParserReadsPrinter(items);
  }

  /** Midway through the stream, what has been emitted is a prefix of what will be. */
  lemma {:induction false} NothingEarlyOrWrong(
      items: seq<Item>, endings: seq<string>, soFar: seq<string>, later: string)
    requires ArePrintable(items)
    requires |endings| == |PrintAll(items)| && AreEndings(endings)
    requires Concat(soFar) + later == Wire(PrintAll(items), endings)
    ensures ReceiveAll(FRESH, soFar).1 <= AllEvents(items)
  {
    ConcatAppend(soFar, [later]);
    assert Concat([later]) == later + "" == later by { assert [later][1..] == []; }
    TaskReadsTmux(items, endings, soFar + [later]);
    RunAppend(Receive, FRESH, soFar, [later]);
  }

  // ---------------------------------------------------------------- the task's loop

  /** The reader task between two turns of its loop: events wait in the channel until a turn handles
      them, and the task may have stopped. */
  datatype Task = Task(reader: Reader, queue: seq<TmuxEvent>, handled: seq<TmuxEvent>, running: bool)

  const STARTED := Task(FRESH, [], [], true)

  /** What a turn of the loop picks: whichever of the two is ready, in any order. */
  datatype LoopTurn =
    | Data(text: string)
    | Handle
    | Closed  // the SSH channel ended

  function TakeTurn(t: Task, turn: LoopTurn): Option<Task> {
    if !t.running then None
    else
      match turn
      case Data(text) =>
        var (reader, events) := Receive(t.reader, text);
        Some(t.(reader := reader, queue := t.queue + events))
      case Handle =>
        if t.queue == [] then None
        else Some(t.(queue := t.queue[1..], handled := t.handled + [t.queue[0]], running := !t.queue[0].Exit?))
      case Closed => Some(t.(running := false))
  }

  function TakeTurns(t: Task, turns: seq<LoopTurn>): Option<Task>
    decreases |turns|
  {
    if turns == [] then Some(t)
    else
      var next := TakeTurn(t, turns[0]);
      if next.None? then None else TakeTurns(next.value, turns[1..])
  }

  /** The texts of the data messages among the turns. */
  function Texts(turns: seq<LoopTurn>): seq<string> {
    if turns == [] then []
    else if turns[0].Data? then [turns[0].text] + Texts(turns[1..])
    else Texts(turns[1..])
  }

  /** The events up to the first exit, which is included. */
  function UpToExit(events: seq<TmuxEvent>): seq<TmuxEvent> {
    if events == [] then []
    else if events[0].Exit? then [events[0]]
    else [events[0]] + UpToExit(events[1..])
  }

  predicate HoldsNoExit(events: seq<TmuxEvent>) {
    forall i :: 0 <= i < |events| ==> !events[i].Exit?
  }

  /** What has been handled holds no exit but possibly a last one, which has stopped the task. */
  predicate HandledOk(t: Task) {
    || HoldsNoExit(t.handled)
    || (!t.running && HoldsNoExit(t.handled[..|t.handled| - 1]))
  }

  lemma {:induction false} TurnKeeps(t: Task, turn: LoopTurn)
    requires HandledOk(t) && TakeTurn(t, turn).Some?
    ensures HandledOk(TakeTurn(t, turn).value)
  {
    if turn.Handle? {
      var t' := TakeTurn(t, turn).value;
      assert t'.handled[..|t'.handled| - 1] == t.handled;
    }
  }

  /** Events leave the channel in the order the data messages put them in. */
  lemma {:induction false} TurnsAreFair(t: Task, turns: seq<LoopTurn>)
    requires HandledOk(t) && TakeTurns(t, turns).Some?
    ensures var t' := TakeTurns(t, turns).value;
            && HandledOk(t')
            && t'.handled + t'.queue == t.handled + t.queue + ReceiveAll(t.reader, Texts(turns)).1
    decreases |turns|
  {
    if turns == [] {
      assert t.handled + t.queue + [] == t.handled + t.queue;
    } else {
      var next := TakeTurn(t, turns[0]).value;
      TurnKeeps(t, turns[0]);
      TurnsAreFair(next, turns[1..]);
      TurnMoves(t, turns[0], Texts(turns[1..]));
    }
  }

  lemma {:induction false} TurnMoves(t: Task, turn: LoopTurn, later: seq<string>)
    requires TakeTurn(t, turn).Some?
    ensures var next := TakeTurn(t, turn).value;
            next.handled + next.queue + ReceiveAll(next.reader, later).1 ==
            t.handled + t.queue + ReceiveAll(t.reader, if turn.Data? then [turn.text] + later else later).1
  {
    if turn.Data? {
      ReceiveFirst(t.reader, turn.text, later);
      Regroup(t.handled, t.queue, Receive(t.reader, turn.text).1,
              ReceiveAll(Receive(t.reader, turn.text).0, later).1);
    } else if turn.Handle? {
      assert t.handled + [t.queue[0]] + t.queue[1..] == t.handled + t.queue;
    }
  }

  lemma {:induction false} ReceiveFirst(r: Reader, text: string, later: seq<string>)
    ensures ReceiveAll(r, [text] + later).1 == Receive(r, text).1 + ReceiveAll(Receive(r, text).0, later).1
  {
    RunCons(Receive, r, text, later);
  }

  lemma {:induction false} Regroup<T>(a: seq<T>, b: seq<T>, c: seq<T>, d: seq<T>)
    ensures a + (b + c) + d == a + b + (c + d)
  {}

  lemma {:induction false} UpToExitOf(front: seq<TmuxEvent>, rest: seq<TmuxEvent>)
    requires HoldsNoExit(front)
    ensures UpToExit(front + rest) == front + UpToExit(rest)
  {
    if front == [] {
      assert front + rest == rest;
    } else {
      UpToExitOf(front[1..], rest);
      assert (front + rest)[1..] == front[1..] + rest;
    }
  }

  /** What is handled is a prefix of the events up to the first exit; all of them once that exit is
      handled, or once there are no more events to come. */
  lemma {:induction false} HandledIsPrefix(t: Task, rest: seq<TmuxEvent>)
    requires HandledOk(t)
    ensures t.handled <= UpToExit(t.handled + rest)
    ensures rest == [] || !HoldsNoExit(t.handled) ==> t.handled == UpToExit(t.handled + rest)
  {
    if HoldsNoExit(t.handled) {
      UpToExitOf(t.handled, rest);
    } else {
      var n := |t.handled| - 1;
      var last := t.handled[n];
      assert t.handled == t.handled[..n] + [last];
      UpToExitOf(t.handled[..n], [last] + rest);
      assert t.handled + rest == t.handled[..n] + ([last] + rest);
    }
  }

  lemma {:induction false} HandledFollows(t: Task, emitted: seq<TmuxEvent>, all: seq<TmuxEvent>)
    requires HandledOk(t) && t.handled + t.queue == emitted && emitted <= all
    ensures t.handled <= UpToExit(all)
    ensures (emitted == all && t.queue == []) || !HoldsNoExit(t.handled) ==> t.handled == UpToExit(all)
  {
    var rest := t.queue + all[|emitted|..];
    assert t.handled + rest == emitted + all[|emitted|..] == all;
    HandledIsPrefix(t, rest);
  }

  /** Whatever tmux prints and however it arrives, at every point of every run of the task's loop
      what it has handled is a prefix of the printed events up to the first exit, in order; it is
      all of them once that exit has been handled, or everything has arrived and none is waiting. */
  lemma {:induction false} TaskHandlesUpToExit(
      items: seq<Item>, endings: seq<string>, turns: seq<LoopTurn>, later: string)
    requires ArePrintable(items)
    requires |endings| == |PrintAll(items)| && AreEndings(endings)
    requires TakeTurns(STARTED, turns).Some? && Concat(Texts(turns)) + later == Wire(PrintAll(items), endings)
    ensures var t := TakeTurns(STARTED, turns).value;
            && t.handled <= UpToExit(AllEvents(items))
            && ((later == "" && t.queue == []) || !HoldsNoExit(t.handled) ==> t.handled == UpToExit(AllEvents(items)))
  {
    var t, texts := TakeTurns(STARTED, turns).value, Texts(turns);
    var emitted := ReceiveAll(FRESH, texts).1;
    TurnsAreFair(STARTED, turns);
    assert [] + [] + emitted == emitted;
    NothingEarlyOrWrong(items, endings, texts, later);
    if later == "" {
      assert Concat(texts) + "" == Concat(texts);
      TaskReadsTmux(items, endings, texts);
    }
    HandledFollows(t, emitted, AllEvents(items));
  }
}
