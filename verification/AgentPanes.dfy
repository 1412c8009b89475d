/**
 The agent's bookkeeping per client: which panes it forwards output for, and which size it last set
 for each, so that every resize of a pane causes one redraw and not two.
 */
module AgentPanes {
  import opened Text
  import opened SendKeys

  type PaneId = string
  type Size = (nat, nat)

  /** A command written to tmux. */
  datatype Command =
    | ResizeWindow(pane: PaneId, size: Size)
    | ResizePane(pane: PaneId, size: Size)
    | RunKillWinch(pane: PaneId)  // run-shell "kill -WINCH #{pane_pid}"

  datatype Agent = Agent(subscribed: set<PaneId>, dimensions: map<PaneId, Size>, forwarded: seq<(PaneId, seq<byte>)>)

  /** What reaches the agent.  `stdin` says whether tmux's control stdin is there to write to. */
  datatype Event =
    | Sub(pane: PaneId)
    | Unsub(pane: PaneId)
    | Output(pane: PaneId, data: seq<byte>)
    | Resize(pane: PaneId, cols: nat, rows: nat, stdin: bool)

  // ---------------------------------------------------------------- the handlers

  /** `as u16` keeps the low 16 bits. */
  function RequestedSize(cols: nat, rows: nat): Size {
    (cols % 0x1_0000, rows % 0x1_0000)
  }

  predicate Accepts(pane: PaneId, cols: nat, rows: nat) {
    IsPaneId(pane) && RequestedSize(cols, rows).0 > 0 && RequestedSize(cols, rows).1 > 0
  }

  /** A repeated size is followed by a forced redraw signal. */
  function Commands(a: Agent, pane: PaneId, size: Size): seq<Command> {
    [ResizeWindow(pane, size), ResizePane(pane, size)] +
    if pane in a.dimensions && a.dimensions[pane] == size then [RunKillWinch(pane)] else []
  }

  /** The agent after an event, and the commands it writes. */
  function Handle(a: Agent, e: Event): (Agent, seq<Command>) {
    match e
    case Sub(pane) => (if IsPaneId(pane) then a.(subscribed := a.subscribed + {pane}) else a, [])
    case Unsub(pane) => (if IsPaneId(pane) then a.(subscribed := a.subscribed - {pane}) else a, [])
    case Output(pane, data) =>
      (if pane in a.subscribed then a.(forwarded := a.forwarded + [(pane, data)]) else a, [])
    case Resize(pane, cols, rows, stdin) =>
      if !Accepts(pane, cols, rows) then (a, [])
      else
        var size := RequestedSize(cols, rows);
        (a.(dimensions := a.dimensions[pane := size]), if stdin then Commands(a, pane, size) else [])
  }

  // ---------------------------------------------------------------- the text of the commands

  function Words(c: Command): (words: seq<string>)
    ensures words != []
  {
    match c
    case ResizeWindow(pane, (cols, rows)) => ["resize-window", "-t", pane, "-x", Dec(cols), "-y", Dec(rows)]
    case ResizePane(pane, (cols, rows)) => ["resize-pane", "-t", pane, "-x", Dec(cols), "-y", Dec(rows)]
    case RunKillWinch(pane) => ["run-shell", "-t", pane, "\"kill", "-WINCH", "#{pane_pid}\""]
  }

  /** One line per command. */
  function TextOf(commands: seq<Command>): string {
    if commands == [] then "" else Join(Words(commands[0]), ' ') + ['\n'] + TextOf(commands[1..])
  }

  /** A line as tmux takes it apart. */
  function ReadLine(words: seq<string>): Option<Command> {
    if |words| == 7 && words[1] == "-t" && words[3] == "-x" && words[5] == "-y" then
      var cols, rows := ParseUnsigned(words[4], 0xFFFF), ParseUnsigned(words[6], 0xFFFF);
      if cols.None? || rows.None? then None
      else if words[0] == "resize-window" then Some(ResizeWindow(words[2], (cols.value, rows.value)))
      else if words[0] == "resize-pane" then Some(ResizePane(words[2], (cols.value, rows.value)))
      else None
    else if |words| == 6 && words[0] == "run-shell" && words[1] == "-t" &&
            words[3..] == ["\"kill", "-WINCH", "#{pane_pid}\""] then Some(RunKillWinch(words[2]))
    else None
  }

  function ReadText(text: string): Option<seq<Command>>
    decreases |text|
  {
    if text == "" then Some([])
    else
      var k := FindAny(text, ['\n']);
      if k == |text| then None
      else
        var first, rest := ReadLine(Split(text[..k], ' ')), ReadText(text[k + 1..]);
        if first.Some? && rest.Some? then Some([first.value] + rest.value) else None
  }

  predicate IsPrintable(c: Command) {
    IsPaneId(c.pane) && (!c.RunKillWinch? ==> c.size.0 <= 0xFFFF && c.size.1 <= 0xFFFF)
  }

  predicate IsWord(s: string) {
    ' ' !in s && '\n' !in s
  }

  lemma {:induction false} PaneIsWord(pane: string)
    requires IsPaneId(pane)
    ensures IsWord(pane)
  {
    PaneIdChars(pane);
  }

  lemma {:induction false} NumberIsWord(n: nat)
    ensures IsWord(Dec(n))
  {}

  lemma {:induction false} FixedWords()
    ensures IsWord("resize-window") && IsWord("resize-pane") && IsWord("-t") && IsWord("-x") && IsWord("-y")
    ensures IsWord("run-shell") && IsWord("\"kill") && IsWord("-WINCH") && IsWord("#{pane_pid}\"")
  {}

  lemma {:induction false} WordsHoldNoSpace(c: Command)
    requires IsPrintable(c)
    ensures forall i :: 0 <= i < |Words(c)| ==> IsWord(Words(c)[i])
  {
    PaneIsWord(c.pane);
    FixedWords();
    if !c.RunKillWinch? {
      NumberIsWord(c.size.0);
      NumberIsWord(c.size.1);
    }
  }

  lemma {:induction false} KindsDiffer()
    ensures "resize-window" != "resize-pane"
  {
    assert "resize-window"[7] == 'w' && "resize-pane"[7] == 'p';
  }

  lemma {:induction false} ReadWords(c: Command)
    requires IsPrintable(c)
    ensures ReadLine(Words(c)) == Some(c)
  {
    if !c.RunKillWinch? {
      ParseOfDec(c.size.0, 0xFFFF);
      ParseOfDec(c.size.1, 0xFFFF);
      KindsDiffer();
    }
  }

  lemma {:induction false} ReadOneLine(c: Command, rest: string)
    requires IsPrintable(c)
    ensures var text := Join(Words(c), ' ') + ['\n'] + rest;
            ReadText(text) == if ReadText(rest).Some? then Some([c] + ReadText(rest).value) else None
  {
    WordsHoldNoSpace(c);
    var line := Join(Words(c), ' ');
    JoinHoldsNo(Words(c), ' ', '\n');
    SplitOfJoin(Words(c), ' ');
    ReadWords(c);
    var text := line + ['\n'] + rest;
    FindAnyIs(text, ['\n'], |line|);
    assert text[..|line|] == line && text[|line| + 1..] == rest;
  }

  /** The text written is read back as exactly the commands meant. */
  lemma {:induction false} CommandsSurviveText(commands: seq<Command>)
    requires forall i :: 0 <= i < |commands| ==> IsPrintable(commands[i])
    ensures ReadText(TextOf(commands)) == Some(commands)
  {
    if commands != [] {
      CommandsSurviveText(commands[1..]);
      ReadOneLine(commands[0], TextOf(commands[1..]));
      assert [commands[0]] + commands[1..] == commands;
    }
  }

  predicate Fits(pane: PaneId, cols: nat, rows: nat) {
    IsPaneId(pane) && 0 < cols <= 0xFFFF && 0 < rows <= 0xFFFF
  }

  /** What tmux is to do for a resize to a size that fits, given the sizes recorded: take the size,
      columns first, and redraw if the size is the recorded one. */
  function Meant(recorded: map<PaneId, Size>, pane: PaneId, cols: nat, rows: nat, stdin: bool): seq<Command> {
    if !stdin then []
    else if pane in recorded && recorded[pane] == (cols, rows) then
      [ResizeWindow(pane, (cols, rows)), ResizePane(pane, (cols, rows)), RunKillWinch(pane)]
    else [ResizeWindow(pane, (cols, rows)), ResizePane(pane, (cols, rows))]
  }

  lemma {:induction false} CommandsAreMeant(a: Agent, pane: PaneId, cols: nat, rows: nat)
    requires Fits(pane, cols, rows)
    ensures RequestedSize(cols, rows) == (cols, rows)
    ensures Commands(a, pane, (cols, rows)) == Meant(a.dimensions, pane, cols, rows, true)
  {
    var resize := [ResizeWindow(pane, (cols, rows)), ResizePane(pane, (cols, rows))];
    assert resize + [] == resize;
    assert resize + [RunKillWinch(pane)] == [resize[0], resize[1], RunKillWinch(pane)];
  }

  lemma {:induction false} MeantIsPrintable(
      recorded: map<PaneId, Size>, pane: PaneId, cols: nat, rows: nat, stdin: bool)
    requires Fits(pane, cols, rows)
    ensures var commands := Meant(recorded, pane, cols, rows, stdin);
            forall i :: 0 <= i < |commands| ==> IsPrintable(commands[i])
  {}

  /** A resize to a size that fits is recorded, and written as it was meant. */
  lemma {:induction false} ResizeIs(a: Agent, pane: PaneId, cols: nat, rows: nat, stdin: bool)
    requires Fits(pane, cols, rows)
    ensures var (a', commands) := Handle(a, Resize(pane, cols, rows, stdin));
            && a' == a.(dimensions := a.dimensions[pane := (cols, rows)])
            && commands == Meant(a.dimensions, pane, cols, rows, stdin)
    ensures var meant := Meant(a.dimensions, pane, cols, rows, stdin); ReadText(TextOf(meant)) == Some(meant)
  {
    CommandsAreMeant(a, pane, cols, rows);
    MeantIsPrintable(a.dimensions, pane, cols, rows, stdin);
    CommandsSurviveText(Meant(a.dimensions, pane, cols, rows, stdin));
  }

  /** Only the low 16 bits of a size count; a size that has none left, or no pane's, changes nothing. */
  lemma {:induction false} ResizeWraps(a: Agent, pane: PaneId, cols: nat, rows: nat, i: nat, j: nat, stdin: bool)
    requires cols <= 0xFFFF && rows <= 0xFFFF
    ensures Handle(a, Resize(pane, cols + 0x1_0000 * i, rows + 0x1_0000 * j, stdin)) ==
            Handle(a, Resize(pane, cols, rows, stdin))
    ensures cols == 0 || rows == 0 || !IsPaneId(pane) ==> Handle(a, Resize(pane, cols, rows, stdin)) == (a, [])
  {}

  class AgentClient {
    var subscribedPanes: set<PaneId>
    var paneDimensions: map<PaneId, Size>
    var forwarded: seq<(PaneId, seq<byte>)>

    constructor ()
      ensures State() == Agent({}, map[], [])
    {
      subscribedPanes, paneDimensions, forwarded := {}, map[], [];
    }

    ghost function State(): Agent
      reads this
    {
      Agent(subscribedPanes, paneDimensions, forwarded)
    }

    method OnSub(pane: PaneId)
      modifies this
      ensures State() == Handle(old(State()), Sub(pane)).0
    {
      if IsPaneId(pane) { subscribedPanes := subscribedPanes + {pane}; }
    }

    method OnUnsub(pane: PaneId)
      modifies this
      ensures State() == Handle(old(State()), Unsub(pane)).0
    {
      if IsPaneId(pane) { subscribedPanes := subscribedPanes - {pane}; }
    }

    method OnOutput(pane: PaneId, data: seq<byte>)
      modifies this
      ensures State() == Handle(old(State()), Output(pane, data)).0
    {
      if pane in subscribedPanes { forwarded := forwarded + [(pane, data)]; }
    }

    /** `written` is what goes to control stdin. */
    method OnResize(pane: PaneId, cols64: nat, rows64: nat, stdin: bool) returns (written: string)
      modifies this
      ensures State() == Handle(old(State()), Resize(pane, cols64, rows64, stdin)).0
      ensures written == TextOf(Handle(old(State()), Resize(pane, cols64, rows64, stdin)).1)
      ensures ReadText(written) == Some(Handle(old(State()), Resize(pane, cols64, rows64, stdin)).1)
      ensures Fits(pane, cols64, rows64) ==>
                && paneDimensions == old(paneDimensions)[pane := (cols64, rows64)]
                && ReadText(written) == Some(Meant(old(paneDimensions), pane, cols64, rows64, stdin))
    {
      written := "";
      if Fits(pane, cols64, rows64) { ResizeIs(State(), pane, cols64, rows64, stdin); }
      CommandsSurviveText(Handle(State(), Resize(pane, cols64, rows64, stdin)).1);
      var cols, rows := cols64 % 0x1_0000, rows64 % 0x1_0000;
      if IsPaneId(pane) && cols > 0 && rows > 0 {
        var dimsChanged := !(pane in paneDimensions && paneDimensions[pane] == (cols, rows));
        paneDimensions := paneDimensions[pane := (cols, rows)];
        var cmd := [ResizeWindow(pane, (cols, rows)), ResizePane(pane, (cols, rows))];
        assert cmd + [] == cmd;
        if !dimsChanged {
          cmd := cmd + [RunKillWinch(pane)];
        }
        if stdin { written := TextOf(cmd); }
      }
    }
  }

  // ---------------------------------------------------------------- forwarding

  const FRESH := Agent({}, map[], [])

  function AfterEvents(events: seq<Event>): Agent {
    if events == [] then FRESH else Handle(AfterEvents(events[..|events| - 1]), events[|events| - 1]).0
  }

  /** The latest subscription message for the pane was a valid `sub`. */
  ghost predicate WantsOutput(events: seq<Event>, pane: PaneId) {
    IsPaneId(pane) &&
    exists i :: 0 <= i < |events| && events[i] == Sub(pane) && forall j :: i < j < |events| ==> events[j] != Unsub(pane)
  }

  /** The outputs that arrive while they are wanted, in arrival order. */
  ghost function Wanted(events: seq<Event>): seq<(PaneId, seq<byte>)> {
    if events == [] then []
    else
      var n := |events| - 1;
      Wanted(events[..n]) +
      if events[n].Output? && WantsOutput(events[..n], events[n].pane) then [(events[n].pane, events[n].data)] else []
  }

  lemma {:induction false} WantsAfter(events: seq<Event>, pane: PaneId)
    requires events != []
    ensures var n := |events| - 1;
            WantsOutput(events, pane) <==>
            IsPaneId(pane) && (events[n] == Sub(pane) || (WantsOutput(events[..n], pane) && events[n] != Unsub(pane)))
  {
    var n := |events| - 1;
    var init := events[..n];
    if WantsOutput(events, pane) && events[n] != Sub(pane) {
      var i :| 0 <= i < |events| && events[i] == Sub(pane) && forall j :: i < j < |events| ==> events[j] != Unsub(pane);
      assert init[i] == Sub(pane);
    }
    if WantsOutput(init, pane) && events[n] != Unsub(pane) {
      var i :| 0 <= i < n && init[i] == Sub(pane) && forall j :: i < j < n ==> init[j] != Unsub(pane);
      assert events[i] == Sub(pane);
      forall j | i < j < |events| ensures events[j] != Unsub(pane) {
        if j < n { assert init[j] == events[j]; }
      }
    }
  }

  lemma {:induction false} SubscribedIffWanted(events: seq<Event>, pane: PaneId)
    ensures pane in AfterEvents(events).subscribed <==> WantsOutput(events, pane)
  {
    if events != [] {
      SubscribedIffWanted(events[..|events| - 1], pane);
      WantsAfter(events, pane);
    }
  }

  /** Over every run the agent forwards exactly the wanted outputs, in arrival order. */
  lemma {:induction false} ForwardsExactlyWanted(events: seq<Event>)
    ensures AfterEvents(events).forwarded == Wanted(events)
  {
    if events != [] {
      var n := |events| - 1;
      ForwardsExactlyWanted(events[..n]);
      if events[n].Output? { SubscribedIffWanted(events[..n], events[n].pane); }
      assert Wanted(events[..n]) + [] == Wanted(events[..n]);
    }
  }

  // ---------------------------------------------------------------- redraws

  /** tmux with one pane per window: a window's new size reaches its pane as one signal, its only
      pane cannot be resized on its own, and nobody else resizes. */
  datatype Tmux = Tmux(sizes: map<PaneId, Size>, signals: seq<PaneId>)

  function Execute(t: Tmux, c: Command): Tmux {
    match c
    case ResizeWindow(pane, size) =>
      if pane in t.sizes && t.sizes[pane] != size then Tmux(t.sizes[pane := size], t.signals + [pane]) else t
    case ResizePane(_, _) => t
    case RunKillWinch(pane) => if pane in t.sizes then t.(signals := t.signals + [pane]) else t
  }

  function ExecuteAll(t: Tmux, commands: seq<Command>): Tmux
    decreases |commands|
  {
    if commands == [] then t else ExecuteAll(Execute(t, commands[0]), commands[1..])
  }

  function Together(a: Agent, t: Tmux, e: Event): (Agent, Tmux) {
    var (a', commands) := Handle(a, e);
    (a', ExecuteAll(t, commands))
  }

  function RunTogether(t: Tmux, events: seq<Event>): (Agent, Tmux) {
    if events == [] then (FRESH, t)
    else
      var before := RunTogether(t, events[..|events| - 1]);
      Together(before.0, before.1, events[|events| - 1])
  }

  lemma {:induction false} CommandsExecute(a: Agent, t: Tmux, pane: PaneId, size: Size)
    requires pane in t.sizes
    ensures var t' := ExecuteAll(t, Commands(a, pane, size));
            && t'.sizes == t.sizes[pane := size]
            && t'.signals == t.signals + (if t.sizes[pane] != size then [pane] else []) +
                             (if pane in a.dimensions && a.dimensions[pane] == size then [pane] else [])
  {
    var cs := Commands(a, pane, size);
    var t1 := Execute(t, cs[0]);
    var t2 := Execute(t1, cs[1]);
    assert ExecuteAll(t, cs) == ExecuteAll(t1, cs[1..]);
    assert cs[1..][0] == cs[1];
    assert ExecuteAll(t1, cs[1..]) == ExecuteAll(t2, cs[1..][1..]);
    assert cs[1..][1..] == cs[2..];
    if |cs| == 3 {
      assert cs[2..] == [RunKillWinch(pane)];
      assert [RunKillWinch(pane)][1..] == [];
    }
    assert t2.sizes == t.sizes[pane := size];
    assert t.signals + [] == t.signals && t2.signals + [] == t2.signals;
  }

  lemma {:induction false} UnknownPaneIgnored(t: Tmux, pane: PaneId, commands: seq<Command>)
    requires pane !in t.sizes && forall i :: 0 <= i < |commands| ==> commands[i].pane == pane
    ensures ExecuteAll(t, commands) == t
    decreases |commands|
  {
    if commands != [] {
      assert commands[0].pane == pane;
      UnknownPaneIgnored(t, pane, commands[1..]);
    }
  }

  /** Recorded sizes are tmux's own. */
  predicate InStep(a: Agent, t: Tmux) {
    forall p :: p in a.dimensions && p in t.sizes ==> t.sizes[p] == a.dimensions[p]
  }

  predicate StdinOpen(events: seq<Event>) {
    forall i :: 0 <= i < |events| ==> events[i].Resize? ==> events[i].stdin
  }

  lemma {:induction false} EventKeepsStep(a: Agent, t: Tmux, e: Event)
    requires InStep(a, t) && (e.Resize? ==> e.stdin)
    ensures InStep(Together(a, t, e).0, Together(a, t, e).1)
    ensures Together(a, t, e).1.sizes.Keys == t.sizes.Keys
  {
    if e.Resize? && Accepts(e.pane, e.cols, e.rows) {
      var size := RequestedSize(e.cols, e.rows);
      if e.pane in t.sizes {
        CommandsExecute(a, t, e.pane, size);
      } else {
        UnknownPaneIgnored(t, e.pane, Commands(a, e.pane, size));
      }
    }
  }

  /** Over every run with control stdin there, the size recorded for a pane is tmux's size of it from
      its first accepted resize on. */
  lemma {:induction false} RecordedSizeIsTmuxSize(t: Tmux, events: seq<Event>)
    requires StdinOpen(events)
    ensures InStep(RunTogether(t, events).0, RunTogether(t, events).1)
    ensures RunTogether(t, events).1.sizes.Keys == t.sizes.Keys
  {
    if events != [] {
      var n := |events| - 1;
      RecordedSizeIsTmuxSize(t, events[..n]);
      var before := RunTogether(t, events[..n]);
      EventKeepsStep(before.0, before.1, events[n]);
    }
  }

  predicate Resizes(e: Event, pane: PaneId) {
    e.Resize? && e.pane == pane && Accepts(e.pane, e.cols, e.rows)
  }

  /** The size last asked for. */
  function LastAsked(events: seq<Event>, pane: PaneId): Option<Size> {
    if events == [] then None
    else
      var e := events[|events| - 1];
      if Resizes(e, pane) then Some(RequestedSize(e.cols, e.rows)) else LastAsked(events[..|events| - 1], pane)
  }

  /** The size last asked for while control stdin was there, else the one tmux started with. */
  function LastDelivered(events: seq<Event>, pane: PaneId, first: Size): Size {
    if events == [] then first
    else
      var e := events[|events| - 1];
      if Resizes(e, pane) && e.stdin then RequestedSize(e.cols, e.rows)
      else LastDelivered(events[..|events| - 1], pane, first)
  }

  lemma {:induction false} EventSetsSize(a: Agent, t: Tmux, e: Event, pane: PaneId)
    requires pane in t.sizes
    ensures var (a', t') := Together(a, t, e);
            && pane in t'.sizes
            && t'.sizes[pane] == (if Resizes(e, pane) && e.stdin then RequestedSize(e.cols, e.rows) else t.sizes[pane])
            && (pane in a'.dimensions <==> pane in a.dimensions || Resizes(e, pane))
            && (pane in a'.dimensions ==>
                  a'.dimensions[pane] == if Resizes(e, pane) then RequestedSize(e.cols, e.rows) else a.dimensions[pane])
  {
    if e.Resize? && Accepts(e.pane, e.cols, e.rows) && e.stdin {
      var size := RequestedSize(e.cols, e.rows);
      if e.pane in t.sizes {
        CommandsExecute(a, t, e.pane, size);
      } else {
        UnknownPaneIgnored(t, e.pane, Commands(a, e.pane, size));
      }
    }
  }

  /** Over every run, stdin there or not, the record holds the size last asked for and tmux has the
      one last delivered. */
  lemma {:induction false} SizesFollowHistory(t: Tmux, events: seq<Event>, pane: PaneId)
    requires pane in t.sizes
    ensures var (a, t') := RunTogether(t, events);
            && pane in t'.sizes && t'.sizes[pane] == LastDelivered(events, pane, t.sizes[pane])
            && LastAsked(events, pane) == if pane in a.dimensions then Some(a.dimensions[pane]) else None
  {
    if events != [] {
      var n := |events| - 1;
      SizesFollowHistory(t, events[..n], pane);
      var before := RunTogether(t, events[..n]);
      EventSetsSize(before.0, before.1, events[n], pane);
    }
  }

  /** Over every run, whatever came before it and whatever else follows: the last resize of a pane,
      if stdin was there for it, is the pane's size in tmux and the one recorded. */
  lemma {:induction false} LastResizeHolds(
      t: Tmux, events: seq<Event>, i: nat, pane: PaneId, cols: nat, rows: nat)
    requires i < |events| && events[i] == Resize(pane, cols, rows, true) && pane in t.sizes
    requires Fits(pane, cols, rows)
    requires forall j :: i < j < |events| ==> events[j].Resize? ==> events[j].pane != pane
    ensures var (a, t') := RunTogether(t, events);
            pane in a.dimensions && pane in t'.sizes && a.dimensions[pane] == t'.sizes[pane] == (cols, rows)
  {
    var n := |events| - 1;
    SizesFollowHistory(t, events[..n], pane);
    var before := RunTogether(t, events[..n]);
    EventSetsSize(before.0, before.1, events[n], pane);
    if i < n {
      LastResizeHolds(t, events[..n], i, pane, cols, rows);
    }
  }

  /** Over every run the recorded size of a pane is tmux's if and only if the size last asked for is
      the one last delivered. */
  lemma {:induction false} RecordedSizeIsTmuxSizeIff(t: Tmux, events: seq<Event>, pane: PaneId)
    requires pane in t.sizes && LastAsked(events, pane).Some?
    ensures var (a, t') := RunTogether(t, events);
            && pane in a.dimensions && pane in t'.sizes
            && (a.dimensions[pane] == t'.sizes[pane] <==>
                  LastAsked(events, pane).value == LastDelivered(events, pane, t.sizes[pane]))
  {
    SizesFollowHistory(t, events, pane);
  }

  /** In any state an accepted resize of a pane that has been resized before causes exactly one
      redraw if and only if control stdin is there and tmux has the requested size just when the
      record says so. */
  lemma {:induction false} OneRedrawIff(a: Agent, t: Tmux, pane: PaneId, cols: nat, rows: nat, stdin: bool)
    requires Accepts(pane, cols, rows) && pane in a.dimensions && pane in t.sizes
    ensures var size := RequestedSize(cols, rows);
            var t' := Together(a, t, Resize(pane, cols, rows, stdin)).1;
            && pane in t'.sizes && t'.sizes[pane] == (if stdin then size else t.sizes[pane])
            && (t'.signals == t.signals + [pane] <==>
                  stdin && (t.sizes[pane] == size <==> a.dimensions[pane] == size))
  {
    var size := RequestedSize(cols, rows);
    CommandsExecute(a, t, pane, size);
    var natural := if t.sizes[pane] != size then [pane] else [];
    var forced := if a.dimensions[pane] == size then [pane] else [];
    assert (t.signals + natural + forced)[|t.signals|..] == natural + forced;
    assert (t.signals + [pane])[|t.signals|..] == [pane];
    if natural == forced {
      assert |natural + forced| != 1;
    } else {
      assert natural + forced == [pane];
      assert t.signals + natural + forced == t.signals + (natural + forced);
    }
  }

  /** Over every run, stdin there or not, a resize of a pane resized before causes exactly one redraw
      if and only if control stdin is there and the size asked for was the one last delivered just
      when it was the one last asked for. */
  lemma {:induction false} OneRedrawInRunIff(
      t: Tmux, events: seq<Event>, pane: PaneId, cols: nat, rows: nat, stdin: bool)
    requires Accepts(pane, cols, rows) && pane in t.sizes && LastAsked(events, pane).Some?
    ensures var (a, t1) := RunTogether(t, events);
            var size := RequestedSize(cols, rows);
            Together(a, t1, Resize(pane, cols, rows, stdin)).1.signals == t1.signals + [pane] <==>
            stdin && (LastDelivered(events, pane, t.sizes[pane]) == size <==> LastAsked(events, pane) == Some(size))
  {
    SizesFollowHistory(t, events, pane);
    var (a, t1) := RunTogether(t, events);
    OneRedrawIff(a, t1, pane, cols, rows, stdin);
  }

  /** Over every run with control stdin there, each accepted resize of a pane after its first causes
      exactly one redraw, natural or forced; the first causes one exactly when it changes the size. */
  lemma {:induction false} OneRedrawPerResize(t: Tmux, events: seq<Event>, pane: PaneId, cols: nat, rows: nat)
    requires StdinOpen(events) && Accepts(pane, cols, rows) && pane in t.sizes
    ensures var (a, t1) := RunTogether(t, events);
            var t2 := Together(a, t1, Resize(pane, cols, rows, true)).1;
            && pane in t1.sizes
            && t2.signals == t1.signals +
              if pane in a.dimensions || t1.sizes[pane] != RequestedSize(cols, rows) then [pane] else []
  {
    RecordedSizeIsTmuxSize(t, events);
    var (a, t1) := RunTogether(t, events);
    if pane in a.dimensions {
      OneRedrawIff(a, t1, pane, cols, rows, true);
    } else {
      CommandsExecute(a, t1, pane, RequestedSize(cols, rows));
      assert t1.signals + [] + [] == t1.signals;
      assert t1.signals + [pane] + [] == t1.signals + [pane];
    }
  }

  /** Without control stdin a size is recorded that tmux never got, and asking for it again causes
      two redraws. */
  lemma {:induction false} LostResizeRedrawsTwice(pane: PaneId)
    requires IsPaneId(pane)
    ensures var t := Tmux(map[pane := (80, 24)], []);
            var (a1, t1) := RunTogether(t, [Resize(pane, 100, 30, false)]);
            var (a2, t2) := RunTogether(t, [Resize(pane, 100, 30, false), Resize(pane, 100, 30, true)]);
            && pane in a1.dimensions && pane in t1.sizes && t1.sizes[pane] != a1.dimensions[pane]
            && t2.signals == [pane, pane]
  {
    var t := Tmux(map[pane := (80, 24)], []);
    var e1, e2 := Resize(pane, 100, 30, false), Resize(pane, 100, 30, true);
    RunTogetherStep(t, [], e1);
    RunTogetherStep(t, [e1], e2);
    assert [] + [e1] == [e1] && [e1] + [e2] == [e1, e2];
    var (a1, t1) := Together(FRESH, t, e1);
    CommandsExecute(a1, t1, pane, (100, 30));
    assert t1.signals + [pane] + [pane] == [pane, pane];
  }

  lemma {:induction false} RunTogetherStep(t: Tmux, events: seq<Event>, e: Event)
    ensures var before := RunTogether(t, events);
            RunTogether(t, events + [e]) == Together(before.0, before.1, e)
  {
    assert (events + [e])[..|events|] == events;
  }
}
