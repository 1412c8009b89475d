/**
 The flat `list-panes` listing, rebuilt into a tree of sessions, windows and panes.
 */
module PaneListing {
  import opened Text

  const MAX_USIZE: nat := 0xFFFF_FFFF_FFFF_FFFF

  datatype PaneInfo = PaneInfo(
    id: string, index: nat, cols: nat, rows: nat, command: string, isActive: bool, isClaude: bool)

  datatype Window = Window(id: string, name: string, index: nat, layout: string, panes: seq<PaneInfo>)

  datatype Session = Session(id: string, name: string, windows: seq<Window>)

  /** A line of the listing that has all its fields. */
  datatype Row = Row(
    sessId: string, sessName: string, winId: string, winName: string, winIndex: nat, layout: string, pane: PaneInfo)

  // ---------------------------------------------------------------- lines and fields

  /** `str::lines` */
  function Lines(text: string): seq<string>
    decreases |text|
  {
    if text == [] then []
    else
      var k := FindAny(text, "\n");
      if k == |text| then [text]
      else
        [if k > 0 && text[k - 1] == '\r' then text[..k - 1] else text[..k]] + Lines(text[k + 1..])
  }

  const BAR: string := "|||"

  /** `split("|||")` */
  function Fields(s: string): (fields: seq<string>)
    ensures |fields| >= 1
    decreases |s|
  {
    var k := Find(s, BAR);
    if k == |s| then [s] else [s[..k]] + Fields(s[k + 3..])
  }

  predicate Contains(s: string, sub: string) {
    sub <= s || (s != [] && Contains(s[1..], sub))
  }

  lemma {:induction false} ContainsIff(s: string, sub: string)
    ensures Contains(s, sub) <==> exists k: nat :: OccursAt(s, sub, k)
  {
    assert s[0..] == s;
    if sub <= s {
      assert OccursAt(s, sub, 0);
    } else if s != [] {
      ContainsIff(s[1..], sub);
      if Contains(s[1..], sub) {
        var k: nat :| OccursAt(s[1..], sub, k);
        assert s[1..][k..] == s[k + 1..];
        assert OccursAt(s, sub, k + 1);
      }
      if k: nat :| OccursAt(s, sub, k) {
        assert s[1..][k - 1..] == s[k..];
        assert OccursAt(s[1..], sub, k - 1);
      }
    }
  }

  function OrDefault(r: Option<nat>, d: nat): nat {
    if r.Some? then r.value else d
  }

  function RowOf(fields: seq<string>): Option<Row> {
    if |fields| < 12 then None
    else
      Some(Row(fields[0], fields[1], fields[2], fields[3],
               OrDefault(ParseUnsigned(fields[4], MAX_USIZE), 0), fields[5],
               PaneInfo(fields[6],
                        OrDefault(ParseUnsigned(fields[7], MAX_USIZE), 0),
                        OrDefault(ParseUnsigned(fields[8], MAX_U16), 80),
                        OrDefault(ParseUnsigned(fields[9], MAX_U16), 24),
                        fields[10], fields[11] == "1", Contains(fields[10], "claude"))))
  }

  /** The row a line holds; a line with too few fields holds none. */
  function RowsIn(line: string): seq<Row> {
    var row := RowOf(Fields(line));
    if row.Some? then [row.value] else []
  }

  function RowsOf(lines: seq<string>): seq<Row> {
    if lines == [] then [] else RowsOf(lines[..|lines| - 1]) + RowsIn(lines[|lines| - 1])
  }

  function JoinFields(fields: seq<string>): string
    requires fields != []
  {
    if |fields| == 1 then fields[0] else fields[0] + BAR + JoinFields(fields[1..])
  }

  lemma {:induction false} FieldThenRest(field: string, rest: string)
    ensures var fields := Fields(field + BAR + rest);
            if IsSeparable(field, BAR) then fields == [field] + Fields(rest) else fields[0] != field
  {
    var s := field + BAR + rest;
    FindSeparatorIff(field, BAR, rest);
    assert s[..|field|] == field && s[|field| + 3..] == rest;
  }

  /** The separator is found after each field but the last, and not in that. */
  predicate AreFields(fields: seq<string>)
    requires fields != []
  {
    var n := |fields| - 1;
    (forall i :: 0 <= i < n ==> IsSeparable(fields[i], BAR)) && Find(fields[n], BAR) == |fields[n]|
  }

  lemma {:induction false} AreFieldsCons(field: string, rest: seq<string>)
    requires rest != []
    ensures AreFields([field] + rest) <==> IsSeparable(field, BAR) && AreFields(rest)
  {
    var fields := [field] + rest;
    assert fields[0] == field && fields[|fields| - 1] == rest[|rest| - 1];
    if AreFields(fields) {
      forall i | 0 <= i < |rest| - 1 ensures IsSeparable(rest[i], BAR) { assert rest[i] == fields[i + 1]; }
    }
    if IsSeparable(field, BAR) && AreFields(rest) {
      forall i | 0 <= i < |rest| ensures IsSeparable(fields[i], BAR) {
        if i > 0 { assert fields[i] == rest[i - 1]; }
      }
    }
  }

  lemma {:induction false} SameHead(field: string, got: seq<string>, rest: seq<string>)
    ensures [field] + got == [field] + rest <==> got == rest
  {
    assert ([field] + got)[1..] == got && ([field] + rest)[1..] == rest;
  }

  /** Joined fields are split where they were joined exactly when no separator can be taken for
      another. */
  lemma {:induction false} FieldsRoundTripIff(fields: seq<string>)
    requires fields != []
    ensures Fields(JoinFields(fields)) == fields <==> AreFields(fields)
  {
    if |fields| > 1 {
      var field, rest := fields[0], fields[1..];
      FieldsRoundTripIff(rest);
      FieldThenRest(field, JoinFields(rest));
      AreFieldsCons(field, rest);
      SameHead(field, Fields(JoinFields(rest)), rest);
      assert fields == [field] + rest;
    } else {
      OneField(fields[0]);
    }
  }

  lemma {:induction false} OneField(field: string)
    ensures Fields(field) == [field] <==> Find(field, BAR) == |field|
  {
    if Find(field, BAR) < |field| { assert |Fields(field)| >= 2; }
  }

  // ---------------------------------------------------------------- what tmux prints

  /** A field that cannot run into the separator or break the line: it may hold bars, but no three
      in a row and none at its end. */
  predicate IsField(s: string) {
    (forall i :: 0 <= i < |s| ==> !OccursAt(s, BAR, i)) && (s != [] ==> s[|s| - 1] != '|') && '\n' !in s
  }

  lemma {:induction false} FieldsAreFields(fields: seq<string>)
    requires fields != [] && forall i :: 0 <= i < |fields| ==> IsField(fields[i])
    ensures AreFields(fields)
  {
    forall i | 0 <= i < |fields| ensures IsSeparable(fields[i], BAR) && Find(fields[i], BAR) == |fields[i]| {
      SeparableIff(fields[i], BAR, '|');
    }
  }

  predicate IsPrintable(row: Row) {
    && IsField(row.sessId) && IsField(row.sessName) && IsField(row.winId) && IsField(row.winName)
    && IsField(row.layout) && IsField(row.pane.id) && IsField(row.pane.command)
    && row.winIndex <= MAX_USIZE && row.pane.index <= MAX_USIZE
    && row.pane.cols <= MAX_U16 && row.pane.rows <= MAX_U16
    && (row.pane.isClaude <==> Contains(row.pane.command, "claude"))
  }

  function PrintFields(row: Row): seq<string> {
    [row.sessId, row.sessName, row.winId, row.winName, Dec(row.winIndex), row.layout,
     row.pane.id, Dec(row.pane.index), Dec(row.pane.cols), Dec(row.pane.rows),
     row.pane.command, if row.pane.isActive then "1" else "0"]
  }

  function PrintRow(row: Row): string {
    JoinFields(PrintFields(row))
  }

  /** Every line ends in a newline, or a carriage return and one; the last may have no end. */
  predicate AreEnds(ends: seq<string>) {
    && (forall i :: 0 <= i < |ends| ==> ends[i] == "\n" || ends[i] == "\r\n" || ends[i] == "")
    && (forall i :: 0 <= i < |ends| - 1 ==> ends[i] != "")
  }

  function PrintListing(rows: seq<Row>, ends: seq<string>): string
    requires |ends| == |rows|
  {
    if rows == [] then "" else PrintRow(rows[0]) + ends[0] + PrintListing(rows[1..], ends[1..])
  }

  lemma {:induction false} ReadFields(row: Row)
    requires IsPrintable(row)
    ensures RowOf(PrintFields(row)) == Some(row)
  {
    ParseOfDec(row.winIndex, MAX_USIZE);
    ParseOfDec(row.pane.index, MAX_USIZE);
    ParseOfDec(row.pane.cols, MAX_U16);
    ParseOfDec(row.pane.rows, MAX_U16);
    assert "0"[0] != "1"[0];
  }

  lemma {:induction false} BarlessIsField(s: string)
    requires '|' !in s && '\n' !in s
    ensures IsField(s)
  {
    forall i: nat | i < |s| ensures !OccursAt(s, BAR, i) {
      assert s[i..][0] == s[i] && BAR[0] == '|';
    }
  }

  lemma {:induction false} DecIsField(n: nat)
    ensures IsField(Dec(n))
  {
    BarlessIsField(Dec(n));
  }

  lemma {:induction false} PrintedFields(row: Row)
    requires IsPrintable(row)
    ensures forall i :: 0 <= i < |PrintFields(row)| ==> IsField(PrintFields(row)[i])
  {
    DecIsField(row.winIndex);
    DecIsField(row.pane.index);
    DecIsField(row.pane.cols);
    DecIsField(row.pane.rows);
    BarlessIsField(if row.pane.isActive then "1" else "0");
  }

  lemma {:induction false} JoinedIsLine(fields: seq<string>)
    requires fields != [] && forall i :: 0 <= i < |fields| ==> IsField(fields[i])
    requires fields[|fields| - 1] != [] && fields[|fields| - 1][|fields[|fields| - 1]| - 1] != '\r'
    ensures var line := JoinFields(fields); '\n' !in line && line != [] && line[|line| - 1] != '\r'
  {
    if |fields| > 1 {
      JoinedIsLine(fields[1..]);
    }
  }

  lemma {:induction false} LinesOf(line: string, end: string, rest: string)
    requires IsLine(line) && line != "" && (end == "\n" || end == "\r\n" || (end == "" && rest == ""))
    ensures Lines(line + end + rest) == [line] + Lines(rest)
  {
    if end == "" {
      assert line + end + rest == line;
      FindAnyIs(line, "\n", |line|);
    } else {
      NewlineAt(line, end, rest);
      CutAtNewline(line + end + rest, |line| + |end| - 1, line, rest);
    }
  }

  lemma {:induction false} NewlineAt(line: string, end: string, rest: string)
    requires IsLine(line) && line != "" && (end == "\n" || end == "\r\n")
    ensures var text, k := line + end + rest, |line| + |end| - 1;
            && FindAny(text, "\n") == k && text[k] == '\n' && text[k + 1..] == rest && text[..|line|] == line
            && (if end == "\n" then text[k - 1] != '\r' else text[k - 1] == '\r')
  {
    var text, k := line + end + rest, |line| + |end| - 1;
    assert text[|line|..][..|end|] == end;
    assert forall i :: 0 <= i < |line| ==> text[i] == line[i];
    FindAnyIs(text, "\n", k);
  }

  lemma {:induction false} CutAtNewline(text: string, k: nat, line: string, rest: string)
    requires 0 < k < |text| && FindAny(text, "\n") == k && text[k + 1..] == rest
    requires line == if text[k - 1] == '\r' then text[..k - 1] else text[..k]
    ensures Lines(text) == [line] + Lines(rest)
  {}

  lemma {:induction false} RowsOfCons(line: string, lines: seq<string>)
    ensures RowsOf([line] + lines) == RowsIn(line) + RowsOf(lines)
    decreases |lines|
  {
    var all := [line] + lines;
    if lines == [] {
      assert all[..0] == [] && [] + RowsIn(line) == RowsIn(line) + [];
    } else {
      var n := |lines| - 1;
      assert all[..|all| - 1] == [line] + lines[..n] && all[|all| - 1] == lines[n];
      RowsOfCons(line, lines[..n]);
      Associative(RowsIn(line), RowsOf(lines[..n]), RowsIn(lines[n]));
    }
  }

  /** Text without a line break, whose end is not taken for part of one. */
  predicate IsLine(line: string) {
    '\n' !in line && (line != [] ==> line[|line| - 1] != '\r')
  }

  lemma {:induction false} RowRoundTrip(row: Row)
    requires IsPrintable(row)
    ensures IsLine(PrintRow(row)) && PrintRow(row) != "" && RowsIn(PrintRow(row)) == [row]
  {
    PrintedFields(row);
    JoinedIsLine(PrintFields(row));
    FieldsAreFields(PrintFields(row));
    FieldsRoundTripIff(PrintFields(row));
    ReadFields(row);
  }

  lemma {:induction false} ListingCons(line: string, end: string, rest: string)
    requires IsLine(line) && line != "" && (end == "\n" || end == "\r\n" || (end == "" && rest == ""))
    ensures RowsOf(Lines(line + end + rest)) == RowsIn(line) + RowsOf(Lines(rest))
  {
    LinesOf(line, end, rest);
    RowsOfCons(line, Lines(rest));
  }

  /** The listing tmux prints for rows of such fields is read back as those rows, whichever way its
      lines end. */
  lemma {:induction false} ListingRoundTrip(rows: seq<Row>, ends: seq<string>)
    requires |ends| == |rows| && AreEnds(ends)
    requires forall i :: 0 <= i < |rows| ==> IsPrintable(rows[i])
    ensures RowsOf(Lines(PrintListing(rows, ends))) == rows
  {
    if rows != [] {
      ListingRoundTrip(rows[1..], ends[1..]);
      RowRoundTrip(rows[0]);
      ListingCons(PrintRow(rows[0]), ends[0], PrintListing(rows[1..], ends[1..]));
    }
  }

  /** A number that is none, or too large, counts as 0, or 80 and 24 for a pane's size. */
  lemma {:induction false} NumbersDefault(fields: seq<string>)
    requires |fields| >= 12
    requires ParseUnsigned(fields[4], 0xFFFF_FFFF_FFFF_FFFF).None?
    requires ParseUnsigned(fields[7], 0xFFFF_FFFF_FFFF_FFFF).None?
    requires ParseUnsigned(fields[8], 0xFFFF).None? && ParseUnsigned(fields[9], 0xFFFF).None?
    ensures RowOf(fields).Some?
    ensures var row := RowOf(fields).value;
            row.winIndex == 0 && row.pane.index == 0 && row.pane.cols == 80 && row.pane.rows == 24
  {}

  /** Eleven fields are too few for a row; the twelfth, and nothing after it, tells the active pane. */
  lemma {:induction false} FieldsCount(fields: seq<string>, more: seq<string>)
    ensures RowOf(fields).Some? <==> |fields| > 11
    ensures |fields| > 11 ==> RowOf(fields + more) == RowOf(fields)
    ensures |fields| > 11 ==> (RowOf(fields).value.pane.isActive <==> fields[11] == "1")
  {}

  // ---------------------------------------------------------------- grouping

  function FindSession(sessions: seq<Session>, id: string): (k: nat)
    ensures k <= |sessions| && (k < |sessions| ==> sessions[k].id == id)
    ensures forall i :: 0 <= i < k ==> sessions[i].id != id
  {
    if sessions == [] || sessions[0].id == id then 0 else 1 + FindSession(sessions[1..], id)
  }

  function FindWindow(windows: seq<Window>, id: string): (k: nat)
    ensures k <= |windows| && (k < |windows| ==> windows[k].id == id)
    ensures forall i :: 0 <= i < k ==> windows[i].id != id
  {
    if windows == [] || windows[0].id == id then 0 else 1 + FindWindow(windows[1..], id)
  }

  function NewWindow(row: Row): Window {
    Window(row.winId, row.winName, row.winIndex, row.layout, [])
  }

  function Extend(window: Window, row: Row): Window {
    window.(panes := window.panes + [row.pane])
  }

  function AddToWindows(windows: seq<Window>, row: Row): seq<Window> {
    var j := FindWindow(windows, row.winId);
    if j < |windows| then windows[j := Extend(windows[j], row)] else windows + [Extend(NewWindow(row), row)]
  }

  function AddToSession(session: Session, row: Row): Session {
    session.(windows := AddToWindows(session.windows, row))
  }

  function AddRow(sessions: seq<Session>, row: Row): seq<Session> {
    var i := FindSession(sessions, row.sessId);
    if i < |sessions| then sessions[i := AddToSession(sessions[i], row)]
    else sessions + [AddToSession(Session(row.sessId, row.sessName, []), row)]
  }

  function Group(rows: seq<Row>): seq<Session> {
    if rows == [] then [] else AddRow(Group(rows[..|rows| - 1]), rows[|rows| - 1])
  }

  method ParsePaneListing(output: string) returns (sessions: seq<Session>)
    ensures sessions == Group(RowsOf(Lines(output)))
  {
    sessions := GroupLines(Lines(output));
  }

  function AddRows(tree: seq<Session>, rows: seq<Row>): seq<Session>
    requires |rows| <= 1
  {
    if rows == [] then tree else AddRow(tree, rows[0])
  }

  method GroupLines(lines: seq<string>) returns (sessions: seq<Session>)
    ensures sessions == Group(RowsOf(lines))
  {
    sessions := [];
    for n := 0 to |lines|
      invariant sessions == Group(RowsOf(lines[..n]))
    {
      assert lines[..n + 1] == lines[..n] + [lines[n]];
      GroupLine(lines[..n], lines[n]);
      sessions := AddLine(sessions, lines[n]);
    }
    assert lines[..|lines|] == lines;
  }

  lemma {:induction false} GroupLine(lines: seq<string>, line: string)
    ensures Group(RowsOf(lines + [line])) == AddRows(Group(RowsOf(lines)), RowsIn(line))
  {
    assert (lines + [line])[..|lines|] == lines;
    GroupMore(RowsOf(lines), RowsIn(line));
  }

  lemma {:induction false} GroupMore(before: seq<Row>, rows: seq<Row>)
    requires |rows| <= 1
    ensures Group(before + rows) == AddRows(Group(before), rows)
  {
    if rows == [] {
      assert before + rows == before;
    } else {
      assert (before + rows)[..|before|] == before;
    }
  }

  /** The body of the loop: lines with too few fields are skipped. */
  method AddLine(tree: seq<Session>, line: string) returns (sessions: seq<Session>)
    ensures sessions == AddRows(tree, RowsIn(line))
  {
    var parsed := RowOf(Fields(line));
    if parsed.None? { return tree; }
    sessions := FindOrCreate(tree, parsed.value);
  }

  /** Find the row's session and window, creating what is missing. */
  method FindOrCreate(tree: seq<Session>, row: Row) returns (sessions: seq<Session>)
    ensures sessions == AddRow(tree, row)
  {
    sessions := tree;
    var i := FindSession(sessions, row.sessId);
    if i == |sessions| {
      sessions := sessions + [Session(row.sessId, row.sessName, [])];
    }
    var windows := sessions[i].windows;
    var j := FindWindow(windows, row.winId);
    if j == |windows| {
      windows := windows + [NewWindow(row)];
    }
    windows := windows[j := Extend(windows[j], row)];
    assert windows == AddToWindows(sessions[i].windows, row);
    sessions := sessions[i := sessions[i].(windows := windows)];
  }

  // ---------------------------------------------------------------- shape

  predicate DistinctWindows(windows: seq<Window>) {
    forall i, j :: 0 <= i < j < |windows| ==> windows[i].id != windows[j].id
  }

  predicate GoodWindows(windows: seq<Window>) {
    && DistinctWindows(windows)
    && forall i :: 0 <= i < |windows| ==> windows[i].panes != []
  }

  /** Session ids are distinct, window ids are distinct within a session, no node is empty. */
  predicate GoodTree(sessions: seq<Session>) {
    && (forall i, j :: 0 <= i < j < |sessions| ==> sessions[i].id != sessions[j].id)
    && (forall i :: 0 <= i < |sessions| ==> sessions[i].windows != [] && GoodWindows(sessions[i].windows))
  }

  lemma {:induction false} AddToWindowsIsGood(windows: seq<Window>, row: Row)
    requires GoodWindows(windows)
    ensures GoodWindows(AddToWindows(windows, row)) && AddToWindows(windows, row) != []
  {}

  lemma {:induction false} AddRowIsGood(sessions: seq<Session>, row: Row)
    requires GoodTree(sessions)
    ensures GoodTree(AddRow(sessions, row))
  {
    var i := FindSession(sessions, row.sessId);
    AddToWindowsIsGood(if i < |sessions| then sessions[i].windows else [], row);
  }

  /** For any rows in any order, the tree is well shaped. */
  lemma {:induction false} GroupIsGood(rows: seq<Row>)
    ensures GoodTree(Group(rows))
  {
    if rows != [] {
      GroupIsGood(rows[..|rows| - 1]);
      AddRowIsGood(Group(rows[..|rows| - 1]), rows[|rows| - 1]);
    }
  }

  // ---------------------------------------------------------------- contents

  function WindowIn(windows: seq<Window>, id: string): Option<Window> {
    var j := FindWindow(windows, id);
    if j < |windows| then Some(windows[j]) else None
  }

  function WindowAt(sessions: seq<Session>, sessId: string, winId: string): Option<Window> {
    var i := FindSession(sessions, sessId);
    if i < |sessions| then WindowIn(sessions[i].windows, winId) else None
  }

  function NameAt(sessions: seq<Session>, sessId: string): Option<string> {
    var i := FindSession(sessions, sessId);
    if i < |sessions| then Some(sessions[i].name) else None
  }

  /** The rows of one window, in listing order. */
  function Select(rows: seq<Row>, sessId: string, winId: string): seq<Row> {
    if rows == [] then []
    else
      var last := rows[|rows| - 1];
      Select(rows[..|rows| - 1], sessId, winId) +
      if last.sessId == sessId && last.winId == winId then [last] else []
  }

  function Panes(rows: seq<Row>): (panes: seq<PaneInfo>)
    ensures |panes| == |rows| && forall i :: 0 <= i < |rows| ==> panes[i] == rows[i].pane
  {
    seq(|rows|, i requires 0 <= i < |rows| => rows[i].pane)
  }

  /** A window as its rows describe it: metadata from the first, panes from all. */
  function Described(rows: seq<Row>, winId: string): Option<Window> {
    if rows == [] then None
    else Some(Window(winId, rows[0].winName, rows[0].winIndex, rows[0].layout, Panes(rows)))
  }

  lemma {:induction false} DescribedExtend(rows: seq<Row>, row: Row)
    ensures Described(rows + [row], row.winId) ==
            Some(Extend(if rows == [] then NewWindow(row) else Described(rows, row.winId).value, row))
  {
    assert Panes(rows + [row]) == Panes(rows) + [row.pane];
  }

  lemma {:induction false} FindWindowIs(windows: seq<Window>, id: string, k: nat)
    requires k <= |windows| && (k < |windows| ==> windows[k].id == id)
    requires forall i :: 0 <= i < k ==> windows[i].id != id
    ensures FindWindow(windows, id) == k
  {}

  lemma {:induction false} FindSessionIs(sessions: seq<Session>, id: string, k: nat)
    requires k <= |sessions| && (k < |sessions| ==> sessions[k].id == id)
    requires forall i :: 0 <= i < k ==> sessions[i].id != id
    ensures FindSession(sessions, id) == k
  {}

  lemma {:induction false} WindowAfterAdd(windows: seq<Window>, row: Row, winId: string)
    ensures WindowIn(AddToWindows(windows, row), winId) ==
            if winId != row.winId then WindowIn(windows, winId)
            else
              Some(Extend(if WindowIn(windows, winId).Some? then WindowIn(windows, winId).value else NewWindow(row),
                          row))
  {
    var j := FindWindow(windows, winId);
    var after := AddToWindows(windows, row);
    if j < |windows| || winId == row.winId {
      FindWindowIs(after, winId, j);
    } else {
      FindWindowIs(after, winId, |after|);
    }
  }

  lemma {:induction false} SessionAfterAdd(sessions: seq<Session>, row: Row, sessId: string)
    ensures var i, after := FindSession(sessions, sessId), AddRow(sessions, row);
            FindSession(after, sessId) ==
            if i < |sessions| || sessId == row.sessId then i else |after|
  {
    var i, after := FindSession(sessions, sessId), AddRow(sessions, row);
    FindSessionIs(after, sessId, if i < |sessions| || sessId == row.sessId then i else |after|);
  }

  lemma {:induction false} AddRowAt(sessions: seq<Session>, row: Row, sessId: string, winId: string)
    ensures var before := WindowAt(sessions, sessId, winId);
            WindowAt(AddRow(sessions, row), sessId, winId) ==
            if sessId != row.sessId || winId != row.winId then before
            else Some(Extend(if before.Some? then before.value else NewWindow(row), row))
    ensures NameAt(AddRow(sessions, row), sessId) ==
            if sessId == row.sessId && NameAt(sessions, sessId).None? then Some(row.sessName)
            else NameAt(sessions, sessId)
  {
    SessionAfterAdd(sessions, row, sessId);
    var i := FindSession(sessions, row.sessId);
    WindowAfterAdd(if i < |sessions| then sessions[i].windows else [], row, winId);
  }

  /** Each window holds exactly its rows, in input order, under the first row's metadata; a key
      that no row has is not in the tree. */
  lemma {:induction false} GroupHoldsRows(rows: seq<Row>, sessId: string, winId: string)
    ensures WindowAt(Group(rows), sessId, winId) == Described(Select(rows, sessId, winId), winId)
  {
    if rows != [] {
      var init, last := rows[..|rows| - 1], rows[|rows| - 1];
      GroupHoldsRows(init, sessId, winId);
      AddRowAt(Group(init), last, sessId, winId);
      var mine := Select(init, sessId, winId);
      if last.sessId == sessId && last.winId == winId {
        DescribedExtend(mine, last);
      } else {
        assert mine + [] == mine;
      }
    }
  }

  function FirstName(rows: seq<Row>, sessId: string): Option<string> {
    if rows == [] then None
    else if rows[0].sessId == sessId then Some(rows[0].sessName)
    else FirstName(rows[1..], sessId)
  }

  lemma {:induction false} FirstNameAppend(rows: seq<Row>, row: Row, sessId: string)
    ensures FirstName(rows + [row], sessId) ==
            if FirstName(rows, sessId).Some? then FirstName(rows, sessId)
            else if row.sessId == sessId then Some(row.sessName) else None
  {
    if rows != [] {
      assert (rows + [row])[1..] == rows[1..] + [row];
      FirstNameAppend(rows[1..], row, sessId);
    } else {
      assert FirstName([row][1..], sessId) == None;
    }
  }

  /** A session is in the tree exactly when a row names it, under the name its first row gives. */
  lemma {:induction false} SessionNameIsFirst(rows: seq<Row>, sessId: string)
    ensures NameAt(Group(rows), sessId) == FirstName(rows, sessId)
  {
    if rows != [] {
      var init, last := rows[..|rows| - 1], rows[|rows| - 1];
      assert rows == init + [last];
      SessionNameIsFirst(init, sessId);
      FirstNameAppend(init, last, sessId);
      AddRowAt(Group(init), last, sessId, last.winId);
    }
  }

  // ---------------------------------------------------------------- flattening

  type Key = (string, string, PaneInfo)

  function Keys(rows: seq<Row>): (keys: seq<Key>)
    ensures |keys| == |rows|
    ensures forall i :: 0 <= i < |rows| ==> keys[i] == (rows[i].sessId, rows[i].winId, rows[i].pane)
  {
    seq(|rows|, i requires 0 <= i < |rows| => (rows[i].sessId, rows[i].winId, rows[i].pane))
  }

  function FlatWindow(sessId: string, window: Window): (keys: seq<Key>)
    ensures |keys| == |window.panes|
    ensures forall i :: 0 <= i < |keys| ==> keys[i] == (sessId, window.id, window.panes[i])
  {
    seq(|window.panes|, i requires 0 <= i < |window.panes| => (sessId, window.id, window.panes[i]))
  }

  function FlatWindows(sessId: string, windows: seq<Window>): seq<Key> {
    if windows == [] then []
    else
      var n := |windows| - 1;
      FlatWindows(sessId, windows[..n]) + FlatWindow(sessId, windows[n])
  }

  function Flatten(sessions: seq<Session>): seq<Key> {
    if sessions == [] then []
    else
      var n := |sessions| - 1;
      Flatten(sessions[..n]) + FlatWindows(sessions[n].id, sessions[n].windows)
  }

  lemma {:induction false} FlatExtend(sessId: string, window: Window, row: Row)
    requires window.id == row.winId && sessId == row.sessId
    ensures FlatWindow(sessId, Extend(window, row)) ==
            FlatWindow(sessId, window) + [(row.sessId, row.winId, row.pane)]
  {}

  /** Adding a row adds its pane to the panes of a session, wherever its window is. */
  lemma {:induction false} FlatWindowsGain(sessId: string, windows: seq<Window>, j: nat, row: Row)
    requires j < |windows| && windows[j].id == row.winId && sessId == row.sessId
    ensures multiset(FlatWindows(sessId, windows[j := Extend(windows[j], row)])) ==
            multiset(FlatWindows(sessId, windows)) + multiset{(row.sessId, row.winId, row.pane)}
    decreases |windows|
  {
    var n := |windows| - 1;
    var after := windows[j := Extend(windows[j], row)];
    if j == n {
      assert after[..n] == windows[..n];
      FlatExtend(sessId, windows[n], row);
    } else {
      assert after[..n] == windows[..n][j := Extend(windows[j], row)] && after[n] == windows[n];
      FlatWindowsGain(sessId, windows[..n], j, row);
    }
  }

  lemma {:induction false} AddToWindowsGains(sessId: string, windows: seq<Window>, row: Row)
    requires sessId == row.sessId
    ensures multiset(FlatWindows(sessId, AddToWindows(windows, row))) ==
            multiset(FlatWindows(sessId, windows)) + multiset{(row.sessId, row.winId, row.pane)}
  {
    var j := FindWindow(windows, row.winId);
    if j < |windows| {
      FlatWindowsGain(sessId, windows, j, row);
    } else {
      assert AddToWindows(windows, row)[..|windows|] == windows;
      FlatExtend(sessId, NewWindow(row), row);
    }
  }

  lemma {:induction false} FlattenGains(sessions: seq<Session>, i: nat, row: Row)
    requires i < |sessions| && sessions[i].id == row.sessId
    ensures multiset(Flatten(sessions[i := AddToSession(sessions[i], row)])) ==
            multiset(Flatten(sessions)) + multiset{(row.sessId, row.winId, row.pane)}
    decreases |sessions|
  {
    var n := |sessions| - 1;
    var after := sessions[i := AddToSession(sessions[i], row)];
    if i == n {
      assert after[..n] == sessions[..n];
      AddToWindowsGains(row.sessId, sessions[n].windows, row);
    } else {
      assert after[..n] == sessions[..n][i := AddToSession(sessions[i], row)] && after[n] == sessions[n];
      FlattenGains(sessions[..n], i, row);
    }
  }

  lemma {:induction false} AddRowGains(sessions: seq<Session>, row: Row)
    ensures multiset(Flatten(AddRow(sessions, row))) ==
            multiset(Flatten(sessions)) + multiset{(row.sessId, row.winId, row.pane)}
  {
    var i := FindSession(sessions, row.sessId);
    if i < |sessions| {
      FlattenGains(sessions, i, row);
    } else {
      assert AddRow(sessions, row)[..|sessions|] == sessions;
      AddToWindowsGains(row.sessId, [], row);
    }
  }

  lemma {:induction false} KeysAppend(rows: seq<Row>)
    requires rows != []
    ensures Keys(rows) == Keys(rows[..|rows| - 1]) +
              [(rows[|rows| - 1].sessId, rows[|rows| - 1].winId, rows[|rows| - 1].pane)]
  {}

  /** For any rows in any order, the tree holds every row's pane under its session and window,
      no pane is lost and none is made up. */
  lemma {:induction false} GroupConservesPanes(rows: seq<Row>)
    ensures multiset(Flatten(Group(rows))) == multiset(Keys(rows))
  {
    if rows != [] {
      GroupConservesPanes(rows[..|rows| - 1]);
      AddRowGains(Group(rows[..|rows| - 1]), rows[|rows| - 1]);
      KeysAppend(rows);
    }
  }

  // ---------------------------------------------------------------- contiguous listings

  /** Rows of one session are neighbours, and so are the rows of one window. */
  predicate Contiguous(keys: seq<Key>) {
    && (forall i, j, k :: 0 <= i < j < k < |keys| && keys[i].0 == keys[k].0 ==> keys[j].0 == keys[k].0)
    && (forall i, j, k :: 0 <= i < j < k < |keys| && keys[i].0 == keys[k].0 && keys[i].1 == keys[k].1 ==>
          keys[j].1 == keys[k].1)
  }

  lemma {:induction false} FlatWindowsBelong(sessId: string, windows: seq<Window>, i: nat)
    requires i < |FlatWindows(sessId, windows)|
    ensures FlatWindows(sessId, windows)[i].0 == sessId
    ensures exists j :: 0 <= j < |windows| && windows[j].id == FlatWindows(sessId, windows)[i].1
    decreases |windows|
  {
    var n := |windows| - 1;
    if i < |FlatWindows(sessId, windows[..n])| {
      FlatWindowsBelong(sessId, windows[..n], i);
      var j :| 0 <= j < n && windows[..n][j].id == FlatWindows(sessId, windows)[i].1;
      assert windows[j].id == FlatWindows(sessId, windows)[i].1;
    } else {
      assert windows[n].id == FlatWindows(sessId, windows)[i].1;
    }
  }

  lemma {:induction false} FlattenBelongs(sessions: seq<Session>, i: nat)
    requires i < |Flatten(sessions)|
    ensures exists j :: 0 <= j < |sessions| && sessions[j].id == Flatten(sessions)[i].0
    decreases |sessions|
  {
    var n := |sessions| - 1;
    if i < |Flatten(sessions[..n])| {
      FlattenBelongs(sessions[..n], i);
      var j :| 0 <= j < n && sessions[..n][j].id == Flatten(sessions)[i].0;
      assert sessions[j].id == Flatten(sessions)[i].0;
    } else {
      FlatWindowsBelong(sessions[n].id, sessions[n].windows, i - |Flatten(sessions[..n])|);
      assert sessions[n].id == Flatten(sessions)[i].0;
    }
  }

  /** Windows are laid end to end, so their flattening is contiguous. */
  lemma {:induction false} FlatWindowsContiguous(sessId: string, windows: seq<Window>)
    requires DistinctWindows(windows)
    ensures Contiguous(FlatWindows(sessId, windows))
    decreases |windows|
  {
    if windows != [] {
      var n := |windows| - 1;
      var front, last := FlatWindows(sessId, windows[..n]), FlatWindow(sessId, windows[n]);
      FlatWindowsContiguous(sessId, windows[..n]);
      forall i | 0 <= i < |front|
        ensures front[i].0 == sessId && front[i].1 != windows[n].id
      {
        FlatWindowsBelong(sessId, windows[..n], i);
        var j :| 0 <= j < n && windows[..n][j].id == front[i].1;
        assert windows[j].id == front[i].1;
      }
      assert forall i :: 0 <= i < |last| ==> last[i].0 == sessId && last[i].1 == windows[n].id;
      JoinWithin(front, last, sessId);
    }
  }

  /** A contiguous run may follow another if they share no session ... */
  lemma {:induction false} JoinApart(a: seq<Key>, b: seq<Key>)
    requires Contiguous(a) && Contiguous(b)
    requires forall i, j :: 0 <= i < |a| && 0 <= j < |b| ==> a[i].0 != b[j].0
    ensures Contiguous(a + b)
  {}

  /** ... or lie in one session and share no window. */
  lemma {:induction false} JoinWithin(a: seq<Key>, b: seq<Key>, sessId: string)
    requires Contiguous(a) && Contiguous(b)
    requires forall i :: 0 <= i < |a| ==> a[i].0 == sessId
    requires forall i :: 0 <= i < |b| ==> b[i].0 == sessId
    requires forall i, j :: 0 <= i < |a| && 0 <= j < |b| ==> a[i].1 != b[j].1
    ensures Contiguous(a + b)
  {}

  lemma {:induction false} FlattenContiguous(sessions: seq<Session>)
    requires GoodTree(sessions)
    ensures Contiguous(Flatten(sessions))
    decreases |sessions|
  {
    if sessions != [] {
      var n := |sessions| - 1;
      var front, last := Flatten(sessions[..n]), FlatWindows(sessions[n].id, sessions[n].windows);
      FlattenContiguous(sessions[..n]);
      FlatWindowsContiguous(sessions[n].id, sessions[n].windows);
      forall i, j | 0 <= i < |front| && 0 <= j < |last|
        ensures front[i].0 != last[j].0
      {
        FlattenBelongs(sessions[..n], i);
        FlatWindowsBelong(sessions[n].id, sessions[n].windows, j);
        var m :| 0 <= m < n && sessions[..n][m].id == front[i].0;
        assert sessions[m].id == front[i].0;
      }
      JoinApart(front, last);
    }
  }

  /** The last row's session and window are the last nodes of the tree. */
  predicate EndsAt(sessions: seq<Session>, sessId: string, winId: string) {
    && sessions != [] && sessions[|sessions| - 1].id == sessId
    && var windows := sessions[|sessions| - 1].windows;
       windows != [] && windows[|windows| - 1].id == winId
  }

  lemma {:induction false} AddToLast(front: seq<Session>, last: Session, row: Row)
    requires last.id == row.sessId && FindSession(front + [last], row.sessId) == |front|
    requires FindWindow(last.windows, row.winId) >= |last.windows| - 1
    ensures AddRow(front + [last], row) == front + [AddToSession(last, row)]
    ensures Flatten(front + [AddToSession(last, row)]) == Flatten(front + [last]) + [(row.sessId, row.winId, row.pane)]
    ensures EndsAt(front + [AddToSession(last, row)], row.sessId, row.winId)
  {
    AddWindowAtEnd(row.sessId, last.windows, row);
    var after := AddToSession(last, row);
    FlattenLast(front, last, after, (row.sessId, row.winId, row.pane));
    ReplaceLast(front, last, after);
  }

  lemma {:induction false} ReplaceLast(front: seq<Session>, last: Session, after: Session)
    ensures (front + [last])[|front| := after] == front + [after]
    ensures (front + [after])[|front + [after]| - 1] == after
  {}

  lemma {:induction false} AddNew(tree: seq<Session>, row: Row)
    requires FindSession(tree, row.sessId) == |tree|
    ensures Flatten(AddRow(tree, row)) == Flatten(tree) + [(row.sessId, row.winId, row.pane)]
    ensures EndsAt(AddRow(tree, row), row.sessId, row.winId)
  {
    var empty := Session(row.sessId, row.sessName, []);
    AddWindowAtEnd(row.sessId, [], row);
    FlattenLast(tree, empty, AddToSession(empty, row), (row.sessId, row.winId, row.pane));
    assert (tree + [empty])[..|tree|] == tree;
    assert Flatten(tree) + [] == Flatten(tree);
  }

  lemma {:induction false} AddAtEnd(sessions: seq<Session>, row: Row)
    requires sessions == [] || FindSession(sessions, row.sessId) >= |sessions| - 1
    requires sessions != [] && sessions[|sessions| - 1].id == row.sessId ==>
               FindWindow(sessions[|sessions| - 1].windows, row.winId) >= |sessions[|sessions| - 1].windows| - 1
    ensures Flatten(AddRow(sessions, row)) == Flatten(sessions) + [(row.sessId, row.winId, row.pane)]
    ensures EndsAt(AddRow(sessions, row), row.sessId, row.winId)
  {
    var i := FindSession(sessions, row.sessId);
    if i < |sessions| {
      assert sessions == sessions[..i] + [sessions[i]];
      AddToLast(sessions[..i], sessions[i], row);
    } else {
      AddNew(sessions, row);
    }
  }

  lemma {:induction false} FlattenLast(front: seq<Session>, before: Session, after: Session, key: Key)
    requires FlatWindows(after.id, after.windows) == FlatWindows(before.id, before.windows) + [key]
    ensures Flatten(front + [after]) == Flatten(front + [before]) + [key]
  {
    assert (front + [after])[..|front|] == front && (front + [before])[..|front|] == front;
    Associative(Flatten(front), FlatWindows(before.id, before.windows), [key]);
  }

  lemma {:induction false} AddWindowAtEnd(sessId: string, windows: seq<Window>, row: Row)
    requires sessId == row.sessId && FindWindow(windows, row.winId) >= |windows| - 1
    ensures FlatWindows(sessId, AddToWindows(windows, row)) ==
            FlatWindows(sessId, windows) + [(row.sessId, row.winId, row.pane)]
    ensures var after := AddToWindows(windows, row); after != [] && after[|after| - 1].id == row.winId
  {
    var j, after := FindWindow(windows, row.winId), AddToWindows(windows, row);
    assert after[..j] == windows[..j];
    if j < |windows| {
      FlatExtend(sessId, windows[j], row);
      Associative(FlatWindows(sessId, windows[..j]), FlatWindow(sessId, windows[j]),
                  [(row.sessId, row.winId, row.pane)]);
    } else {
      assert windows[..j] == windows;
      FlatExtend(sessId, NewWindow(row), row);
      assert FlatWindow(sessId, NewWindow(row)) == [];
      assert FlatWindow(sessId, Extend(NewWindow(row), row)) == [(row.sessId, row.winId, row.pane)];
    }
  }

  /** A session or window the tree knows already has a row in front of this one. */
  lemma {:induction false} KnownFromRows(rows: seq<Row>, sessId: string, winId: string)
    ensures FindSession(Group(rows), sessId) < |Group(rows)| ==>
              exists i :: 0 <= i < |rows| && rows[i].sessId == sessId
    ensures WindowAt(Group(rows), sessId, winId).Some? ==>
              exists i :: 0 <= i < |rows| && rows[i].sessId == sessId && rows[i].winId == winId
  {
    SessionNameIsFirst(rows, sessId);
    FirstNameFrom(rows, sessId);
    GroupHoldsRows(rows, sessId, winId);
    SelectFrom(rows, sessId, winId);
  }

  lemma {:induction false} FirstNameFrom(rows: seq<Row>, sessId: string)
    ensures FirstName(rows, sessId).Some? ==> exists i :: 0 <= i < |rows| && rows[i].sessId == sessId
  {
    if FirstName(rows, sessId).Some? && rows[0].sessId != sessId {
      FirstNameFrom(rows[1..], sessId);
      var i :| 0 <= i < |rows| - 1 && rows[1..][i].sessId == sessId;
      assert rows[i + 1].sessId == sessId;
    }
  }

  lemma {:induction false} SelectFrom(rows: seq<Row>, sessId: string, winId: string)
    ensures Select(rows, sessId, winId) != [] ==>
              exists i :: 0 <= i < |rows| && rows[i].sessId == sessId && rows[i].winId == winId
  {
    if Select(rows, sessId, winId) != [] {
      var n := |rows| - 1;
      if !(rows[n].sessId == sessId && rows[n].winId == winId) {
        SelectFrom(rows[..n], sessId, winId);
        var i :| 0 <= i < n && rows[..n][i].sessId == sessId && rows[..n][i].winId == winId;
        assert rows[i].sessId == sessId && rows[i].winId == winId;
      }
    }
  }

  lemma {:induction false} ContiguousInOrder(rows: seq<Row>)
    requires Contiguous(Keys(rows))
    ensures Flatten(Group(rows)) == Keys(rows)
    ensures rows != [] ==> EndsAt(Group(rows), rows[|rows| - 1].sessId, rows[|rows| - 1].winId)
  {
    if rows != [] {
      InitIsContiguous(rows);
      ContiguousInOrder(rows[..|rows| - 1]);
      NextInOrder(rows);
    }
  }

  lemma {:induction false} InitIsContiguous(rows: seq<Row>)
    requires rows != [] && Contiguous(Keys(rows))
    ensures Contiguous(Keys(rows[..|rows| - 1]))
  {
    PrefixContiguous(Keys(rows), |rows| - 1);
    assert Keys(rows)[..|rows| - 1] == Keys(rows[..|rows| - 1]);
  }

  lemma {:induction false} NextInOrder(rows: seq<Row>)
    requires rows != [] && Contiguous(Keys(rows))
    requires var n := |rows| - 1;
             && Flatten(Group(rows[..n])) == Keys(rows[..n])
             && (n > 0 ==> EndsAt(Group(rows[..n]), rows[n - 1].sessId, rows[n - 1].winId))
    ensures Flatten(Group(rows)) == Keys(rows)
    ensures EndsAt(Group(rows), rows[|rows| - 1].sessId, rows[|rows| - 1].winId)
  {
    KeysAppend(rows);
    if |rows| > 1 {
      NextFits(rows);
    }
    AddAtEnd(Group(rows[..|rows| - 1]), rows[|rows| - 1]);
  }

  /** The last node of the tree is the only one the row can belong to. */
  predicate Fits(tree: seq<Session>, row: Row)
    requires tree != []
  {
    var last := tree[|tree| - 1];
    && FindSession(tree, row.sessId) >= |tree| - 1
    && (last.id == row.sessId ==> FindWindow(last.windows, row.winId) >= |last.windows| - 1)
  }

  lemma {:induction false} NextFits(rows: seq<Row>)
    requires |rows| >= 2 && Contiguous(Keys(rows))
    requires var n := |rows| - 1; EndsAt(Group(rows[..n]), rows[n - 1].sessId, rows[n - 1].winId)
    ensures var n := |rows| - 1; Group(rows[..n]) != [] && Fits(Group(rows[..n]), rows[n])
  {
    var n := |rows| - 1;
    LastIsNeighbour(rows);
    KnownFromRows(rows[..n], rows[n].sessId, rows[n].winId);
    GroupIsGood(rows[..n]);
    OnlyLastFits(Group(rows[..n]), rows[n - 1].sessId, rows[n - 1].winId, rows[n]);
  }

  lemma {:induction false} PrefixContiguous(keys: seq<Key>, n: nat)
    requires n <= |keys| && Contiguous(keys)
    ensures Contiguous(keys[..n])
  {}

  /** In a contiguous listing, what an earlier row shares with the last row, its neighbour shares. */
  lemma {:induction false} LastIsNeighbour(rows: seq<Row>)
    requires |rows| >= 2 && Contiguous(Keys(rows))
    ensures var n := |rows| - 1;
            && ((exists i :: 0 <= i < n && rows[..n][i].sessId == rows[n].sessId) ==>
                  rows[n - 1].sessId == rows[n].sessId)
            && ((exists i :: && 0 <= i < n && rows[..n][i].sessId == rows[n].sessId
                             && rows[..n][i].winId == rows[n].winId) ==>
                  rows[n - 1].winId == rows[n].winId)
  {
    var n := |rows| - 1;
    var keys := Keys(rows);
    if i :| 0 <= i < n && rows[..n][i].sessId == rows[n].sessId {
      if i < n - 1 { assert keys[i].0 == keys[n].0 && keys[n - 1].0 == keys[n].0; }
    }
    if i :| 0 <= i < n && rows[..n][i].sessId == rows[n].sessId && rows[..n][i].winId == rows[n].winId {
      if i < n - 1 { assert keys[i].0 == keys[n].0 && keys[i].1 == keys[n].1 && keys[n - 1].1 == keys[n].1; }
    }
  }

  lemma {:induction false} OnlyLastFits(tree: seq<Session>, sessId: string, winId: string, row: Row)
    requires GoodTree(tree) && EndsAt(tree, sessId, winId)
    requires FindSession(tree, row.sessId) < |tree| ==> sessId == row.sessId
    requires WindowAt(tree, row.sessId, row.winId).Some? ==> winId == row.winId
    ensures tree != [] && Fits(tree, row)
  {
    var n := |tree| - 1;
    if tree[n].id == row.sessId {
      FindSessionIs(tree, row.sessId, n);
    }
  }

  /** Flattening the tree gives back the listing, row for row, exactly when the listing keeps the
      rows of a session, and of a window, together. */
  lemma {:induction false} FlattenRestoresIffContiguous(rows: seq<Row>)
    ensures Flatten(Group(rows)) == Keys(rows) <==> Contiguous(Keys(rows))
  {
    GroupIsGood(rows);
    FlattenContiguous(Group(rows));
    if Contiguous(Keys(rows)) {
      ContiguousInOrder(rows);
    }
  }
}
