/**
 The agent lists the panes of one tmux session and builds its window tree through a sorted map.
 The server groups the same rows by find-or-create.  The two trees differ only in window order.
 */
module WindowTree {
  import opened Text
  import opened PaneListing

  // ---------------------------------------------------------------- string order

  /** The order of Rust strings: by character, a prefix first. */
  predicate Less(a: string, b: string) {
    b != [] && (a == [] || a[0] < b[0] || (a[0] == b[0] && Less(a[1..], b[1..])))
  }

  /** The first character that differs decides, and where none does the shorter comes first. */
  lemma {:induction false} LessIff(a: string, b: string)
    ensures Less(a, b) <==>
            a < b || exists k :: 0 <= k < |a| && k < |b| && a[..k] == b[..k] && a[k] < b[k]
  {
    if a != [] && b != [] && a[0] == b[0] {
      LessIff(a[1..], b[1..]);
      assert a == [a[0]] + a[1..] && b == [b[0]] + b[1..];
      if k :| 0 <= k < |a[1..]| && k < |b[1..]| && a[1..][..k] == b[1..][..k] && a[1..][k] < b[1..][k] {
        assert a[..k + 1] == [a[0]] + a[1..][..k] && b[..k + 1] == [b[0]] + b[1..][..k];
        assert a[k + 1] < b[k + 1];
      }
      if k :| 0 <= k < |a| && k < |b| && a[..k] == b[..k] && a[k] < b[k] {
        assert k > 0;
        assert a[1..][..k - 1] == a[..k][1..] && b[1..][..k - 1] == b[..k][1..];
        assert a[1..][k - 1] < b[1..][k - 1];
      }
    } else if a != [] && b != [] && a[0] < b[0] {
      assert a[..0] == b[..0];
    }
  }

  lemma {:induction false} LessTotal(a: string, b: string)
    ensures Less(a, b) || Less(b, a) || a == b
  {
    if a != [] && b != [] && a[0] == b[0] {
      LessTotal(a[1..], b[1..]);
      assert a == [a[0]] + a[1..] && b == [b[0]] + b[1..];
    }
  }

  lemma {:induction false} LessTransitive(a: string, b: string, c: string)
    requires Less(a, b) && Less(b, c)
    ensures Less(a, c)
  {
    if a != [] && a[0] == b[0] == c[0] {
      LessTransitive(a[1..], b[1..], c[1..]);
    }
  }

  lemma {:induction false} LessIrreflexive(a: string)
    ensures !Less(a, a)
  {
    if a != [] {
      LessIrreflexive(a[1..]);
    }
  }

  // ---------------------------------------------------------------- the sorted map

  /** One key of the `BTreeMap` with the rows pushed under it. */
  datatype Entry = Entry(key: string, rows: seq<Row>)

  predicate Sorted(entries: seq<Entry>) {
    forall i, j :: 0 <= i < j < |entries| ==> Less(entries[i].key, entries[j].key)
  }

  /** The first entry whose key is not below `key`. */
  function Position(entries: seq<Entry>, key: string): (k: nat)
    ensures k <= |entries|
    ensures forall i :: 0 <= i < k ==> Less(entries[i].key, key)
    ensures k < |entries| ==> !Less(entries[k].key, key)
  {
    if entries == [] || !Less(entries[0].key, key) then 0 else 1 + Position(entries[1..], key)
  }

  /** `entry(key).or_default().push(row)` */
  function Push(entries: seq<Entry>, row: Row): seq<Entry> {
    var k := Position(entries, row.winId);
    if k < |entries| && entries[k].key == row.winId
    then entries[k := Entry(row.winId, entries[k].rows + [row])]
    else entries[..k] + [Entry(row.winId, [row])] + entries[k..]
  }

  function Collect(rows: seq<Row>): seq<Entry> {
    if rows == [] then [] else Push(Collect(rows[..|rows| - 1]), rows[|rows| - 1])
  }

  function AsWindow(entry: Entry): Window
    requires entry.rows != []
  {
    Window(entry.key, entry.rows[0].winName, entry.rows[0].winIndex, entry.rows[0].layout, Panes(entry.rows))
  }

  predicate NoneEmpty(entries: seq<Entry>) {
    forall i :: 0 <= i < |entries| ==> entries[i].rows != []
  }

  function AsWindows(entries: seq<Entry>): (windows: seq<Window>)
    requires NoneEmpty(entries)
    ensures |windows| == |entries| && forall i :: 0 <= i < |entries| ==> windows[i] == AsWindow(entries[i])
  {
    seq(|entries|, i requires 0 <= i < |entries| => AsWindow(entries[i]))
  }

  method BuildWindowTree(rows: seq<Row>) returns (windows: seq<Window>)
    ensures NoneEmpty(Collect(rows)) && windows == AsWindows(Collect(rows))
  {
    var entries: seq<Entry> := [];
    for n := 0 to |rows|
      invariant entries == Collect(rows[..n])
    {
      assert rows[..n + 1][..n] == rows[..n];
      var k := Position(entries, rows[n].winId);
      if k == |entries| || entries[k].key != rows[n].winId {
        entries := entries[..k] + [Entry(rows[n].winId, [])] + entries[k..];
      }
      assert entries[k].key == rows[n].winId;
      entries := entries[k := Entry(rows[n].winId, entries[k].rows + [rows[n]])];
      PushTwice(Collect(rows[..n]), rows[n], entries);
    }
    assert rows[..|rows|] == rows;
    CollectIsSorted(rows);
    windows := [];
    for i := 0 to |entries|
      invariant windows == AsWindows(entries)[..i]
    {
      windows := windows + [AsWindow(entries[i])];
    }
  }

  /** Inserting an empty entry and then pushing onto it is pushing. */
  lemma {:induction false} PushTwice(before: seq<Entry>, row: Row, after: seq<Entry>)
    requires var k := Position(before, row.winId);
             var found := k < |before| && before[k].key == row.winId;
             var grown := if found then before else before[..k] + [Entry(row.winId, [])] + before[k..];
             after == grown[k := Entry(row.winId, grown[k].rows + [row])]
    ensures after == Push(before, row)
  {
    var k := Position(before, row.winId);
    if !(k < |before| && before[k].key == row.winId) {
      assert [] + [row] == [row];
      assert after == before[..k] + [Entry(row.winId, [row])] + before[k..];
    }
  }

  // ---------------------------------------------------------------- shape and contents

  lemma {:induction false} PushIsSorted(entries: seq<Entry>, row: Row)
    requires Sorted(entries) && NoneEmpty(entries)
    ensures Sorted(Push(entries, row)) && NoneEmpty(Push(entries, row))
  {
    var k, after := Position(entries, row.winId), Push(entries, row);
    if !(k < |entries| && entries[k].key == row.winId) {
      forall i | k <= i < |entries| ensures Less(row.winId, entries[i].key) {
        LessTotal(entries[k].key, row.winId);
        if k < i { LessTransitive(row.winId, entries[k].key, entries[i].key); }
      }
      forall i, j | 0 <= i < j < |after| ensures Less(after[i].key, after[j].key) {
        if i < k < j { LessTransitive(after[i].key, row.winId, after[j].key); }
      }
    }
  }

  lemma {:induction false} CollectIsSorted(rows: seq<Row>)
    ensures Sorted(Collect(rows)) && NoneEmpty(Collect(rows))
  {
    if rows != [] {
      CollectIsSorted(rows[..|rows| - 1]);
      PushIsSorted(Collect(rows[..|rows| - 1]), rows[|rows| - 1]);
    }
  }

  predicate Holds(entries: seq<Entry>, key: string, rows: seq<Row>) {
    if rows == [] then forall i :: 0 <= i < |entries| ==> entries[i].key != key
    else exists i :: 0 <= i < |entries| && entries[i] == Entry(key, rows)
  }

  lemma {:induction false} PushHolds(entries: seq<Entry>, row: Row, key: string, rows: seq<Row>)
    requires Sorted(entries) && NoneEmpty(entries) && Holds(entries, key, rows)
    ensures Holds(Push(entries, row), key, if row.winId == key then rows + [row] else rows)
  {
    var k, after := Position(entries, row.winId), Push(entries, row);
    var found := k < |entries| && entries[k].key == row.winId;
    if rows != [] {
      var i :| 0 <= i < |entries| && entries[i] == Entry(key, rows);
      if key == row.winId {
        LessIrreflexive(key);
        KeyIsAtPosition(entries, key, i);
        assert after[k] == Entry(key, rows + [row]);
      } else {
        var at := if found || i < k then i else i + 1;
        assert after[at] == entries[i];
      }
    } else if key == row.winId {
      assert after[k] == Entry(key, rows + [row]);
    } else {
      forall i | 0 <= i < |after| ensures after[i].key != key {
        if !found && i > k { assert after[i] == entries[i - 1]; }
      }
    }
  }

  lemma {:induction false} KeyIsAtPosition(entries: seq<Entry>, key: string, i: nat)
    requires Sorted(entries) && i < |entries| && entries[i].key == key
    ensures Position(entries, key) == i
  {
    LessIrreflexive(key);
    PositionIs(entries, key, i);
  }

  lemma {:induction false} PositionIs(entries: seq<Entry>, key: string, i: nat)
    requires i < |entries| && !Less(entries[i].key, key)
    requires forall j :: 0 <= j < i ==> Less(entries[j].key, key)
    ensures Position(entries, key) == i
  {
    if i > 0 {
      PositionIs(entries[1..], key, i - 1);
    }
  }

  predicate OneSession(rows: seq<Row>, sessId: string) {
    forall i :: 0 <= i < |rows| ==> rows[i].sessId == sessId
  }

  lemma {:induction false} CollectHoldsRows(rows: seq<Row>, sessId: string, key: string)
    requires OneSession(rows, sessId)
    ensures Holds(Collect(rows), key, Select(rows, sessId, key))
  {
    if rows != [] {
      var init, last := rows[..|rows| - 1], rows[|rows| - 1];
      CollectHoldsRows(init, sessId, key);
      CollectIsSorted(init);
      PushHolds(Collect(init), last, key, Select(init, sessId, key));
      if last.winId != key {
        assert Select(init, sessId, key) + [] == Select(init, sessId, key);
      }
    }
  }

  function AgentWindows(rows: seq<Row>): seq<Window> {
    CollectIsSorted(rows);
    AsWindows(Collect(rows))
  }

  /** The windows the server puts under a session. */
  function ServerWindows(rows: seq<Row>, sessId: string): seq<Window> {
    var tree := Group(rows);
    var i := FindSession(tree, sessId);
    if i < |tree| then tree[i].windows else []
  }

  predicate Ascending(windows: seq<Window>) {
    forall i, j :: 0 <= i < j < |windows| ==> Less(windows[i].id, windows[j].id)
  }

  lemma {:induction false} AgentHas(rows: seq<Row>, sessId: string, w: Window)
    requires OneSession(rows, sessId)
    ensures w in AgentWindows(rows) <==> Described(Select(rows, sessId, w.id), w.id) == Some(w)
  {
    var entries, mine := Collect(rows), Select(rows, sessId, w.id);
    CollectIsSorted(rows);
    CollectHoldsRows(rows, sessId, w.id);
    if mine != [] {
      var i :| 0 <= i < |entries| && entries[i] == Entry(w.id, mine);
      assert AgentWindows(rows)[i] == Described(mine, w.id).value;
      if w in AgentWindows(rows) {
        var j :| 0 <= j < |entries| && AgentWindows(rows)[j] == w;
        KeyIsAtPosition(entries, w.id, i);
        KeyIsAtPosition(entries, w.id, j);
      }
    } else {
      assert forall j :: 0 <= j < |entries| ==> AgentWindows(rows)[j].id == entries[j].key;
    }
  }

  lemma {:induction false} ServerHas(rows: seq<Row>, sessId: string, w: Window)
    ensures w in ServerWindows(rows, sessId) <==> Described(Select(rows, sessId, w.id), w.id) == Some(w)
  {
    GroupHoldsRows(rows, sessId, w.id);
    GroupIsGood(rows);
    var windows := ServerWindows(rows, sessId);
    if w in windows {
      var j :| 0 <= j < |windows| && windows[j] == w;
      FindWindowIs(windows, w.id, j);
    }
  }

  lemma {:induction false} SameElements(a: seq<Window>, b: seq<Window>)
    requires forall i, j :: 0 <= i < j < |a| ==> a[i] != a[j]
    requires forall i, j :: 0 <= i < j < |b| ==> b[i] != b[j]
    requires forall w :: w in a <==> w in b
    ensures multiset(a) == multiset(b)
  {
    forall w ensures multiset(a)[w] == multiset(b)[w] {
      CountDistinct(a, w);
      CountDistinct(b, w);
    }
  }

  lemma {:induction false} CountDistinct(a: seq<Window>, w: Window)
    requires forall i, j :: 0 <= i < j < |a| ==> a[i] != a[j]
    ensures multiset(a)[w] == if w in a then 1 else 0
  {
    if a != [] {
      var n := |a| - 1;
      assert a == a[..n] + [a[n]];
      CountDistinct(a[..n], w);
    }
  }

  /** On the rows of one session the agent's tree is the server's list of windows, with the same
      metadata and panes, put in order of window id; and the server has no other session. */
  lemma {:induction false} TreesAgree(rows: seq<Row>, sessId: string)
    requires OneSession(rows, sessId)
    ensures multiset(AgentWindows(rows)) == multiset(ServerWindows(rows, sessId))
    ensures Ascending(AgentWindows(rows))
    ensures |Group(rows)| == if rows == [] then 0 else 1
  {
    CollectIsSorted(rows);
    GroupIsGood(rows);
    OnlySession(rows, sessId);
    var agent, server := AgentWindows(rows), ServerWindows(rows, sessId);
    forall w ensures w in agent <==> w in server {
      AgentHas(rows, sessId, w);
      ServerHas(rows, sessId, w);
    }
    forall i, j | 0 <= i < j < |agent| ensures agent[i] != agent[j] {
      LessIrreflexive(agent[i].id);
    }
    SameElements(agent, server);
  }

  lemma {:induction false} OnlySession(rows: seq<Row>, sessId: string)
    requires OneSession(rows, sessId)
    ensures |Group(rows)| == if rows == [] then 0 else 1
    ensures rows != [] ==> Group(rows)[0].id == sessId
  {
    if rows != [] {
      OnlySession(rows[..|rows| - 1], sessId);
    }
  }
}
