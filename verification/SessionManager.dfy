/**
 The session manager with every operation run to completion: sessions in memory, their rows in
 the database and the index that routes raw pane ids to sessions.
 */
module SessionManager {
  import opened Text
  import opened PaneListing
  import opened RouteIndex

  type Listing = seq<Session>

  datatype Status = Created | Connecting | Connected | Reconnecting | Disconnected | Error

  datatype Meta = Meta(name: string, status: Status, error: Option<string>, trees: Listing)

  /** The status and error columns of a session's row. */
  datatype DbRow = DbRow(status: Status, error: Option<string>)

  /** How the transport answered `connect`: a failed listing afterwards counts as an empty one. */
  datatype Outcome = Opened(listing: Option<Listing>) | Refused(message: string)

  // ---------------------------------------------------------------- one session

  function Listed(listing: Option<Listing>): Listing {
    if listing.Some? then listing.value else []
  }

  function ConnectMeta(m: Meta, outcome: Outcome): Meta {
    match outcome
    case Opened(listing) => m.(status := Connected, error := None, trees := Listed(listing))
    case Refused(message) => m.(status := Error, error := Some(message))
  }

  function ConnectRow(outcome: Outcome): DbRow {
    match outcome
    case Opened(_) => DbRow(Connected, None)
    case Refused(message) => DbRow(Error, Some(message))
  }

  function DisconnectMeta(m: Meta): Meta {
    m.(status := Disconnected, trees := [])
  }

  const DISCONNECT_ROW := DbRow(Disconnected, None)

  // ---------------------------------------------------------------- routes

  function Ids(panes: seq<PaneInfo>): set<PaneId> {
    set p | p in panes :: p.id
  }

  function WindowPanes(windows: seq<Window>): set<PaneId> {
    set i, j | 0 <= i < |windows| && 0 <= j < |windows[i].panes| :: windows[i].panes[j].id
  }

  /** Every pane id in a listing. */
  function PaneIds(listing: Listing): set<PaneId> {
    set i, p | 0 <= i < |listing| && p in WindowPanes(listing[i].windows) :: p
  }

  // ---------------------------------------------------------------- operations

  datatype World = World(sessions: map<SessionId, Meta>, routes: map<PaneId, SessionId>, db: map<SessionId, DbRow>)

  const EMPTY := World(map[], map[], map[])

  /** A completed call, with what the database and the transport answered during it. */
  datatype Op =
    | Create(id: SessionId, name: string, inserted: bool)
    | Connect(id: SessionId, outcome: Outcome, wroteConnecting: bool, wroteOutcome: bool)
    | Disconnect(id: SessionId, closed: bool, wroteOutcome: bool)
    | Delete(id: SessionId, deleted: bool)
    | Refresh(id: SessionId, listing: Option<Listing>)

  /** An UPDATE changes the row if there is one; a failed one changes nothing. */
  function Update(db: map<SessionId, DbRow>, id: SessionId, row: DbRow, ok: bool): map<SessionId, DbRow> {
    if ok && id in db then db[id := row] else db
  }

  function Apply(w: World, op: Op): World {
    match op
    case Create(id, name, inserted) =>
      if !inserted || id in w.db then w
      else w.(sessions := w.sessions[id := Meta(name, Created, None, [])], db := w.db[id := DbRow(Created, None)])
    case Connect(id, outcome, wroteConnecting, wroteOutcome) =>
      if id !in w.sessions then w
      else
        World(w.sessions[id := ConnectMeta(w.sessions[id], outcome)],
              if outcome.Opened? then Route(w.routes, PaneIds(Listed(outcome.listing)), id) else w.routes,
              Update(Update(w.db, id, DbRow(Connecting, None), wroteConnecting), id, ConnectRow(outcome), wroteOutcome))
    case Disconnect(id, closed, wroteOutcome) =>
      var routes := Unroute(w.routes, id);
      if id !in w.sessions || !closed then w.(routes := routes)
      else
        World(w.sessions[id := DisconnectMeta(w.sessions[id])], routes,
              Update(w.db, id, DISCONNECT_ROW, wroteOutcome))
    case Delete(id, deleted) =>
      var routes := Unroute(w.routes, id);
      if id !in w.sessions then w.(routes := routes)
      else World(w.sessions - {id}, routes, if deleted then w.db - {id} else w.db)
    case Refresh(id, listing) =>
      if id !in w.sessions || listing.None? then w
      else
        w.(sessions := w.sessions[id := w.sessions[id].(trees := listing.value)],
           routes := Route(w.routes, PaneIds(listing.value), id))
  }

  datatype Reply = Done(meta: Meta) | Failed

  class SessionManager {
    var sessions: map<SessionId, Meta>
    var paneToSession: map<PaneId, SessionId>
    var db: map<SessionId, DbRow>

    constructor ()
      ensures State() == EMPTY
    {
      sessions, paneToSession, db := map[], map[], map[];
    }

    ghost function State(): World
      reads this
    {
      World(sessions, paneToSession, db)
    }

    method UpdateStatus(id: SessionId, row: DbRow, ok: bool)
      modifies `db
      ensures db == Update(old(db), id, row, ok)
    {
      if ok && id in db { db := db[id := row]; }
    }

    method RouteListing(listing: Listing, id: SessionId)
      modifies `paneToSession
      ensures paneToSession == Route(old(paneToSession), PaneIds(listing), id)
    {
      for i := 0 to |listing|
        invariant paneToSession == Route(old(paneToSession), PaneIds(listing[..i]), id)
      {
        var windows := listing[i].windows;
        ghost var before := paneToSession;
        for j := 0 to |windows|
          invariant paneToSession == Route(before, WindowPanes(windows[..j]), id)
        {
          RoutePanes(windows[j].panes, id);
          WindowPanesAppend(windows, j);
          RouteTwice(before, WindowPanes(windows[..j]), Ids(windows[j].panes), id);
        }
        assert windows[..|windows|] == windows;
        PaneIdsAppend(listing, i);
        RouteTwice(old(paneToSession), PaneIds(listing[..i]), WindowPanes(windows), id);
      }
      assert listing[..|listing|] == listing;
    }

    method RoutePanes(panes: seq<PaneInfo>, id: SessionId)
      modifies `paneToSession
      ensures paneToSession == Route(old(paneToSession), Ids(panes), id)
    {
      ghost var before := paneToSession;
      for k := 0 to |panes|
        invariant paneToSession == Route(before, Ids(panes[..k]), id)
      {
        IdsAppend(panes, k);
        RouteOne(before, Ids(panes[..k]), panes[k].id, id);
        paneToSession := paneToSession[panes[k].id := id];
      }
      assert panes[..|panes|] == panes;
    }

    method CreateSession(id: SessionId, name: string, inserted: bool) returns (reply: Reply)
      modifies this
      ensures State() == Apply(old(State()), Create(id, name, inserted))
      ensures reply == if inserted && id !in old(db) then Done(sessions[id]) else Failed
    {
      if !inserted || id in db { return Failed; }
      db := db[id := DbRow(Created, None)];
      var meta := Meta(name, Created, None, []);
      sessions := sessions[id := meta];
      return Done(meta);
    }

    method ConnectSession(id: SessionId, outcome: Outcome, wroteConnecting: bool, wroteOutcome: bool)
      returns (reply: Reply)
      modifies this
      ensures State() == Apply(old(State()), Connect(id, outcome, wroteConnecting, wroteOutcome))
      ensures reply == if id in sessions && outcome.Opened? then Done(sessions[id]) else Failed
    {
      if id !in sessions { return Failed; }
      sessions := sessions[id := sessions[id].(status := Connecting)];
      UpdateStatus(id, DbRow(Connecting, None), wroteConnecting);
      match outcome {
        case Opened(listing) =>
          var trees := Listed(listing);
          RouteListing(trees, id);
          sessions := sessions[id := sessions[id].(status := Connected, error := None, trees := trees)];
          UpdateStatus(id, DbRow(Connected, None), wroteOutcome);
          reply := Done(sessions[id]);
        case Refused(message) =>
          sessions := sessions[id := sessions[id].(status := Error, error := Some(message))];
          UpdateStatus(id, DbRow(Error, Some(message)), wroteOutcome);
          reply := Failed;
      }
    }

    method DisconnectSession(id: SessionId, closed: bool, wroteOutcome: bool) returns (reply: Reply)
      modifies this
      ensures State() == Apply(old(State()), Disconnect(id, closed, wroteOutcome))
      ensures reply == if id in sessions && closed then Done(sessions[id]) else Failed
    {
      paneToSession := Unroute(paneToSession, id);
      if id !in sessions || !closed { return Failed; }
      sessions := sessions[id := sessions[id].(status := Disconnected, trees := [])];
      UpdateStatus(id, DbRow(Disconnected, None), wroteOutcome);
      return Done(sessions[id]);
    }

    method DeleteSession(id: SessionId, deleted: bool) returns (reply: Reply)
      modifies this
      ensures State() == Apply(old(State()), Delete(id, deleted))
      ensures reply == if id in old(sessions) && deleted then Done(old(sessions)[id]) else Failed
    {
      paneToSession := Unroute(paneToSession, id);
      if id !in sessions { return Failed; }
      var meta := sessions[id];
      sessions := sessions - {id};
      if !deleted { return Failed; }
      db := db - {id};
      return Done(meta);
    }

    method RefreshTmuxState(id: SessionId, listing: Option<Listing>) returns (reply: Reply)
      modifies this
      ensures State() == Apply(old(State()), Refresh(id, listing))
      ensures reply == if id in sessions && listing.Some? then Done(sessions[id]) else Failed
    {
      if id !in sessions || listing.None? { return Failed; }
      RouteListing(listing.value, id);
      sessions := sessions[id := sessions[id].(trees := listing.value)];
      return Done(sessions[id]);
    }

    /** The session whose transport gets the input: `None` when the pane is not routed, or when the
        session it is routed to does not exist. */
    method SendInputToPane(pane: PaneId) returns (receiver: Option<SessionId>)
      ensures receiver == Receiver(State(), pane)
      ensures receiver.Some? <==> pane in paneToSession && paneToSession[pane] in sessions
      ensures receiver.Some? ==> receiver.value == paneToSession[pane]
    {
      if pane !in paneToSession { return None; }
      var id := paneToSession[pane];
      if id !in sessions { return None; }
      return Some(id);
    }
  }

  function Receiver(w: World, pane: PaneId): Option<SessionId> {
    if pane in w.routes && w.routes[pane] in w.sessions then Some(w.routes[pane]) else None
  }

  lemma {:induction false} WindowPanesAppend(windows: seq<Window>, j: nat)
    requires j < |windows|
    ensures WindowPanes(windows[..j + 1]) == WindowPanes(windows[..j]) + Ids(windows[j].panes)
  {
    var w := windows[..j + 1];
    forall id | id in WindowPanes(windows[..j]) + Ids(windows[j].panes)
      ensures id in WindowPanes(w)
    {
      if id in WindowPanes(windows[..j]) {
        var i, k :| 0 <= i < j && 0 <= k < |windows[..j][i].panes| && windows[..j][i].panes[k].id == id;
        assert w[i].panes[k].id == id;
      } else {
        var k :| 0 <= k < |windows[j].panes| && windows[j].panes[k].id == id;
        assert w[j].panes[k].id == id;
      }
    }
  }

  lemma {:induction false} PaneIdsAppend(listing: Listing, i: nat)
    requires i < |listing|
    ensures PaneIds(listing[..i + 1]) == PaneIds(listing[..i]) + WindowPanes(listing[i].windows)
  {
    var l := listing[..i + 1];
    forall p | p in PaneIds(listing[..i]) + WindowPanes(listing[i].windows)
      ensures p in PaneIds(l)
    {
      if p in PaneIds(listing[..i]) {
        var k :| 0 <= k < i && p in WindowPanes(listing[..i][k].windows);
        assert p in WindowPanes(l[k].windows);
      } else {
        assert p in WindowPanes(l[i].windows);
      }
    }
  }

  lemma {:induction false} IdsAppend(panes: seq<PaneInfo>, k: nat)
    requires k < |panes|
    ensures Ids(panes[..k + 1]) == Ids(panes[..k]) + {panes[k].id}
  {
    assert panes[..k + 1] == panes[..k] + [panes[k]];
  }

  // ---------------------------------------------------------------- runs

  function After(ops: seq<Op>): World {
    if ops == [] then EMPTY else Apply(After(ops[..|ops| - 1]), ops[|ops| - 1])
  }

  predicate RoutesAreLive(w: World) {
    forall p :: p in w.routes ==> w.routes[p] in w.sessions
  }

  lemma {:induction false} ApplyKeepsRoutesLive(w: World, op: Op)
    requires RoutesAreLive(w)
    ensures RoutesAreLive(Apply(w, op))
  {}

  /** After any completed operations every routed pane points at an existing session, so input to
      a routed pane always reaches a transport. */
  lemma {:induction false} RoutedPanesHaveSessions(ops: seq<Op>)
    ensures RoutesAreLive(After(ops))
    ensures forall p :: p in After(ops).routes ==> Receiver(After(ops), p) == Some(After(ops).routes[p])
  {
    if ops != [] {
      RoutedPanesHaveSessions(ops[..|ops| - 1]);
      ApplyKeepsRoutesLive(After(ops[..|ops| - 1]), ops[|ops| - 1]);
    }
  }

  /** What an operation does to the routes: a connect that opens, or a refresh that succeeds, lists
      panes; a disconnect or delete drops the session's whatever becomes of it. */
  function EventOf(w: World, op: Op): Event {
    match op
    case Connect(id, Opened(listing), _, _) => if id in w.sessions then Lists(id, PaneIds(Listed(listing))) else Spares
    case Refresh(id, Some(listing)) => if id in w.sessions then Lists(id, PaneIds(listing)) else Spares
    case Disconnect(id, _, _) => Drops(id)
    case Delete(id, _) => Drops(id)
    case _ => Spares
  }

  function History(ops: seq<Op>): (events: seq<Event>)
    ensures |events| == |ops|
  {
    if ops == [] then []
    else
      var n := |ops| - 1;
      History(ops[..n]) + [EventOf(After(ops[..n]), ops[n])]
  }

  lemma {:induction false} OpRoutes(w: World, op: Op)
    ensures Apply(w, op).routes == Change(w.routes, EventOf(w, op))
  {}

  lemma {:induction false} RoutesAreIndexed(ops: seq<Op>)
    ensures After(ops).routes == Index(map[], History(ops))
  {
    if ops != [] {
      var n := |ops| - 1;
      RoutesAreIndexed(ops[..n]);
      OpRoutes(After(ops[..n]), ops[n]);
      assert History(ops)[..n] == History(ops[..n]);
    }
  }

  /** The index says exactly what the history says: a pane is routed to a session if and only if
      that session was the last to list it and has not been disconnected or deleted since. */
  lemma {:induction false} RoutesFollowHistory(ops: seq<Op>, id: SessionId, pane: PaneId)
    ensures IsRouted(After(ops).routes, pane, id) <==> exists i: nat :: Stands(History(ops), i, id, pane)
  {
    RoutesAreIndexed(ops);
    IndexFollowsHistory(map[], History(ops), id, pane);
  }

  /** The panes of a listing are those of all windows of all its sessions. */
  lemma {:induction false} PaneIdsIff(listing: Listing, pane: PaneId)
    ensures pane in PaneIds(listing) <==>
            exists i, j, k :: && 0 <= i < |listing| && 0 <= j < |listing[i].windows|
                              && 0 <= k < |listing[i].windows[j].panes| && listing[i].windows[j].panes[k].id == pane
  {
    if pane in PaneIds(listing) {
      var i :| 0 <= i < |listing| && pane in WindowPanes(listing[i].windows);
      var j, k :| && 0 <= j < |listing[i].windows| && 0 <= k < |listing[i].windows[j].panes|
                  && listing[i].windows[j].panes[k].id == pane;
    }
    forall i, j, k | && 0 <= i < |listing| && 0 <= j < |listing[i].windows|
                     && 0 <= k < |listing[i].windows[j].panes| && listing[i].windows[j].panes[k].id == pane
      ensures pane in PaneIds(listing)
    {
      assert pane in WindowPanes(listing[i].windows);
    }
  }

  // ---------------------------------------------------------------- sessions, from the history of calls

  /** The last call of a history and those before it. */
  function Last(ops: seq<Op>): Op
    requires ops != []
  {
    ops[|ops| - 1]
  }

  function Before(ops: seq<Op>): seq<Op>
    requires ops != []
  {
    ops[..|ops| - 1]
  }

  /** A row is there from a create that inserts it to a delete, of a session still there, that
      removes it. */
  predicate HasRow(ops: seq<Op>, id: SessionId) {
    ops != [] &&
    match Last(ops)
    case Create(id', _, inserted) => (id' == id && inserted) || HasRow(Before(ops), id)
    case Delete(id', deleted) => HasRow(Before(ops), id) && !(id' == id && deleted && HasSession(Before(ops), id))
    case _ => HasRow(Before(ops), id)
  }

  /** A session is there from the create of its row to the next delete. */
  predicate HasSession(ops: seq<Op>, id: SessionId) {
    ops != [] &&
    match Last(ops)
    case Create(id', _, inserted) =>
      HasSession(Before(ops), id) || (id' == id && inserted && !HasRow(Before(ops), id))
    case Delete(id', _) => HasSession(Before(ops), id) && id' != id
    case _ => HasSession(Before(ops), id)
  }

  /** The last call makes the session. */
  predicate Creates(ops: seq<Op>, id: SessionId) {
    ops != [] && Last(ops).Create? && Last(ops).id == id && Last(ops).inserted && !HasRow(Before(ops), id)
  }

  function NameOf(ops: seq<Op>, id: SessionId): string {
    if ops == [] then "" else if Creates(ops, id) then Last(ops).name else NameOf(Before(ops), id)
  }

  /** Decided by the last connect, successful disconnect or creation. */
  function StatusOf(ops: seq<Op>, id: SessionId): Status {
    if ops == [] then Created
    else if Creates(ops, id) then Created
    else if Last(ops).id != id then StatusOf(Before(ops), id)
    else
      match Last(ops)
      case Connect(_, Opened(_), _, _) => Connected
      case Connect(_, Refused(_), _, _) => Error
      case Disconnect(_, true, _) => Disconnected
      case _ => StatusOf(Before(ops), id)
  }

  /** The message of the last connect, if it was refused. */
  function ErrorOf(ops: seq<Op>, id: SessionId): Option<string> {
    if ops == [] || Creates(ops, id) then None
    else if Last(ops).id != id then ErrorOf(Before(ops), id)
    else
      match Last(ops)
      case Connect(_, Opened(_), _, _) => None
      case Connect(_, Refused(message), _, _) => Some(message)
      case _ => ErrorOf(Before(ops), id)
  }

  /** The last listing; none after a connect that could not list or a successful disconnect. */
  function TreesOf(ops: seq<Op>, id: SessionId): seq<Session> {
    if ops == [] || Creates(ops, id) then []
    else if Last(ops).id != id then TreesOf(Before(ops), id)
    else
      match Last(ops)
      case Connect(_, Opened(Some(listing)), _, _) => listing
      case Connect(_, Opened(None), _, _) => []
      case Refresh(_, Some(listing)) => listing
      case Disconnect(_, true, _) => []
      case _ => TreesOf(Before(ops), id)
  }

  /** The status and error last written: a call's outcome if that write succeeded, else a connect's
      announcement if that did. */
  function StoredOf(ops: seq<Op>, id: SessionId): (Status, Option<string>) {
    if ops == [] || Creates(ops, id) then (Created, None)
    else if Last(ops).id != id || !HasSession(Before(ops), id) then StoredOf(Before(ops), id)
    else
      match Last(ops)
      case Connect(_, outcome, announced, recorded) =>
        if recorded then
          match outcome
          case Opened(_) => (Connected, None)
          case Refused(message) => (Error, Some(message))
        else if announced then (Connecting, None)
        else StoredOf(Before(ops), id)
      case Disconnect(_, closed, recorded) =>
        if closed && recorded then (Disconnected, None) else StoredOf(Before(ops), id)
      case _ => StoredOf(Before(ops), id)
  }

  /** The world holds of `id` what the history says. */
  predicate FollowsHistory(w: World, ops: seq<Op>, id: SessionId) {
    && (id in w.sessions <==> HasSession(ops, id)) && (id in w.db <==> HasRow(ops, id))
    && (HasSession(ops, id) ==>
          w.sessions[id] == Meta(NameOf(ops, id), StatusOf(ops, id), ErrorOf(ops, id), TreesOf(ops, id)))
    && (HasRow(ops, id) ==> (w.db[id].status, w.db[id].error) == StoredOf(ops, id))
  }

  lemma {:induction false} SessionHasRow(ops: seq<Op>, id: SessionId)
    ensures HasSession(ops, id) ==> HasRow(ops, id)
  {
    if ops != [] {
      SessionHasRow(Before(ops), id);
    }
  }

  lemma {:induction false} OpFollowsHistory(w: World, ops: seq<Op>, id: SessionId)
    requires ops != [] && FollowsHistory(w, Before(ops), id)
    ensures FollowsHistory(Apply(w, Last(ops)), ops, id)
  {
    SessionHasRow(Before(ops), id);
    match Last(ops)
    case Create(_, _, _) =>
    case Connect(_, _, _, _) =>
    case Disconnect(_, _, _) =>
    case Delete(_, _) =>
    case Refresh(_, _) =>
  }

  /** After any completed calls, which sessions and rows there are, and everything they hold, is what
      the calls themselves and the answers they got say. */
  lemma {:induction false} SessionsFollowHistory(ops: seq<Op>, id: SessionId)
    ensures (id in After(ops).sessions <==> HasSession(ops, id)) && (id in After(ops).db <==> HasRow(ops, id))
    ensures HasSession(ops, id) ==>
              After(ops).sessions[id] == Meta(NameOf(ops, id), StatusOf(ops, id), ErrorOf(ops, id), TreesOf(ops, id))
    ensures HasRow(ops, id) ==>
              (After(ops).db[id].status, After(ops).db[id].error) == StoredOf(ops, id)
  {
    if ops != [] {
      SessionsFollowHistory(Before(ops), id);
      OpFollowsHistory(After(Before(ops)), ops, id);
    }
  }
}
