/**
 The index that routes raw pane ids to sessions, and what its contents say about its past: a
 listing routes panes to the session it was made for, a disconnect or delete drops that session's.
 */
module RouteIndex {

  type SessionId = string
  type PaneId = string
  type Routes = map<PaneId, SessionId>

  function Route(routes: Routes, panes: set<PaneId>, id: SessionId): Routes {
    map p | p in routes.Keys + panes :: if p in panes then id else routes[p]
  }

  /** `pane_to_session.retain(|_, sid| sid != id)` */
  function Unroute(routes: Routes, id: SessionId): Routes {
    map p | p in routes && routes[p] != id :: routes[p]
  }

  predicate IsRouted(routes: Routes, pane: PaneId, id: SessionId) {
    pane in routes && routes[pane] == id
  }

  lemma {:induction false} RouteOne(routes: Routes, panes: set<PaneId>, pane: PaneId, id: SessionId)
    ensures Route(routes, panes, id)[pane := id] == Route(routes, panes + {pane}, id)
  {}

  lemma {:induction false} RouteTwice(routes: Routes, a: set<PaneId>, b: set<PaneId>, id: SessionId)
    ensures Route(Route(routes, a, id), b, id) == Route(routes, a + b, id)
  {}

  // ---------------------------------------------------------------- histories

  /** What an operation, or a step of one, does to the index. */
  datatype Event =
    | Lists(id: SessionId, panes: set<PaneId>)
    | Drops(id: SessionId)
    | Spares

  function Change(routes: Routes, e: Event): Routes {
    match e
    case Lists(id, panes) => Route(routes, panes, id)
    case Drops(id) => Unroute(routes, id)
    case Spares => routes
  }

  function Index(routes: Routes, events: seq<Event>): Routes {
    if events == [] then routes else Change(Index(routes, events[..|events| - 1]), events[|events| - 1])
  }

  predicate Claims(e: Event, id: SessionId, pane: PaneId) {
    e.Lists? && e.id == id && pane in e.panes
  }

  /** The event gives the pane to some session, or drops the routes of `id`. */
  predicate Displaces(e: Event, id: SessionId, pane: PaneId) {
    (e.Lists? && pane in e.panes) || (e.Drops? && e.id == id)
  }

  /** Nothing from position `from` on takes the pane from the session. */
  predicate IsSpared(events: seq<Event>, from: nat, id: SessionId, pane: PaneId) {
    forall j :: from <= j < |events| ==> !Displaces(events[j], id, pane)
  }

  /** Event `i` gave the pane to the session and nothing has displaced it since. */
  predicate Stands(events: seq<Event>, i: nat, id: SessionId, pane: PaneId) {
    i < |events| && Claims(events[i], id, pane) && IsSpared(events, i + 1, id, pane)
  }

  /** The last session to list the pane, not dropped since; or the first owner, never displaced. */
  ghost predicate Owns(routes: Routes, events: seq<Event>, id: SessionId, pane: PaneId) {
    || (exists i: nat :: Stands(events, i, id, pane))
    || (IsRouted(routes, pane, id) && IsSpared(events, 0, id, pane))
  }

  lemma {:induction false} ChangeIs(routes: Routes, e: Event, id: SessionId, pane: PaneId)
    ensures IsRouted(Change(routes, e), pane, id) <==>
            Claims(e, id, pane) || (IsRouted(routes, pane, id) && !Displaces(e, id, pane))
  {}

  lemma {:induction false} SparedAfter(events: seq<Event>, e: Event, from: nat, id: SessionId, pane: PaneId)
    requires from <= |events|
    ensures IsSpared(events + [e], from, id, pane) <==> IsSpared(events, from, id, pane) && !Displaces(e, id, pane)
  {
    var all := events + [e];
    assert all[|events|] == e;
    assert forall j :: 0 <= j < |events| ==> all[j] == events[j];
  }

  lemma {:induction false} OwnsAfter(routes: Routes, events: seq<Event>, e: Event, id: SessionId, pane: PaneId)
    ensures Owns(routes, events + [e], id, pane) <==>
            Claims(e, id, pane) || (Owns(routes, events, id, pane) && !Displaces(e, id, pane))
  {
    var all, n := events + [e], |events|;
    SparedAfter(events, e, 0, id, pane);
    forall i: nat | i < n
      ensures Stands(all, i, id, pane) <==> Stands(events, i, id, pane) && !Displaces(e, id, pane)
    {
      SparedAfter(events, e, i + 1, id, pane);
    }
    assert Stands(all, n, id, pane) <==> Claims(e, id, pane);
    if Owns(routes, events, id, pane) && (exists i: nat :: Stands(events, i, id, pane)) {
      var i: nat :| Stands(events, i, id, pane);
      assert Stands(all, i, id, pane) <==> !Displaces(e, id, pane);
    }
  }

  /** The index says exactly what the history says. */
  lemma {:induction false} IndexFollowsHistory(routes: Routes, events: seq<Event>, id: SessionId, pane: PaneId)
    ensures IsRouted(Index(routes, events), pane, id) <==> Owns(routes, events, id, pane)
  {
    if events != [] {
      var init, last := events[..|events| - 1], events[|events| - 1];
      IndexFollowsHistory(routes, init, id, pane);
      ChangeIs(Index(routes, init), last, id, pane);
      OwnsAfter(routes, init, last, id, pane);
      assert init + [last] == events;
    }
  }

  /** After its routes were dropped a session owns what it has listed since, and nothing else. */
  lemma {:induction false} OwnsSinceDrop(routes: Routes, events: seq<Event>, k: nat, id: SessionId, pane: PaneId)
    requires k < |events| && events[k] == Drops(id)
    ensures IsRouted(Index(routes, events), pane, id) <==> exists i :: k < i < |events| && Stands(events, i, id, pane)
  {
    IndexFollowsHistory(routes, events, id, pane);
    assert Displaces(events[k], id, pane);
  }

  lemma {:induction false} IndexCons(routes: Routes, e: Event, events: seq<Event>)
    ensures Index(routes, [e] + events) == Index(Change(routes, e), events)
    decreases |events|
  {
    var all := [e] + events;
    if events == [] {
      assert all[..|all| - 1] == [];
    } else {
      var n := |events| - 1;
      IndexCons(routes, e, events[..n]);
      assert all[..|all| - 1] == [e] + events[..n];
    }
  }
}
