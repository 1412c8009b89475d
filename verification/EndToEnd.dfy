/**
 Where a keystroke typed in the browser ends up.  On a session's own link it goes to that session;
 on the WebSocket only the raw pane travels, and the server's index says whose pane that is.
 */
module EndToEnd {
  import opened Text
  import opened RouteIndex
  import Client = PaneRouting
  import Server = SessionManager

  /** The session whose tmux gets an input message sent on a channel. */
  function Destination(channel: Client.Channel, msg: Client.Msg, w: Server.World): Option<SessionId> {
    match channel
    case P2P(session) => Some(session)
    case Ws => if msg.pane.Some? then Server.Receiver(w, msg.pane.value) else None
  }

  /** `sendInput` */
  function Input(session: SessionId, pane: PaneId, data: string): Client.Action {
    Client.SendData(session, pane, "i", data)
  }

  predicate AreScoped(actions: seq<Client.Action>) {
    forall i :: 0 <= i < |actions| ==> Client.IsScopedAction(actions[i])
  }

  /** On the WebSocket a raw pane reaches the session that was the last to list it and has not been
      disconnected or deleted since, if there is one. */
  lemma {:induction false} WsReaches(ops: seq<Server.Op>, msg: Client.Msg, pane: PaneId, id: SessionId)
    requires msg.pane == Some(pane)
    ensures Destination(Client.Ws, msg, Server.After(ops)) == Some(id) <==>
            exists i: nat :: Stands(Server.History(ops), i, id, pane)
  {
    Server.RoutedPanesHaveSessions(ops);
    Server.RoutesFollowHistory(ops, id, pane);
  }

  /** For every run of the client and every history of the server: input for a session's pane is sent
      at most once.  On the session's link it reaches that session.  On the WebSocket it reaches a
      session, the one meant or another, if and only if that one was the last to list the raw pane
      and has not been disconnected or deleted since. */
  lemma {:induction false} InputReachesIff(
      actions: seq<Client.Action>, ops: seq<Server.Op>, session: SessionId, pane: PaneId, data: string, id: SessionId)
    requires AreScoped(actions) && session != "" && Client.IsScopable(session)
    ensures var s := Client.StoreRun(Client.EMPTY, actions);
            var s' := Client.StoreAct(s, Input(session, pane, data));
            if session !in s.links && !s.wsOpen then s'.sent == s.sent
            else
              && |s'.sent| == |s.sent| + 1 && s'.sent[..|s.sent|] == s.sent
              && var (channel, msg) := s'.sent[|s.sent|];
                 && msg.body == data
                 && (Destination(channel, msg, Server.After(ops)) == Some(id) <==>
                       if session in s.links then id == session
                       else exists i: nat :: Stands(Server.History(ops), i, id, pane))
  {
    var a := Input(session, pane, data);
    Client.EachMessageOnce(actions, a);
    WsReaches(ops, Client.Msg("i", Some(pane), data), pane, id);
  }

  /** Two sessions whose tmux servers number their panes alike: without a link, what is typed into
      the pane of the first reaches the second, which listed its panes later. */
  lemma {:induction false} InputCanReachOtherSession(
      a: SessionId, b: SessionId, name: string, listing: Server.Listing, pane: PaneId, data: string)
    requires a != b && a != "" && Client.IsScopable(a) && pane in Server.PaneIds(listing)
    ensures var ops := [Server.Create(a, name, true), Server.Create(b, name, true),
                        Server.Connect(a, Server.Opened(Some(listing)), true, true),
                        Server.Connect(b, Server.Opened(Some(listing)), true, true)];
            var s := Client.StoreRun(Client.EMPTY, [Client.OpenWs]);
            var s' := Client.StoreAct(s, Input(a, pane, data));
            && |s'.sent| == |s.sent| + 1
            && Destination(s'.sent[|s.sent|].0, s'.sent[|s.sent|].1, Server.After(ops)) == Some(b)
  {
    var o1, o2 := Server.Create(a, name, true), Server.Create(b, name, true);
    var o3 := Server.Connect(a, Server.Opened(Some(listing)), true, true);
    var o4 := Server.Connect(b, Server.Opened(Some(listing)), true, true);
    AfterFour(o1, o2, o3, o4);
    assert [Client.OpenWs][..0] == [];
    Client.EachMessageOnce([Client.OpenWs], Input(a, pane, data));
  }

  lemma {:induction false} AfterFour(o1: Server.Op, o2: Server.Op, o3: Server.Op, o4: Server.Op)
    ensures Server.After([o1, o2, o3, o4]) ==
            Server.Apply(Server.Apply(Server.Apply(Server.Apply(Server.EMPTY, o1), o2), o3), o4)
  {
    AfterMore([], o1);
    AfterMore([o1], o2);
    AfterMore([o1, o2], o3);
    AfterMore([o1, o2, o3], o4);
    assert [] + [o1] == [o1] && [o1] + [o2] == [o1, o2];
    assert [o1, o2] + [o3] == [o1, o2, o3] && [o1, o2, o3] + [o4] == [o1, o2, o3, o4];
  }

  lemma {:induction false} AfterMore(ops: seq<Server.Op>, op: Server.Op)
    ensures Server.After(ops + [op]) == Server.Apply(Server.After(ops), op)
  {
    assert (ops + [op])[..|ops|] == ops;
  }
}
