/**
 The client's message routing.  Panes are known by a qualified id, the session id and the raw pane
 id joined by `::`; handlers are keyed by it and data messages are routed by taking it apart.
 */
module PaneRouting {
  import opened Text

  type SessionId = string
  type PaneId = string

  // ---------------------------------------------------------------- qualified ids

  const SEPARATOR: string := "::"

  function Qualify(session: SessionId, pane: PaneId): string {
    session + SEPARATOR + pane
  }

  datatype Parts = Parts(session: SessionId, pane: PaneId)

  /** An id without separator is a raw pane of no session. */
  function ParseQualified(qid: string): Parts {
    var k := Find(qid, SEPARATOR);  // `indexOf`, with the length for -1
    if k == |qid| then Parts("", qid) else Parts(qid[..k], qid[k + 2..])
  }

  /** The session id holds no double colon and does not end in a colon. */
  predicate IsScopable(session: SessionId) {
    && (forall i :: 0 <= i < |session| ==> !OccursAt(session, SEPARATOR, i))
    && (session != [] ==> session[|session| - 1] != ':')
  }

  /** Taking a qualified id apart gives back what it was made of exactly when the session id can be
      told from the separator. */
  lemma {:induction false} ParseInvertsQualify(session: SessionId, pane: PaneId)
    ensures ParseQualified(Qualify(session, pane)) == Parts(session, pane) <==> IsScopable(session)
  {
    var q := Qualify(session, pane);
    var k := Find(q, SEPARATOR);
    FindSeparatorIff(session, SEPARATOR, pane);
    SeparableIff(session, SEPARATOR, ':');
    if k == |session| {
      assert q[..k] == session && q[k + 2..] == pane;
    } else {
      assert |q[..k]| < |session|;
    }
  }

  // ---------------------------------------------------------------- the store

  type Handler = nat

  /** A message's type, pane field if present, and the rest of it. */
  datatype Msg = Msg(t: string, pane: Option<string>, body: string)

  datatype Channel = Ws | P2P(session: SessionId)

  datatype Store = Store(
    links: set<SessionId>,              // sessions with a P2P connection
    wsOpen: bool,
    handlers: map<string, Handler>,     // by qualified id
    sent: seq<(Channel, Msg)>,
    delivered: seq<(Handler, string)>)

  const DATA_TYPES: set<string> := {"sub", "unsub", "i", "r", "ping"}

  function SessionOf(msg: Msg): SessionId {
    if msg.pane.Some? then ParseQualified(msg.pane.value).session else ""
  }

  /** The session's link if it has one, else the WebSocket if it is open. */
  function SenderFor(s: Store, session: SessionId): Option<Channel> {
    if session != "" && session in s.links then Some(P2P(session))
    else if s.wsOpen then Some(Ws) else None
  }

  function Send(s: Store, channel: Option<Channel>, msg: Msg): Store {
    if channel.None? then s else s.(sent := s.sent + [(channel.value, msg)])
  }

  /** `sendMsg`: data messages follow their session and lose the session prefix; every other message,
      of a control type or not, goes to the WebSocket as it is. */
  function SendMsg(s: Store, msg: Msg): Store {
    if msg.t in DATA_TYPES then
      var session := SessionOf(msg);
      var raw := if session != "" then msg.(pane := Some(ParseQualified(msg.pane.value).pane)) else msg;
      Send(s, SenderFor(s, session), raw)
    else Send(s, if s.wsOpen then Some(Ws) else None, msg)
  }

  /** `sendSubscribe` and the message of `unsubscribePane`: the raw pane on the session's channel. */
  function SendRaw(s: Store, t: string, qid: string): Store {
    var parts := ParseQualified(qid);
    Send(s, SenderFor(s, parts.session), Msg(t, Some(parts.pane), ""))
  }

  function Unsubscribe(s: Store, qid: string): Store {
    SendRaw(s.(handlers := s.handlers - {qid}), "unsub", qid)
  }

  /** Output is dispatched to the handler of its pane in the source session, else in the session the
      message names, else in the focused one. */
  function HandleOutput(
      s: Store, pane: PaneId, data: string, source: SessionId, named: SessionId, focused: SessionId): Store
  {
    var session := if source != "" then source else if named != "" then named else focused;
    var qid := Qualify(session, pane);
    if qid in s.handlers then s.(delivered := s.delivered + [(s.handlers[qid], data)]) else s
  }

  /** Output that arrives on the WebSocket is dropped while any session has a link. */
  function HandleWsOutput(s: Store, pane: PaneId, data: string, named: SessionId, focused: SessionId): Store {
    if s.links != {} then s else HandleOutput(s, pane, data, "", named, focused)
  }

  /** `teardownP2P`: an empty id tears every connection down. */
  function Teardown(s: Store, session: SessionId): Store {
    s.(links := if session != "" then s.links - {session} else {})
  }

  /** The handlers of other sessions, and those whose keys are still to be looked at. */
  function HandlersLeft(handlers: map<string, Handler>, keys: set<string>, session: SessionId): map<string, Handler> {
    map q | q in handlers && (q in keys || ParseQualified(q).session != session) :: handlers[q]
  }

  lemma {:induction false} DropOneHandler(
      handlers: map<string, Handler>, keys: set<string>, session: SessionId, q: string)
    requires q in keys && keys <= handlers.Keys
    ensures var left := HandlersLeft(handlers, keys, session);
            HandlersLeft(handlers, keys - {q}, session) ==
            if ParseQualified(q).session == session then left - {q} else left
  {}

  function DisconnectCleanup(s: Store, session: SessionId): Store {
    Teardown(s, session).(handlers := HandlersLeft(s.handlers, {}, session))
  }

  /** `cleanupSession`, which cleans up all of them */
  function CleanupAll(s: Store): Store {
    Teardown(s, "").(handlers := map[])
  }

  class TmuxStore {
    var p2pConnections: set<SessionId>
    var wsOpen: bool
    var paneHandlers: map<string, Handler>
    var sent: seq<(Channel, Msg)>
    var delivered: seq<(Handler, string)>

    constructor ()
      ensures State() == Store({}, false, map[], [], [])
    {
      p2pConnections, wsOpen, paneHandlers, sent, delivered := {}, false, map[], [], [];
    }

    ghost function State(): Store
      reads this
    {
      Store(p2pConnections, wsOpen, paneHandlers, sent, delivered)
    }

    method Post(channel: Option<Channel>, msg: Msg)
      modifies `sent
      ensures sent == if channel.Some? then old(sent) + [(channel.value, msg)] else old(sent)
    {
      if channel.Some? { sent := sent + [(channel.value, msg)]; }
    }

    method ChannelOf(session: SessionId) returns (channel: Option<Channel>)
      ensures channel == SenderFor(State(), session)
    {
      if session != "" && session in p2pConnections { return Some(P2P(session)); }
      return if wsOpen then Some(Ws) else None;
    }

    method SendMessage(msg: Msg)
      modifies this
      ensures State() == SendMsg(old(State()), msg)
    {
      if msg.t in DATA_TYPES {
        var qid := if msg.pane.Some? then msg.pane.value else "";
        var session := ParseQualified(qid).session;
        var channel := ChannelOf(session);
        var rawMsg := msg;
        if qid != "" && session != "" {
          rawMsg := rawMsg.(pane := Some(ParseQualified(qid).pane));
        }
        Post(channel, rawMsg);
        return;
      }
      Post(if wsOpen then Some(Ws) else None, msg);
    }

    method RegisterPaneHandler(qid: string, handler: Handler)
      modifies this
      ensures State() == old(State()).(handlers := old(paneHandlers)[qid := handler])
    {
      paneHandlers := paneHandlers[qid := handler];
    }

    method SendSubscribe(qid: string)
      modifies this
      ensures State() == SendRaw(old(State()), "sub", qid)
    {
      var parts := ParseQualified(qid);
      var channel := ChannelOf(parts.session);
      Post(channel, Msg("sub", Some(parts.pane), ""));
    }

    method UnsubscribePane(qid: string)
      modifies this
      ensures State() == Unsubscribe(old(State()), qid)
    {
      paneHandlers := paneHandlers - {qid};
      var parts := ParseQualified(qid);
      var channel := ChannelOf(parts.session);
      Post(channel, Msg("unsub", Some(parts.pane), ""));
    }

    method HandleServerOutput(pane: PaneId, data: string, source: SessionId, named: SessionId, focused: SessionId)
      modifies this
      ensures State() == HandleOutput(old(State()), pane, data, source, named, focused)
    {
      var sid := if source != "" then source else if named != "" then named else focused;
      var qid := Qualify(sid, pane);
      if qid in paneHandlers {
        delivered := delivered + [(paneHandlers[qid], data)];
      }
    }

    /** A message of type "o" in the WebSocket's handler */
    method OnWsOutput(pane: PaneId, data: string, named: SessionId, focused: SessionId)
      modifies this
      ensures State() == HandleWsOutput(old(State()), pane, data, named, focused)
    {
      if |p2pConnections| > 0 { return; }
      HandleServerOutput(pane, data, "", named, focused);
    }

    method CleanupSession()
      modifies this
      ensures State() == CleanupAll(old(State()))
    {
      TeardownP2P("");
      paneHandlers := map[];
    }

    method TeardownP2P(session: SessionId)
      modifies this
      ensures State() == Teardown(old(State()), session)
    {
      p2pConnections := if session != "" then p2pConnections - {session} else {};
    }

    method DisconnectSessionCleanup(session: SessionId)
      modifies this
      ensures State() == DisconnectCleanup(old(State()), session)
    {
      TeardownP2P(session);
      var keys := paneHandlers.Keys;
      ghost var start := paneHandlers;
      while keys != {}
        invariant keys <= start.Keys
        invariant paneHandlers == HandlersLeft(start, keys, session)
        invariant p2pConnections == Teardown(old(State()), session).links
        invariant wsOpen == old(wsOpen) && sent == old(sent) && delivered == old(delivered)
        decreases |keys|
      {
        var qid :| qid in keys;
        DropOneHandler(start, keys, session, qid);
        keys := keys - {qid};
        if ParseQualified(qid).session == session {
          paneHandlers := paneHandlers - {qid};
        }
      }
    }
  }

  // ---------------------------------------------------------------- the meaning, per session

  /** What a run may do, in terms of sessions and raw panes. */
  datatype Action =
    | OpenWs
    | CloseWs
    | OpenLink(session: SessionId)
    | CloseLink(session: SessionId)
    | Register(session: SessionId, pane: PaneId, handler: Handler)
    | SendData(session: SessionId, pane: PaneId, t: string, body: string)
    | Subscribe(session: SessionId, pane: PaneId)
    | Drop(session: SessionId, pane: PaneId)
    | LinkOutput(session: SessionId, pane: PaneId, data: string, named: SessionId, focused: SessionId)  // on its link
    | WsOutput(pane: PaneId, data: string, named: SessionId, focused: SessionId)  // arrives on the WebSocket
    | Cleanup(session: SessionId)
    | Reset

  /** A store in which sessions are kept apart by construction: handlers belong to a session and
      a pane, and nothing is ever joined or taken apart. */
  datatype Scoped = Scoped(
    links: set<SessionId>,
    wsOpen: bool,
    handlers: map<(SessionId, PaneId), Handler>,
    sent: seq<(Channel, Msg)>,
    delivered: seq<(Handler, string)>)

  function ScopedSend(s: Scoped, session: SessionId, msg: Msg): Scoped {
    if session in s.links then s.(sent := s.sent + [(P2P(session), msg)])
    else if s.wsOpen then s.(sent := s.sent + [(Ws, msg)])
    else s
  }

  function ScopedAct(s: Scoped, a: Action): Scoped {
    match a
    case OpenWs => s.(wsOpen := true)
    case CloseWs => s.(wsOpen := false)
    case OpenLink(session) => s.(links := s.links + {session})
    case CloseLink(session) => s.(links := s.links - {session})
    case Register(session, pane, h) => s.(handlers := s.handlers[(session, pane) := h])
    case SendData(session, pane, t, body) => ScopedSend(s, session, Msg(t, Some(pane), body))
    case Subscribe(session, pane) => ScopedSend(s, session, Msg("sub", Some(pane), ""))
    case Drop(session, pane) =>
      ScopedSend(s.(handlers := s.handlers - {(session, pane)}), session, Msg("unsub", Some(pane), ""))
    case LinkOutput(session, pane, data, _, _) =>
      if (session, pane) in s.handlers
      then s.(delivered := s.delivered + [(s.handlers[(session, pane)], data)]) else s
    case WsOutput(pane, data, named, focused) =>
      var session := if named != "" then named else focused;
      if s.links == {} && (session, pane) in s.handlers
      then s.(delivered := s.delivered + [(s.handlers[(session, pane)], data)]) else s
    case Cleanup(session) =>
      s.(links := s.links - {session},
         handlers := map k | k in s.handlers && k.0 != session :: s.handlers[k])
    case Reset => s.(links := {}, handlers := map[])
  }

  /** The same actions on the store as it is, through qualified ids. */
  function StoreAct(s: Store, a: Action): Store {
    match a
    case OpenWs => s.(wsOpen := true)
    case CloseWs => s.(wsOpen := false)
    case OpenLink(session) => s.(links := s.links + {session})
    case CloseLink(session) => Teardown(s, session)
    case Register(session, pane, h) => s.(handlers := s.handlers[Qualify(session, pane) := h])
    case SendData(session, pane, t, body) => SendMsg(s, Msg(t, Some(Qualify(session, pane)), body))
    case Subscribe(session, pane) => SendRaw(s, "sub", Qualify(session, pane))
    case Drop(session, pane) => Unsubscribe(s, Qualify(session, pane))
    case LinkOutput(session, pane, data, named, focused) => HandleOutput(s, pane, data, session, named, focused)
    case WsOutput(pane, data, named, focused) => HandleWsOutput(s, pane, data, named, focused)
    case Cleanup(session) => DisconnectCleanup(s, session)
    case Reset => CleanupAll(s)
  }

  predicate IsDataType(t: string) {
    t == "sub" || t == "unsub" || t == "i" || t == "r" || t == "ping"
  }

  /** The sessions of a run can be told apart, and data messages have data types. */
  predicate IsScopedAction(a: Action) {
    match a
    case OpenWs => true
    case CloseWs => true
    case Reset => true
    case WsOutput(_, _, named, focused) => IsScopable(if named != "" then named else focused)
    case _ => a.session != "" && IsScopable(a.session) && (a.SendData? ==> IsDataType(a.t))
  }

  predicate Refines(s: Store, t: Scoped) {
    && s.links == t.links && s.wsOpen == t.wsOpen && s.sent == t.sent && s.delivered == t.delivered
    && (forall k :: k in t.handlers ==> IsScopable(k.0))
    && (forall k :: k in t.handlers ==>
          Qualify(k.0, k.1) in s.handlers && s.handlers[Qualify(k.0, k.1)] == t.handlers[k])
    && (forall q :: q in s.handlers ==> exists k :: k in t.handlers && q == Qualify(k.0, k.1))
  }

  /** Different panes of telling sessions never share a qualified id. */
  lemma {:induction false} QualifyIsInjective(session: SessionId, pane: PaneId, session': SessionId, pane': PaneId)
    requires IsScopable(session) && IsScopable(session')
    requires Qualify(session, pane) == Qualify(session', pane')
    ensures session == session' && pane == pane'
  {
    ParseInvertsQualify(session, pane);
    ParseInvertsQualify(session', pane');
  }

  lemma {:induction false} RegisterRefines(s: Store, t: Scoped, session: SessionId, pane: PaneId, h: Handler)
    requires Refines(s, t) && IsScopable(session)
    ensures Refines(s.(handlers := s.handlers[Qualify(session, pane) := h]),
                    t.(handlers := t.handlers[(session, pane) := h]))
  {
    var t' := t.(handlers := t.handlers[(session, pane) := h]);
    var s' := s.(handlers := s.handlers[Qualify(session, pane) := h]);
    forall k | k in t'.handlers
      ensures Qualify(k.0, k.1) in s'.handlers && s'.handlers[Qualify(k.0, k.1)] == t'.handlers[k]
    {
      if Qualify(k.0, k.1) == Qualify(session, pane) { QualifyIsInjective(k.0, k.1, session, pane); }
    }
    forall q | q in s'.handlers ensures exists k :: k in t'.handlers && q == Qualify(k.0, k.1) {
      if q == Qualify(session, pane) {
        assert (session, pane) in t'.handlers;
      } else {
        var k :| k in t.handlers && q == Qualify(k.0, k.1);
        assert k in t'.handlers;
      }
    }
  }

  lemma {:induction false} DropRefines(s: Store, t: Scoped, session: SessionId, pane: PaneId)
    requires Refines(s, t) && IsScopable(session)
    ensures Refines(s.(handlers := s.handlers - {Qualify(session, pane)}),
                    t.(handlers := t.handlers - {(session, pane)}))
  {
    var t' := t.(handlers := t.handlers - {(session, pane)});
    var s' := s.(handlers := s.handlers - {Qualify(session, pane)});
    forall k | k in t'.handlers
      ensures Qualify(k.0, k.1) in s'.handlers && s'.handlers[Qualify(k.0, k.1)] == t'.handlers[k]
    {
      if Qualify(k.0, k.1) == Qualify(session, pane) { QualifyIsInjective(k.0, k.1, session, pane); }
    }
    forall q | q in s'.handlers ensures exists k :: k in t'.handlers && q == Qualify(k.0, k.1) {
      var k :| k in t.handlers && q == Qualify(k.0, k.1);
      assert k in t'.handlers;
    }
  }

  /** The handlers left are those of the panes left. */
  lemma {:induction false} HandlersLeftRefine(s: Store, t: Scoped, session: SessionId, q: string)
    requires Refines(s, t) && q in s.handlers
    ensures exists k :: k in t.handlers && q == Qualify(k.0, k.1) && ParseQualified(q).session == k.0
  {
    var k :| k in t.handlers && q == Qualify(k.0, k.1);
    ParseInvertsQualify(k.0, k.1);
  }

  lemma {:induction false} CleanupRefines(s: Store, t: Scoped, session: SessionId)
    requires Refines(s, t) && session != ""
    ensures Refines(DisconnectCleanup(s, session), ScopedAct(t, Cleanup(session)))
  {
    var t', s' := ScopedAct(t, Cleanup(session)), DisconnectCleanup(s, session);
    forall k | k in t'.handlers
      ensures Qualify(k.0, k.1) in s'.handlers && s'.handlers[Qualify(k.0, k.1)] == t'.handlers[k]
    {
      ParseInvertsQualify(k.0, k.1);
      assert k in t.handlers;
    }
    forall q | q in s'.handlers ensures exists k :: k in t'.handlers && q == Qualify(k.0, k.1) {
      HandlersLeftRefine(s, t, session, q);
      var k :| k in t.handlers && q == Qualify(k.0, k.1) && ParseQualified(q).session == k.0;
      assert k in t'.handlers;
    }
  }

  lemma {:induction false} KeyIsShared(s: Store, t: Scoped, session: SessionId, pane: PaneId)
    requires Refines(s, t) && IsScopable(session)
    ensures Qualify(session, pane) in s.handlers <==> (session, pane) in t.handlers
    ensures (session, pane) in t.handlers ==> s.handlers[Qualify(session, pane)] == t.handlers[(session, pane)]
  {
    if Qualify(session, pane) in s.handlers {
      var k :| k in t.handlers && Qualify(session, pane) == Qualify(k.0, k.1);
      QualifyIsInjective(k.0, k.1, session, pane);
    }
  }

  lemma {:induction false} OutputRefines(s: Store, t: Scoped, a: Action)
    requires Refines(s, t) && IsScopedAction(a) && (a.LinkOutput? || a.WsOutput?)
    ensures Refines(StoreAct(s, a), ScopedAct(t, a))
  {
    KeyIsShared(s, t, if a.LinkOutput? then a.session else if a.named != "" then a.named else a.focused, a.pane);
    SameHandlersRefine(s, t, StoreAct(s, a), ScopedAct(t, a));
  }

  /** Handlers left alone stay refined. */
  lemma {:induction false} SameHandlersRefine(s: Store, t: Scoped, s': Store, t': Scoped)
    requires Refines(s, t) && s'.handlers == s.handlers && t'.handlers == t.handlers
    requires s'.links == t'.links && s'.wsOpen == t'.wsOpen && s'.sent == t'.sent && s'.delivered == t'.delivered
    ensures Refines(s', t')
  {
    forall q | q in s'.handlers ensures exists k :: k in t'.handlers && q == Qualify(k.0, k.1) {
      var k :| k in t.handlers && q == Qualify(k.0, k.1);
      assert k in t'.handlers;
    }
  }

  lemma {:induction false} SendRefines(s: Store, t: Scoped, a: Action)
    requires Refines(s, t) && IsScopedAction(a) && a.SendData?
    ensures Refines(StoreAct(s, a), ScopedAct(t, a))
  {
    ParseInvertsQualify(a.session, a.pane);
    SameHandlersRefine(s, t, StoreAct(s, a), ScopedAct(t, a));
  }

  lemma {:induction false} DropActionRefines(s: Store, t: Scoped, session: SessionId, pane: PaneId)
    requires Refines(s, t) && session != "" && IsScopable(session)
    ensures Refines(StoreAct(s, Drop(session, pane)), ScopedAct(t, Drop(session, pane)))
  {
    DropRefines(s, t, session, pane);
    RawRefines(s.(handlers := s.handlers - {Qualify(session, pane)}), t.(handlers := t.handlers - {(session, pane)}),
               session, pane, "unsub");
  }

  lemma {:induction false} RawRefines(s: Store, t: Scoped, session: SessionId, pane: PaneId, kind: string)
    requires Refines(s, t) && session != "" && IsScopable(session)
    ensures Refines(SendRaw(s, kind, Qualify(session, pane)), ScopedSend(t, session, Msg(kind, Some(pane), "")))
  {
    ParseInvertsQualify(session, pane);
    SameHandlersRefine(s, t, SendRaw(s, kind, Qualify(session, pane)),
                       ScopedSend(t, session, Msg(kind, Some(pane), "")));
  }

  lemma {:induction false} ConnectionRefines(s: Store, t: Scoped, a: Action)
    requires Refines(s, t) && IsScopedAction(a) && (a.OpenWs? || a.CloseWs? || a.OpenLink? || a.CloseLink?)
    ensures Refines(StoreAct(s, a), ScopedAct(t, a))
  {
    SameHandlersRefine(s, t, StoreAct(s, a), ScopedAct(t, a));
  }

  lemma {:induction false} ActionRefines(s: Store, t: Scoped, a: Action)
    requires Refines(s, t) && IsScopedAction(a)
    ensures Refines(StoreAct(s, a), ScopedAct(t, a))
  {
    match a
    case Register(session, pane, h) => RegisterRefines(s, t, session, pane, h);
    case SendData(_, _, _, _) => SendRefines(s, t, a);
    case Subscribe(session, pane) => RawRefines(s, t, session, pane, "sub");
    case Drop(session, pane) => DropActionRefines(s, t, session, pane);
    case LinkOutput(_, _, _, _, _) => OutputRefines(s, t, a);
    case WsOutput(_, _, _, _) => OutputRefines(s, t, a);
    case Cleanup(session) => CleanupRefines(s, t, session);
    case Reset =>
    case _ => ConnectionRefines(s, t, a);
  }

  function StoreRun(s: Store, actions: seq<Action>): Store {
    if actions == [] then s else StoreAct(StoreRun(s, actions[..|actions| - 1]), actions[|actions| - 1])
  }

  function ScopedRun(s: Scoped, actions: seq<Action>): Scoped {
    if actions == [] then s else ScopedAct(ScopedRun(s, actions[..|actions| - 1]), actions[|actions| - 1])
  }

  const EMPTY := Store({}, false, map[], [], [])
  const SCOPED_EMPTY := Scoped({}, false, map[], [], [])

  /** Over every run with any number of sessions sharing raw pane ids, the store sends and delivers
      exactly what the store that keeps sessions apart does. */
  lemma {:induction false} NoCrossSessionDelivery(actions: seq<Action>)
    requires forall i :: 0 <= i < |actions| ==> IsScopedAction(actions[i])
    ensures Refines(StoreRun(EMPTY, actions), ScopedRun(SCOPED_EMPTY, actions))
    ensures StoreRun(EMPTY, actions).sent == ScopedRun(SCOPED_EMPTY, actions).sent
    ensures StoreRun(EMPTY, actions).delivered == ScopedRun(SCOPED_EMPTY, actions).delivered
  {
    if actions != [] {
      NoCrossSessionDelivery(actions[..|actions| - 1]);
      ActionRefines(StoreRun(EMPTY, actions[..|actions| - 1]), ScopedRun(SCOPED_EMPTY, actions[..|actions| - 1]),
                    actions[|actions| - 1]);
    }
  }

  /** The pane's handler as the run's own history gives it: the last one registered for that session
      and pane, unless the pane has been dropped or the session cleaned up since. */
  function LastHandler(actions: seq<Action>, session: SessionId, pane: PaneId): Option<Handler> {
    if actions == [] then None
    else
      var a := actions[|actions| - 1];
      if a.Register? && a.session == session && a.pane == pane then Some(a.handler)
      else if a.Drop? && a.session == session && a.pane == pane then None
      else if a.Reset? || (a.Cleanup? && a.session == session) then None
      else LastHandler(actions[..|actions| - 1], session, pane)
  }

  lemma {:induction false} ScopedHandlersFollowHistory(actions: seq<Action>, session: SessionId, pane: PaneId)
    ensures var t := ScopedRun(SCOPED_EMPTY, actions);
            LastHandler(actions, session, pane) ==
            if (session, pane) in t.handlers then Some(t.handlers[(session, pane)]) else None
  {
    if actions != [] {
      ScopedHandlersFollowHistory(actions[..|actions| - 1], session, pane);
    }
  }

  /** Output on a session's link reaches the handler last registered for that session and pane, and
      no other, whatever session it names or has the focus.  Output on the WebSocket, if no session
      has a link, reaches the one last registered for its pane in the session it names, or in the
      focused one if it names none.  A data message goes out once, with the raw pane, on its
      session's link if it has one, else on the WebSocket, else not at all. */
  lemma {:induction false} EachMessageOnce(actions: seq<Action>, a: Action)
    requires forall i :: 0 <= i < |actions| ==> IsScopedAction(actions[i])
    requires IsScopedAction(a) && (a.LinkOutput? || a.WsOutput? || a.SendData?)
    ensures var s := StoreRun(EMPTY, actions);
            var s' := StoreAct(s, a);
            && (a.LinkOutput? ==>
                  var h := LastHandler(actions, a.session, a.pane);
                  s' == s.(delivered := s.delivered + if h.Some? then [(h.value, a.data)] else []))
            && (a.WsOutput? ==>
                  var h := LastHandler(actions, if a.named != "" then a.named else a.focused, a.pane);
                  s' == s.(delivered := s.delivered +
                             if s.links == {} && h.Some? then [(h.value, a.data)] else []))
            && (a.SendData? ==>
                  var raw := Msg(a.t, Some(a.pane), a.body);
                  s' == s.(sent := s.sent + if a.session in s.links then [(P2P(a.session), raw)]
                                            else if s.wsOpen then [(Ws, raw)] else []))
  {
    NoCrossSessionDelivery(actions);
    var s, t := StoreRun(EMPTY, actions), ScopedRun(SCOPED_EMPTY, actions);
    if a.SendData? {
      ParseInvertsQualify(a.session, a.pane);
      assert s.sent + [] == s.sent;
    } else {
      var session := if a.LinkOutput? then a.session else if a.named != "" then a.named else a.focused;
      ScopedHandlersFollowHistory(actions, session, a.pane);
      KeyIsShared(s, t, session, a.pane);
      assert s.delivered + [] == s.delivered;
    }
  }

  // ---------------------------------------------------------------- other messages

  /** Any message but the five kinds of data goes to the WebSocket as it is, and so does data that
      names no session. */
  lemma {:induction false} OthersGoToWs(s: Store, msg: Msg)
    requires !IsDataType(msg.t) || msg.pane.None? || (forall i :: 0 <= i < |msg.pane.value| ==>
                                                        !OccursAt(msg.pane.value, "::", i))
    ensures SendMsg(s, msg) == if s.wsOpen then s.(sent := s.sent + [(Ws, msg)]) else s
  {}

  /** Requests about sessions, agents and transports are none of the five. */
  lemma {:induction false} ControlIsNotData(t: string)
    requires || t == "sess_create" || t == "sess_list" || t == "sess_connect" || t == "sess_disconnect"
             || t == "sess_delete" || t == "sess_refresh" || t == "sess_update" || t == "agent_status"
             || t == "agent_install" || t == "transport_upgrade" || t == "ice_req"
    ensures !IsDataType(t)
  {
    assert |t| > 5;
  }
}
