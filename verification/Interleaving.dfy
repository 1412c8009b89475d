/**
 Connect, disconnect and refresh calls on any number of sessions, interleaved at their await
 points.  Each session's transport sits behind a lock; a connect announces itself as Connecting,
 in memory and in the database, before it has the lock.
 */
module Interleaving {
  import opened Text
  import opened PaneListing
  import opened RouteIndex
  import opened SessionManager

  type CallId = nat

  datatype Kind = ConnectCall | DisconnectCall | RefreshCall

  /** Where a call is waiting. */
  datatype Point =
    | Announcing                   // connect: writing "connecting" to the database
    | ConnectWaiting               // connect: waiting for the lock
    | Opening                      // connect: has the lock, the transport is connecting
    | ListingPanes                      // connect: the transport is connected, panes are being listed
    | Recording(outcome: Outcome)  // connect: memory is updated, the outcome is being written
    | DisconnectWaiting
    | Closing                      // disconnect: has the lock, the transport is closing
    | RecordingClose               // disconnect: memory is updated, the outcome is being written
    | RefreshWaiting
    | Refreshing                   // refresh: has the lock, panes are being listed
    | Leaving                      // done, about to give up the lock

  datatype Call = Call(id: SessionId, at: Point)

  /** What a call that held the lock did to its session. */
  datatype Effect =
    | DidConnect(outcome: Outcome)
    | DidDisconnect
    | DidRefresh(listing: Listing)

  /** A session's state in memory, its row in the database, and its history: the effects in the
      order the lock was held, and whether the latest write of an outcome succeeded. */
  datatype Slot = Slot(mem: Meta, db: DbRow, log: seq<Effect>, recorded: bool)

  datatype Sys = Sys(
    slots: map<SessionId, Slot>,
    routes: map<PaneId, SessionId>,
    holder: map<SessionId, CallId>,
    calls: map<CallId, Call>)

  /** What memory and database hold before the first call. */
  type Base = map<SessionId, (Meta, DbRow)>

  function Initial(base: Base, routes: map<PaneId, SessionId>): Sys {
    Sys(map id | id in base :: Slot(base[id].0, base[id].1, [], true), routes, map[], map[])
  }

  // ---------------------------------------------------------------- steps

  /** One step of one call, with what its environment answered. */
  datatype Step =
    | Start(call: CallId, kind: Kind, id: SessionId)
    | WroteConnecting(call: CallId, ok: bool)
    | GotLock(call: CallId)
    | TransportConnected(call: CallId, error: Option<string>)
    | TransportListed(call: CallId, listing: Option<Listing>)
    | TransportClosed(call: CallId, ok: bool)
    | WroteOutcome(call: CallId, ok: bool)
    | ReleasedLock(call: CallId)

  function At(s: Sys, c: CallId, p: Point): Sys
    requires c in s.calls
  {
    s.(calls := s.calls[c := s.calls[c].(at := p)])
  }

  function StartCall(s: Sys, c: CallId, kind: Kind, id: SessionId): Option<Sys> {
    if c in s.calls then None
    else
      var s := if kind.DisconnectCall? then s.(routes := Unroute(s.routes, id)) else s;
      if id !in s.slots then Some(s)  // "session not found"
      else
        match kind
        case ConnectCall =>
          var slot := s.slots[id];
          Some(s.(slots := s.slots[id := slot.(mem := slot.mem.(status := Connecting))],
                  calls := s.calls[c := Call(id, Announcing)]))
        case DisconnectCall => Some(s.(calls := s.calls[c := Call(id, DisconnectWaiting)]))
        case RefreshCall => Some(s.(calls := s.calls[c := Call(id, RefreshWaiting)]))
  }

  predicate IsWaiting(p: Point) {
    p.ConnectWaiting? || p.DisconnectWaiting? || p.RefreshWaiting?
  }

  function Lock(s: Sys, c: CallId): Option<Sys>
    requires c in s.calls
  {
    var id, at := s.calls[c].id, s.calls[c].at;
    if !IsWaiting(at) || id in s.holder then None
    else
      var next := if at.ConnectWaiting? then Opening else if at.DisconnectWaiting? then Closing else Refreshing;
      Some(At(s, c, next).(holder := s.holder[id := c]))
  }

  /** A call learns what it did to its session: memory and history change together. */
  function Finish(s: Sys, c: CallId, e: Effect, next: Point): Sys
    requires c in s.calls && s.calls[c].id in s.slots
  {
    var id := s.calls[c].id;
    var slot := s.slots[id];
    At(s, c, next).(
      routes := match e
                case DidConnect(Opened(listing)) => Route(s.routes, PaneIds(Listed(listing)), id)
                case DidRefresh(listing) => Route(s.routes, PaneIds(listing), id)
                case _ => s.routes,
      slots := s.slots[id := slot.(mem := Act((slot.mem, slot.db), e).0, log := slot.log + [e])])
  }

  function Announce(s: Sys, c: CallId, ok: bool): Sys
    requires c in s.calls && s.calls[c].id in s.slots
  {
    var id := s.calls[c].id;
    var slot := s.slots[id];
    At(s, c, ConnectWaiting).(slots := s.slots[id := slot.(db := if ok then DbRow(Connecting, None) else slot.db)])
  }

  function Record(s: Sys, c: CallId, row: DbRow, ok: bool): Sys
    requires c in s.calls && s.calls[c].id in s.slots
  {
    var id := s.calls[c].id;
    var slot := s.slots[id];
    At(s, c, Leaving).(slots := s.slots[id := slot.(db := if ok then row else slot.db, recorded := ok)])
  }

  function Next(s: Sys, step: Step): Option<Sys> {
    if step.Start? then StartCall(s, step.call, step.kind, step.id)
    else if step.call !in s.calls || s.calls[step.call].id !in s.slots then None
    else
      var c := step.call;
      var at := s.calls[c].at;
      match step
      case WroteConnecting(_, ok) => if at == Announcing then Some(Announce(s, c, ok)) else None
      case GotLock(_) => Lock(s, c)
      case TransportConnected(_, error) =>
        if at != Opening then None
        else if error.None? then Some(At(s, c, ListingPanes))
        else Some(Finish(s, c, DidConnect(Refused(error.value)), Recording(Refused(error.value))))
      case TransportListed(_, listing) =>
        if at == ListingPanes then Some(Finish(s, c, DidConnect(Opened(listing)), Recording(Opened(listing))))
        else if at != Refreshing then None
        else if listing.None? then Some(At(s, c, Leaving))
        else Some(Finish(s, c, DidRefresh(listing.value), Leaving))
      case TransportClosed(_, ok) =>
        if at != Closing then None
        else if ok then Some(Finish(s, c, DidDisconnect, RecordingClose))
        else Some(At(s, c, Leaving))
      case WroteOutcome(_, ok) =>
        if at.Recording? then Some(Record(s, c, ConnectRow(at.outcome), ok))
        else if at == RecordingClose then Some(Record(s, c, DISCONNECT_ROW, ok))
        else None
      case ReleasedLock(_) =>
        if at == Leaving then Some(s.(calls := s.calls - {c}, holder := s.holder - {s.calls[c].id})) else None
  }

  /** The state after a sequence of steps, if each of them was possible. */
  function RunSteps(s: Sys, steps: seq<Step>): Option<Sys>
    decreases |steps|
  {
    if steps == [] then Some(s)
    else
      var next := Next(s, steps[0]);
      if next.None? then None else RunSteps(next.value, steps[1..])
  }

  // ---------------------------------------------------------------- the serial meaning

  function Act(state: (Meta, DbRow), e: Effect): (Meta, DbRow) {
    match e
    case DidConnect(outcome) => (ConnectMeta(state.0, outcome), ConnectRow(outcome))
    case DidDisconnect => (DisconnectMeta(state.0), DISCONNECT_ROW)
    case DidRefresh(listing) => (state.0.(trees := listing), state.1)
  }

  /** The session after its effects, one whole call after the other. */
  function Replay(state: (Meta, DbRow), log: seq<Effect>): (Meta, DbRow) {
    if log == [] then state else Act(Replay(state, log[..|log| - 1]), log[|log| - 1])
  }

  lemma {:induction false} ReplayStep(state: (Meta, DbRow), log: seq<Effect>, e: Effect)
    ensures Replay(state, log + [e]) == Act(Replay(state, log), e)
  {
    assert (log + [e])[..|log|] == log;
  }

  /** The serial meaning is the session manager's own: an effect is what a completed call with
      successful writes does to its session. */
  lemma {:induction false} EffectsAreCompletedCalls(w: World, id: SessionId, e: Effect)
    requires id in w.sessions && id in w.db
    ensures var op := match e
                      case DidConnect(outcome) => Connect(id, outcome, true, true)
                      case DidDisconnect => Disconnect(id, true, true)
                      case DidRefresh(listing) => Refresh(id, Some(listing));
            var w' := Apply(w, op);
            (w'.sessions[id], w'.db[id]) == Act((w.sessions[id], w.db[id]), e)
  {}

  // ---------------------------------------------------------------- invariant

  predicate HasLock(p: Point) {
    !p.Announcing? && !IsWaiting(p)
  }

  /** A connect that has announced itself and not yet learnt its outcome. */
  predicate IsPending(p: Point) {
    p.Announcing? || p.ConnectWaiting? || p.Opening? || p.ListingPanes?
  }

  predicate IsRecording(p: Point) {
    p.Recording? || p.RecordingClose?
  }

  predicate SomePending(s: Sys, id: SessionId) {
    exists c :: c in s.calls && s.calls[c].id == id && IsPending(s.calls[c].at)
  }

  predicate SomeRecording(s: Sys, id: SessionId) {
    exists c :: c in s.calls && s.calls[c].id == id && IsRecording(s.calls[c].at)
  }

  predicate CallsKnown(s: Sys) {
    forall c :: c in s.calls ==> s.calls[c].id in s.slots
  }

  /** Exactly the calls past their lock point hold the lock of their session. */
  predicate LocksOk(s: Sys) {
    && (forall c :: c in s.calls && HasLock(s.calls[c].at) ==>
          s.calls[c].id in s.holder && s.holder[s.calls[c].id] == c)
    && (forall id :: id in s.holder ==>
          s.holder[id] in s.calls && s.calls[s.holder[id]].id == id && HasLock(s.calls[s.holder[id]].at))
  }

  function Serial(s: Sys, base: Base, id: SessionId): (Meta, DbRow)
    requires id in base && id in s.slots
  {
    Replay(base[id], s.slots[id].log)
  }

  /** Memory is the serial one but for a pending connect's announcement; the row is the serial one
      unless a call has still to write it. */
  predicate SlotOk(s: Sys, base: Base, id: SessionId)
    requires id in base && id in s.slots
  {
    var (m, row) := Serial(s, base, id);
    var slot := s.slots[id];
    && slot.mem.(status := m.status) == m
    && (slot.mem.status == m.status || (slot.mem.status == Connecting && SomePending(s, id)))
    && (slot.recorded ==> slot.db == row || SomePending(s, id) || SomeRecording(s, id))
  }

  /** What a call is about to write is the serial row. */
  predicate RecordingOk(s: Sys, base: Base, c: CallId)
    requires c in s.calls && s.calls[c].id in base && s.calls[c].id in s.slots
  {
    var row := Serial(s, base, s.calls[c].id).1;
    && (s.calls[c].at.Recording? ==> row == ConnectRow(s.calls[c].at.outcome))
    && (s.calls[c].at.RecordingClose? ==> row == DISCONNECT_ROW)
  }

  predicate Inv(s: Sys, base: Base) {
    && s.slots.Keys == base.Keys && CallsKnown(s) && LocksOk(s)
    && (forall id :: id in s.slots ==> SlotOk(s, base, id))
    && (forall c :: c in s.calls ==> RecordingOk(s, base, c))
  }

  /** Only call `c` may differ. */
  ghost predicate OtherCallsSame(s: Sys, s': Sys, c: CallId) {
    forall d :: d != c ==>
      (d in s.calls <==> d in s'.calls) && (d in s.calls && d in s'.calls ==> s.calls[d] == s'.calls[d])
  }

  /** A step of call `c` on session `mine` that changes nothing else. */
  ghost predicate IsLocal(s: Sys, s': Sys, c: CallId, mine: SessionId) {
    && mine in s.slots && OtherCallsSame(s, s', c)
    && (c in s.calls ==> s.calls[c].id == mine) && (c in s'.calls ==> s'.calls[c].id == mine)
    && s'.slots.Keys == s.slots.Keys
    && forall id :: id in s.slots && id != mine ==> s'.slots[id] == s.slots[id]
  }

  lemma {:induction false} FrameSession(s: Sys, s': Sys, base: Base, c: CallId, mine: SessionId, id: SessionId)
    requires id in base && id in s.slots && id != mine && IsLocal(s, s', c, mine) && SlotOk(s, base, id)
    ensures SlotOk(s', base, id)
  {
    if SomePending(s, id) {
      var d :| d in s.calls && s.calls[d].id == id && IsPending(s.calls[d].at);
      assert d in s'.calls && s'.calls[d] == s.calls[d];
    }
    if SomeRecording(s, id) {
      var d :| d in s.calls && s.calls[d].id == id && IsRecording(s.calls[d].at);
      assert d in s'.calls && s'.calls[d] == s.calls[d];
    }
  }

  /** The history of `mine` changes only under its lock. */
  predicate LogUnderLock(s: Sys, s': Sys, c: CallId, mine: SessionId) {
    mine in s.slots && mine in s'.slots && s'.slots[mine].log != s.slots[mine].log ==>
      c in s.calls && s.calls[c].id == mine && HasLock(s.calls[c].at)
  }

  lemma {:induction false} LocalStepKeeps(s: Sys, s': Sys, base: Base, c: CallId, mine: SessionId)
    requires Inv(s, base) && IsLocal(s, s', c, mine) && LogUnderLock(s, s', c, mine)
    requires LocksOk(s') && SlotOk(s', base, mine)
    requires c in s'.calls ==> RecordingOk(s', base, c)
    ensures Inv(s', base)
  {
    forall id | id in s'.slots ensures SlotOk(s', base, id) {
      if id != mine { FrameSession(s, s', base, c, mine, id); }
    }
    forall d | d in s'.calls ensures s'.calls[d].id in s'.slots && RecordingOk(s', base, d) {
      if d != c { FrameCall(s, s', base, c, mine, d); }
    }
  }

  lemma {:induction false} FrameCall(s: Sys, s': Sys, base: Base, c: CallId, mine: SessionId, d: CallId)
    requires Inv(s, base) && IsLocal(s, s', c, mine) && LogUnderLock(s, s', c, mine)
    requires d in s'.calls && d != c
    ensures s'.calls[d].id in s'.slots && RecordingOk(s', base, d)
  {
    assert s'.calls[d] == s.calls[d] && RecordingOk(s, base, d);
    if s.calls[d].id == mine {
      if HasLock(s.calls[d].at) { assert s.holder[mine] == d; }
    }
  }

  lemma {:induction false} StillPending(s: Sys, s': Sys, c: CallId, id: SessionId)
    requires SomePending(s, id) && OtherCallsSame(s, s', c)
    requires c in s.calls && s.calls[c].id == id && IsPending(s.calls[c].at) ==>
               c in s'.calls && s'.calls[c].id == id && IsPending(s'.calls[c].at)
    ensures SomePending(s', id)
  {
    var d :| d in s.calls && s.calls[d].id == id && IsPending(s.calls[d].at);
    assert d in s'.calls && s'.calls[d].id == id && IsPending(s'.calls[d].at);
  }

  lemma {:induction false} StillRecording(s: Sys, s': Sys, c: CallId, id: SessionId)
    requires SomeRecording(s, id) && OtherCallsSame(s, s', c)
    requires c in s.calls ==> !IsRecording(s.calls[c].at)
    ensures SomeRecording(s', id)
  {
    var d :| d in s.calls && s.calls[d].id == id && IsRecording(s.calls[d].at);
    assert d in s'.calls && s'.calls[d].id == id && IsRecording(s'.calls[d].at);
  }

  lemma {:induction false} LocksStay(s: Sys, s': Sys, c: CallId)
    requires LocksOk(s) && OtherCallsSame(s, s', c) && s'.holder == s.holder
    requires c in s.calls && HasLock(s.calls[c].at) ==>
               c in s'.calls && HasLock(s'.calls[c].at) && s'.calls[c].id == s.calls[c].id
    requires c in s'.calls && HasLock(s'.calls[c].at) ==>
               c in s.calls && HasLock(s.calls[c].at) && s'.calls[c].id == s.calls[c].id
    ensures LocksOk(s')
  {}

  /** A call that moves on between two points of the same kind leaves its session settled as it was. */
  lemma {:induction false} MoveKeeps(s: Sys, s': Sys, base: Base, c: CallId)
    requires Inv(s, base) && c in s.calls && c in s'.calls && IsLocal(s, s', c, s.calls[c].id) && LocksOk(s')
    requires IsPending(s.calls[c].at) == IsPending(s'.calls[c].at)
    requires !IsRecording(s.calls[c].at) && !IsRecording(s'.calls[c].at)
    requires s'.slots == s.slots ||
             (IsPending(s.calls[c].at) &&
              s'.slots[s.calls[c].id].(db := s.slots[s.calls[c].id].db) == s.slots[s.calls[c].id])
    ensures Inv(s', base)
  {
    var mine := s.calls[c].id;
    assert SlotOk(s, base, mine);
    if SomePending(s, mine) { StillPending(s, s', c, mine); }
    if SomeRecording(s, mine) { StillRecording(s, s', c, mine); }
    if IsPending(s.calls[c].at) {
      assert IsPending(s'.calls[c].at) && s'.calls[c].id == mine;
      assert SomePending(s', mine);
    }
    LocalStepKeeps(s, s', base, c, mine);
  }

  lemma {:induction false} AtIsLocal(s: Sys, c: CallId, p: Point)
    requires LocksOk(s) && c in s.calls && s.calls[c].id in s.slots && HasLock(s.calls[c].at) == HasLock(p)
    ensures IsLocal(s, At(s, c, p), c, s.calls[c].id) && LocksOk(At(s, c, p))
  {}

  lemma {:induction false} AtKeeps(s: Sys, base: Base, c: CallId, p: Point)
    requires Inv(s, base) && c in s.calls && IsPending(s.calls[c].at) == IsPending(p)
    requires HasLock(s.calls[c].at) && HasLock(p) && !IsRecording(s.calls[c].at) && !IsRecording(p)
    ensures Inv(At(s, c, p), base)
  {
    AtIsLocal(s, c, p);
    MoveKeeps(s, At(s, c, p), base, c);
  }

  lemma {:induction false} AnnounceIsLocal(s: Sys, c: CallId, ok: bool)
    requires LocksOk(s) && c in s.calls && s.calls[c].id in s.slots && s.calls[c].at == Announcing
    ensures IsLocal(s, Announce(s, c, ok), c, s.calls[c].id) && LocksOk(Announce(s, c, ok))
  {}

  lemma {:induction false} AnnounceKeeps(s: Sys, base: Base, c: CallId, ok: bool)
    requires Inv(s, base) && c in s.calls && s.calls[c].at == Announcing
    ensures Inv(Announce(s, c, ok), base)
  {
    AnnounceIsLocal(s, c, ok);
    MoveKeeps(s, Announce(s, c, ok), base, c);
  }

  lemma {:induction false} LockIsLocal(s: Sys, c: CallId)
    requires LocksOk(s) && c in s.calls && s.calls[c].id in s.slots && Lock(s, c).Some?
    ensures IsLocal(s, Lock(s, c).value, c, s.calls[c].id) && LocksOk(Lock(s, c).value)
  {}

  lemma {:induction false} LockKeeps(s: Sys, base: Base, c: CallId)
    requires Inv(s, base) && c in s.calls && Lock(s, c).Some?
    ensures Inv(Lock(s, c).value, base)
  {
    LockIsLocal(s, c);
    MoveKeeps(s, Lock(s, c).value, base, c);
  }

  lemma {:induction false} StartKeeps(s: Sys, base: Base, c: CallId, kind: Kind, id: SessionId)
    requires Inv(s, base) && StartCall(s, c, kind, id).Some?
    ensures Inv(StartCall(s, c, kind, id).value, base)
  {
    var s' := StartCall(s, c, kind, id).value;
    if id !in s.slots {
      SameSlotsKeep(s, s', base);
    } else if kind.ConnectCall? {
      StartConnectKeeps(s, s', base, c, id);
    } else {
      StartOtherKeeps(s, s', base, c, id);
    }
  }

  /** Routes play no part in the invariant. */
  lemma {:induction false} SameSlotsKeep(s: Sys, s': Sys, base: Base)
    requires Inv(s, base) && s' == s.(routes := s'.routes)
    ensures Inv(s', base)
  {
    forall id | id in s'.slots ensures SlotOk(s', base, id) {
      assert SlotOk(s, base, id);
      assert SomePending(s', id) == SomePending(s, id) && SomeRecording(s', id) == SomeRecording(s, id);
    }
    forall c | c in s'.calls ensures RecordingOk(s', base, c) {
      assert RecordingOk(s, base, c);
    }
  }

  lemma {:induction false} StartConnectKeeps(s: Sys, s': Sys, base: Base, c: CallId, id: SessionId)
    requires Inv(s, base) && c !in s.calls && id in s.slots
    requires s' == s.(slots := s.slots[id := s.slots[id].(mem := s.slots[id].mem.(status := Connecting))],
                      calls := s.calls[c := Call(id, Announcing)])
    ensures Inv(s', base)
  {
    LocksStay(s, s', c);
    assert s'.calls[c].id == id && IsPending(s'.calls[c].at);
    assert SomePending(s', id);
    assert SlotOk(s, base, id);
    LocalStepKeeps(s, s', base, c, id);
  }

  lemma {:induction false} StartOtherKeeps(s: Sys, s': Sys, base: Base, c: CallId, id: SessionId)
    requires Inv(s, base) && c !in s.calls && id in s.slots && c in s'.calls
    requires IsWaiting(s'.calls[c].at) && !IsPending(s'.calls[c].at)
    requires s' == s.(routes := s'.routes, calls := s.calls[c := Call(id, s'.calls[c].at)])
    ensures Inv(s', base)
  {
    LocksStay(s, s', c);
    if SomePending(s, id) { StillPending(s, s', c, id); }
    if SomeRecording(s, id) { StillRecording(s, s', c, id); }
    assert SlotOk(s, base, id);
    LocalStepKeeps(s, s', base, c, id);
  }

  lemma {:induction false} FinishIsLocal(s: Sys, c: CallId, e: Effect, next: Point)
    requires LocksOk(s) && c in s.calls && s.calls[c].id in s.slots && HasLock(s.calls[c].at) && HasLock(next)
    ensures IsLocal(s, Finish(s, c, e, next), c, s.calls[c].id) && LocksOk(Finish(s, c, e, next))
  {}

  /** The serial state takes the step the slot takes. */
  lemma {:induction false} FinishIsSerial(s: Sys, base: Base, c: CallId, e: Effect, next: Point)
    requires c in s.calls && s.calls[c].id in s.slots && s.calls[c].id in base && SlotOk(s, base, s.calls[c].id)
    ensures var mine, s' := s.calls[c].id, Finish(s, c, e, next);
            var m := Serial(s', base, mine).0;
            && Serial(s', base, mine) == Act(Serial(s, base, mine), e)
            && s'.slots[mine].mem.(status := m.status) == m
            && (e.DidRefresh? || s'.slots[mine].mem.status == m.status)
            && s'.slots[mine].(mem := s.slots[mine].mem, log := s.slots[mine].log) == s.slots[mine]
  {
    var mine := s.calls[c].id;
    ReplayStep(base[mine], s.slots[mine].log, e);
  }

  lemma {:induction false} FinishKeeps(s: Sys, base: Base, c: CallId, e: Effect, next: Point)
    requires Inv(s, base) && c in s.calls && HasLock(s.calls[c].at) && !IsRecording(s.calls[c].at)
    requires match e
             case DidConnect(outcome) => next == Recording(outcome)
             case DidDisconnect => next == RecordingClose
             case DidRefresh(_) => next == Leaving && !IsPending(s.calls[c].at)
    ensures Inv(Finish(s, c, e, next), base)
  {
    var mine, s' := s.calls[c].id, Finish(s, c, e, next);
    FinishIsLocal(s, c, e, next);
    FinishIsSerial(s, base, c, e, next);
    if e.DidRefresh? {
      if SomePending(s, mine) { StillPending(s, s', c, mine); }
      if SomeRecording(s, mine) { StillRecording(s, s', c, mine); }
    } else {
      assert s'.calls[c].id == mine && IsRecording(s'.calls[c].at);
      assert SomeRecording(s', mine);
    }
    LocalStepKeeps(s, s', base, c, mine);
  }

  lemma {:induction false} RecordIsLocal(s: Sys, c: CallId, row: DbRow, ok: bool)
    requires LocksOk(s) && c in s.calls && s.calls[c].id in s.slots && IsRecording(s.calls[c].at)
    ensures IsLocal(s, Record(s, c, row, ok), c, s.calls[c].id) && LocksOk(Record(s, c, row, ok))
  {}

  lemma {:induction false} RecordKeeps(s: Sys, base: Base, c: CallId, ok: bool)
    requires Inv(s, base) && c in s.calls && IsRecording(s.calls[c].at)
    ensures Inv(Record(s, c, Serial(s, base, s.calls[c].id).1, ok), base)
  {
    var mine := s.calls[c].id;
    var row := Serial(s, base, mine).1;
    var s' := Record(s, c, row, ok);
    RecordIsLocal(s, c, row, ok);
    assert SlotOk(s, base, mine);
    if SomePending(s, mine) { StillPending(s, s', c, mine); }
    LocalStepKeeps(s, s', base, c, mine);
  }

  lemma {:induction false} ReleaseIsLocal(s: Sys, c: CallId)
    requires LocksOk(s) && c in s.calls && s.calls[c].id in s.slots && s.calls[c].at == Leaving
    ensures var s' := s.(calls := s.calls - {c}, holder := s.holder - {s.calls[c].id});
            IsLocal(s, s', c, s.calls[c].id) && LocksOk(s')
  {}

  lemma {:induction false} ReleaseKeeps(s: Sys, base: Base, c: CallId)
    requires Inv(s, base) && c in s.calls && s.calls[c].at == Leaving
    ensures Inv(s.(calls := s.calls - {c}, holder := s.holder - {s.calls[c].id}), base)
  {
    var mine := s.calls[c].id;
    var s' := s.(calls := s.calls - {c}, holder := s.holder - {mine});
    ReleaseIsLocal(s, c);
    assert SlotOk(s, base, mine);
    if SomePending(s, mine) { StillPending(s, s', c, mine); }
    if SomeRecording(s, mine) { StillRecording(s, s', c, mine); }
    LocalStepKeeps(s, s', base, c, mine);
  }

  lemma {:induction false} ConnectedKeeps(s: Sys, base: Base, step: Step)
    requires Inv(s, base) && Next(s, step).Some? && step.TransportConnected?
    ensures Inv(Next(s, step).value, base)
  {
    if step.error.None? { AtKeeps(s, base, step.call, ListingPanes); }
    else {
      var outcome := Refused(step.error.value);
      FinishKeeps(s, base, step.call, DidConnect(outcome), Recording(outcome));
    }
  }

  lemma {:induction false} ListedStep(s: Sys, c: CallId, listing: Option<Listing>)
    requires Next(s, TransportListed(c, listing)).Some?
    ensures c in s.calls && s.calls[c].id in s.slots
    ensures var at, s' := s.calls[c].at, Next(s, TransportListed(c, listing)).value;
            || (at == ListingPanes && s' == Finish(s, c, DidConnect(Opened(listing)), Recording(Opened(listing))))
            || (at == Refreshing && listing.None? && s' == At(s, c, Leaving))
            || (at == Refreshing && listing.Some? && s' == Finish(s, c, DidRefresh(listing.value), Leaving))
  {}

  lemma {:induction false} ListedKeeps(s: Sys, base: Base, step: Step)
    requires Inv(s, base) && Next(s, step).Some? && step.TransportListed?
    ensures Inv(Next(s, step).value, base)
  {
    var c, listing := step.call, step.listing;
    ListedStep(s, c, listing);
    if s.calls[c].at == ListingPanes {
      FinishKeeps(s, base, c, DidConnect(Opened(listing)), Recording(Opened(listing)));
    } else if listing.None? {
      AtKeeps(s, base, c, Leaving);
    } else {
      FinishKeeps(s, base, c, DidRefresh(listing.value), Leaving);
    }
  }

  lemma {:induction false} ClosedKeeps(s: Sys, base: Base, step: Step)
    requires Inv(s, base) && Next(s, step).Some? && step.TransportClosed?
    ensures Inv(Next(s, step).value, base)
  {
    if step.ok { FinishKeeps(s, base, step.call, DidDisconnect, RecordingClose); }
    else { AtKeeps(s, base, step.call, Leaving); }
  }

  lemma {:induction false} WroteKeeps(s: Sys, base: Base, step: Step)
    requires Inv(s, base) && Next(s, step).Some? && step.WroteOutcome?
    ensures Inv(Next(s, step).value, base)
  {
    assert RecordingOk(s, base, step.call);
    RecordKeeps(s, base, step.call, step.ok);
  }

  lemma {:induction false} StepKeeps(s: Sys, base: Base, step: Step)
    requires Inv(s, base) && Next(s, step).Some?
    ensures Inv(Next(s, step).value, base)
  {
    match step
    case Start(c, kind, id) => StartKeeps(s, base, c, kind, id);
    case WroteConnecting(c, ok) => AnnounceKeeps(s, base, c, ok);
    case GotLock(c) => LockKeeps(s, base, c);
    case TransportConnected(_, _) => ConnectedKeeps(s, base, step);
    case TransportListed(_, _) => ListedKeeps(s, base, step);
    case TransportClosed(_, _) => ClosedKeeps(s, base, step);
    case WroteOutcome(_, _) => WroteKeeps(s, base, step);
    case ReleasedLock(c) => ReleaseKeeps(s, base, c);
  }

  lemma {:induction false} RunKeeps(s: Sys, base: Base, steps: seq<Step>)
    requires Inv(s, base) && RunSteps(s, steps).Some?
    ensures Inv(RunSteps(s, steps).value, base)
    decreases |steps|
  {
    if steps != [] {
      StepKeeps(s, base, steps[0]);
      RunKeeps(Next(s, steps[0]).value, base, steps[1..]);
    }
  }

  // ---------------------------------------------------------------- what every run leaves

  lemma {:induction false} InitialInv(base: Base, routes: map<PaneId, SessionId>)
    ensures Inv(Initial(base, routes), base)
  {}

  /** In every interleaving, once no call is in flight each session is what its calls would have
      left had they run one after the other in the order they held its lock: in memory always, in
      the database whenever the last outcome's write succeeded; and the row is in any case that of
      the last write that did. */
  lemma {:induction false} QuietIsSerial(base: Base, routes: map<PaneId, SessionId>, steps: seq<Step>, id: SessionId)
    requires id in base
    requires var end := RunSteps(Initial(base, routes), steps); end.Some? && end.value.calls == map[]
    ensures var s := RunSteps(Initial(base, routes), steps).value;
            && id in s.slots
            && s.slots[id].mem == Replay(base[id], s.slots[id].log).0
            && (s.slots[id].recorded ==> s.slots[id].db == Replay(base[id], s.slots[id].log).1)
            && s.slots[id].db == Stored(base[id].1, Writes(Initial(base, routes), steps, id))
  {
    StoredRowIsLastWrite(Initial(base, routes), steps, id);
    InitialInv(base, routes);
    RunKeeps(Initial(base, routes), base, steps);
    assert SlotOk(RunSteps(Initial(base, routes), steps).value, base, id);
  }

  // ---------------------------------------------------------------- statuses

  /** The last effect that settles a status; a refresh does not. */
  function LastOutcome(log: seq<Effect>): Option<Effect> {
    if log == [] then None
    else
      var last := log[|log| - 1];
      if last.DidRefresh? then LastOutcome(log[..|log| - 1]) else Some(last)
  }

  function StatusAfter(e: Effect): DbRow
    requires !e.DidRefresh?
  {
    match e
    case DidConnect(Opened(_)) => DbRow(Connected, None)
    case DidConnect(Refused(message)) => DbRow(Error, Some(message))
    case DidDisconnect => DbRow(Disconnected, None)
  }

  lemma {:induction false} ReplaySettles(state: (Meta, DbRow), log: seq<Effect>)
    ensures var (m, row) := Replay(state, log);
            match LastOutcome(log)
            case None => m.status == state.0.status && row == state.1
            case Some(e) => !e.DidRefresh? && row == StatusAfter(e) && m.status == row.status
  {
    if log != [] {
      ReplaySettles(state, log[..|log| - 1]);
    }
  }

  /** Whatever the interleaving, once no call is in flight memory and database agree on the outcome
      of the last connect, or successful disconnect, to hold the lock: a session is never left in
      Connecting.  Only the latest write of this session's outcome needs to have succeeded. */
  lemma {:induction false} NeverLeftConnecting(
      base: Base, routes: map<PaneId, SessionId>, steps: seq<Step>, id: SessionId)
    requires id in base
    requires var end := RunSteps(Initial(base, routes), steps);
             end.Some? && end.value.calls == map[] && (id in end.value.slots ==> end.value.slots[id].recorded)
    ensures var s := RunSteps(Initial(base, routes), steps).value;
            && id in s.slots
            && match LastOutcome(s.slots[id].log)
               case None => s.slots[id].mem.status == base[id].0.status && s.slots[id].db == base[id].1
               case Some(e) =>
                 && !e.DidRefresh? && s.slots[id].db == StatusAfter(e)
                 && s.slots[id].mem.status == s.slots[id].db.status && s.slots[id].db.status != Connecting
  {
    QuietIsSerial(base, routes, steps, id);
    ReplaySettles(base[id], RunSteps(Initial(base, routes), steps).value.slots[id].log);
  }

  // ---------------------------------------------------------------- what memory holds

  /** The last listing a call of the log got; none after a connect that could not list, or a
      disconnect. */
  function LastTrees(log: seq<Effect>, first: Listing): Listing {
    if log == [] then first
    else
      match log[|log| - 1]
      case DidConnect(Opened(Some(listing))) => listing
      case DidConnect(Opened(None)) => []
      case DidConnect(Refused(_)) => LastTrees(log[..|log| - 1], first)
      case DidDisconnect => []
      case DidRefresh(listing) => listing
  }

  /** The message of the last connect, if it was refused. */
  function LastError(log: seq<Effect>, first: Option<string>): Option<string> {
    if log == [] then first
    else
      match log[|log| - 1]
      case DidConnect(Opened(_)) => None
      case DidConnect(Refused(message)) => Some(message)
      case _ => LastError(log[..|log| - 1], first)
  }

  function LastStatus(log: seq<Effect>, first: Status): Status {
    if log == [] then first
    else
      match log[|log| - 1]
      case DidConnect(Opened(_)) => Connected
      case DidConnect(Refused(_)) => Error
      case DidDisconnect => Disconnected
      case DidRefresh(_) => LastStatus(log[..|log| - 1], first)
  }

  lemma {:induction false} ReplayIs(state: (Meta, DbRow), log: seq<Effect>)
    ensures var first := state.0;
            Replay(state, log).0 ==
            Meta(first.name, LastStatus(log, first.status), LastError(log, first.error), LastTrees(log, first.trees))
  {
    if log != [] {
      ReplayIs(state, log[..|log| - 1]);
    }
  }

  /** What the answer in a step does to the session `id`, given where its call is. */
  function EffectOf(s: Sys, step: Step, id: SessionId): seq<Effect> {
    if step.call !in s.calls || s.calls[step.call].id != id then []
    else
      var at := s.calls[step.call].at;
      match step
      case TransportConnected(_, Some(message)) => if at == Opening then [DidConnect(Refused(message))] else []
      case TransportListed(_, listing) =>
        if at == ListingPanes then [DidConnect(Opened(listing))]
        else if at == Refreshing && listing.Some? then [DidRefresh(listing.value)]
        else []
      case TransportClosed(_, ok) => if at == Closing && ok then [DidDisconnect] else []
      case _ => []
  }

  /** The effects on `id` of a run's steps, in their order. */
  function Effects(s: Sys, steps: seq<Step>, id: SessionId): seq<Effect>
    requires RunSteps(s, steps).Some?
    decreases |steps|
  {
    if steps == [] then [] else EffectOf(s, steps[0], id) + Effects(Next(s, steps[0]).value, steps[1..], id)
  }

  lemma {:induction false} StepLogs(s: Sys, step: Step, id: SessionId)
    requires id in s.slots && Next(s, step).Some?
    ensures id in Next(s, step).value.slots
    ensures Next(s, step).value.slots[id].log == s.slots[id].log + EffectOf(s, step, id)
  {
    assert s.slots[id].log + [] == s.slots[id].log;
  }

  lemma {:induction false} LogIsEffects(s: Sys, steps: seq<Step>, id: SessionId)
    requires id in s.slots && RunSteps(s, steps).Some?
    ensures id in RunSteps(s, steps).value.slots
    ensures RunSteps(s, steps).value.slots[id].log == s.slots[id].log + Effects(s, steps, id)
    decreases |steps|
  {
    if steps == [] {
      assert s.slots[id].log + [] == s.slots[id].log;
    } else {
      StepLogs(s, steps[0], id);
      LogIsEffects(Next(s, steps[0]).value, steps[1..], id);
      Associative(s.slots[id].log, EffectOf(s, steps[0], id), Effects(Next(s, steps[0]).value, steps[1..], id));
    }
  }

  /** In every interleaving, once no call is in flight, memory holds the status, error and panes that
      the transports' answers, in their order, leave; whatever the database did. */
  lemma {:induction false} QuietMemoryIs(base: Base, routes: map<PaneId, SessionId>, steps: seq<Step>, id: SessionId)
    requires id in base
    requires var end := RunSteps(Initial(base, routes), steps); end.Some? && end.value.calls == map[]
    ensures var s, first := RunSteps(Initial(base, routes), steps).value, base[id].0;
            && id in s.slots
            && var log := Effects(Initial(base, routes), steps, id);
               s.slots[id].mem ==
               Meta(first.name, LastStatus(log, first.status), LastError(log, first.error), LastTrees(log, first.trees))
  {
    QuietIsSerial(base, routes, steps, id);
    LogIsEffects(Initial(base, routes), steps, id);
    var log := RunSteps(Initial(base, routes), steps).value.slots[id].log;
    assert log == Effects(Initial(base, routes), steps, id);
    ReplayIs(base[id], log);
  }

  /** A connect shows at once: Connecting in memory when it starts, and then in the database. */
  lemma {:induction false} ConnectAnnounces(s: Sys, c: CallId, id: SessionId)
    requires id in s.slots && c !in s.calls
    ensures var s1 := Next(s, Start(c, ConnectCall, id));
            && s1.Some? && id in s1.value.slots && s1.value.slots[id].mem.status == Connecting
            && var s2 := Next(s1.value, WroteConnecting(c, true));
               s2.Some? && id in s2.value.slots && s2.value.slots[id].db == DbRow(Connecting, None)
  {}

  // ---------------------------------------------------------------- the stored row

  /** A write to a session's row that succeeded. */
  datatype Write = Announced | Settled(row: DbRow)

  function WrittenRow(w: Write): DbRow {
    if w.Announced? then DbRow(Connecting, None) else w.row
  }

  function WriteOf(s: Sys, step: Step, id: SessionId): (writes: seq<Write>)
    ensures forall i :: 0 <= i < |writes| && writes[i].Settled? ==> writes[i].row.status != Connecting
  {
    if step.Start? || step.call !in s.calls || s.calls[step.call].id != id then []
    else
      var at := s.calls[step.call].at;
      if step.WroteConnecting? && step.ok then [Announced]
      else if step.WroteOutcome? && step.ok && at.Recording? then [Settled(ConnectRow(at.outcome))]
      else if step.WroteOutcome? && step.ok && at.RecordingClose? then [Settled(DISCONNECT_ROW)]
      else []
  }

  /** The successful writes to the row of `id`, in order. */
  function Writes(s: Sys, steps: seq<Step>, id: SessionId): (writes: seq<Write>)
    requires RunSteps(s, steps).Some?
    ensures forall i :: 0 <= i < |writes| && writes[i].Settled? ==> writes[i].row.status != Connecting
    decreases |steps|
  {
    if steps == [] then [] else WriteOf(s, steps[0], id) + Writes(Next(s, steps[0]).value, steps[1..], id)
  }

  function Stored(row: DbRow, writes: seq<Write>): DbRow {
    if writes == [] then row else WrittenRow(writes[|writes| - 1])
  }

  lemma {:induction false} StepStores(s: Sys, step: Step, id: SessionId)
    requires id in s.slots && Next(s, step).Some?
    ensures id in Next(s, step).value.slots
    ensures Next(s, step).value.slots[id].db == Stored(s.slots[id].db, WriteOf(s, step, id))
  {}

  /** After any steps at all, whoever else is in flight, the stored row is that of the last
      successful write to it. */
  lemma {:induction false} StoredRowIsLastWrite(s: Sys, steps: seq<Step>, id: SessionId)
    requires id in s.slots && RunSteps(s, steps).Some?
    ensures id in RunSteps(s, steps).value.slots
    ensures RunSteps(s, steps).value.slots[id].db == Stored(s.slots[id].db, Writes(s, steps, id))
    decreases |steps|
  {
    if steps != [] {
      StepStores(s, steps[0], id);
      StoredRowIsLastWrite(Next(s, steps[0]).value, steps[1..], id);
    }
  }

  /** The stored status is left Connecting exactly when the last write that succeeded was a
      connect's announcement, or none succeeded and it was so before. */
  lemma {:induction false} LeftConnectingIff(
      base: Base, routes: map<PaneId, SessionId>, steps: seq<Step>, id: SessionId)
    requires id in base && RunSteps(Initial(base, routes), steps).Some?
    ensures var s, writes := RunSteps(Initial(base, routes), steps).value, Writes(Initial(base, routes), steps, id);
            && id in s.slots
            && (s.slots[id].db.status == Connecting <==>
                if writes == [] then base[id].1.status == Connecting else writes[|writes| - 1] == Announced)
  {
    StoredRowIsLastWrite(Initial(base, routes), steps, id);
  }

  // ---------------------------------------------------------------- routes

  /** What a step does to the routes: a connect or refresh that has its listing routes the panes, a
      disconnect drops the session's when it starts. */
  function StepEvent(s: Sys, step: Step): Event {
    if step.Start? then
      if step.kind.DisconnectCall? then Drops(step.id) else Spares
    else if !step.TransportListed? || step.call !in s.calls then Spares
    else
      var call := s.calls[step.call];
      if call.at == ListingPanes then Lists(call.id, PaneIds(Listed(step.listing)))
      else if call.at == Refreshing && step.listing.Some? then Lists(call.id, PaneIds(step.listing.value))
      else Spares
  }

  function RouteHistory(s: Sys, steps: seq<Step>): (events: seq<Event>)
    requires RunSteps(s, steps).Some?
    ensures |events| == |steps|
    decreases |steps|
  {
    if steps == [] then [] else [StepEvent(s, steps[0])] + RouteHistory(Next(s, steps[0]).value, steps[1..])
  }

  /** The history's event at `i` is that of step `i`, in the state the steps before it lead to. */
  lemma {:induction false} EventAt(s: Sys, steps: seq<Step>, i: nat)
    requires RunSteps(s, steps).Some? && i < |steps|
    ensures RunSteps(s, steps[..i]).Some?
    ensures RouteHistory(s, steps)[i] == StepEvent(RunSteps(s, steps[..i]).value, steps[i])
    decreases i
  {
    if i > 0 {
      EventAt(Next(s, steps[0]).value, steps[1..], i - 1);
      assert steps[..i][1..] == steps[1..][..i - 1];
    }
  }

  lemma {:induction false} StepRoutes(s: Sys, step: Step)
    requires Next(s, step).Some?
    ensures Next(s, step).value.routes == Change(s.routes, StepEvent(s, step))
  {}

  lemma {:induction false} RunRoutes(s: Sys, steps: seq<Step>)
    requires RunSteps(s, steps).Some?
    ensures RunSteps(s, steps).value.routes == Index(s.routes, RouteHistory(s, steps))
    decreases |steps|
  {
    if steps != [] {
      StepRoutes(s, steps[0]);
      RunRoutes(Next(s, steps[0]).value, steps[1..]);
      IndexCons(s.routes, StepEvent(s, steps[0]), RouteHistory(Next(s, steps[0]).value, steps[1..]));
    }
  }

  /** In every interleaving and at every point of it a pane is routed to a session if and only if the
      last step to list the pane was of that session's and no disconnect of it has started since. */
  lemma {:induction false} RoutesFollowSteps(
      base: Base, routes: map<PaneId, SessionId>, steps: seq<Step>, id: SessionId, pane: PaneId)
    requires RunSteps(Initial(base, routes), steps).Some?
    ensures IsRouted(RunSteps(Initial(base, routes), steps).value.routes, pane, id) <==>
            Owns(routes, RouteHistory(Initial(base, routes), steps), id, pane)
  {
    RunRoutes(Initial(base, routes), steps);
    IndexFollowsHistory(routes, RouteHistory(Initial(base, routes), steps), id, pane);
  }

  /** Once a disconnect has started, the session has exactly the routes that steps of its own have
      listed since and nothing has displaced: those a connect or refresh lists behind its back. */
  lemma {:induction false} RoutesOutliveDisconnectIff(
      base: Base, routes: map<PaneId, SessionId>, steps: seq<Step>, k: nat, id: SessionId, pane: PaneId)
    requires RunSteps(Initial(base, routes), steps).Some?
    requires k < |steps| && steps[k].Start? && steps[k].kind.DisconnectCall? && steps[k].id == id
    ensures IsRouted(RunSteps(Initial(base, routes), steps).value.routes, pane, id) <==>
            exists i :: k < i < |steps| && Stands(RouteHistory(Initial(base, routes), steps), i, id, pane)
  {
    RunRoutes(Initial(base, routes), steps);
    EventAt(Initial(base, routes), steps, k);
    OwnsSinceDrop(routes, RouteHistory(Initial(base, routes), steps), k, id, pane);
  }

  // ---------------------------------------------------------------- no call is stuck

  /** The step is what a call at `p` waits for, whatever the answer in it. */
  predicate Awaits(p: Point, step: Step) {
    match p
    case Announcing => step.WroteConnecting?
    case ConnectWaiting => step.GotLock?
    case Opening => step.TransportConnected?
    case ListingPanes => step.TransportListed?
    case Recording(_) => step.WroteOutcome?
    case DisconnectWaiting => step.GotLock?
    case Closing => step.TransportClosed?
    case RecordingClose => step.WroteOutcome?
    case RefreshWaiting => step.GotLock?
    case Refreshing => step.TransportListed?
    case Leaving => step.ReleasedLock?
  }

  /** The most steps a call at `p` can still take. */
  function StepsLeft(p: Point): nat {
    if p.Announcing? then 6
    else if IsWaiting(p) then 5
    else if p.Opening? then 4
    else if p.ListingPanes? || p.Closing? || p.Refreshing? then 3
    else if IsRecording(p) then 2
    else 1
  }

  ghost function Work(calls: map<CallId, Call>): nat
    decreases |calls|
  {
    if calls == map[] then 0
    else
      var c :| c in calls;
      FewerCalls(calls, c);
      StepsLeft(calls[c].at) + Work(calls - {c})
  }

  lemma {:induction false} FewerCalls(calls: map<CallId, Call>, c: CallId)
    requires c in calls
    ensures |calls - {c}| < |calls|
  {
    assert (calls - {c}).Keys == calls.Keys - {c} && c in calls.Keys;
  }

  lemma {:induction false} WorkWithout(calls: map<CallId, Call>, c: CallId)
    requires c in calls
    ensures Work(calls) == StepsLeft(calls[c].at) + Work(calls - {c})
    decreases |calls|
  {
    var d :| d in calls && Work(calls) == StepsLeft(calls[d].at) + Work(calls - {d});
    if d != c {
      FewerCalls(calls, d);
      FewerCalls(calls, c);
      WorkWithout(calls - {d}, c);
      WorkWithout(calls - {c}, d);
      assert calls - {d} - {c} == calls - {c} - {d};
    }
  }

  predicate CanMove(s: Sys, c: CallId) {
    c in s.calls && (HasLock(s.calls[c].at) || s.calls[c].id !in s.holder)
  }

  /** Whatever its environment answers, the call's next step is possible. */
  ghost predicate GoesOn(s: Sys, c: CallId) {
    c in s.calls && forall step: Step :: step.call == c && Awaits(s.calls[c].at, step) ==> Next(s, step).Some?
  }

  lemma {:induction false} MovableGoesOn(s: Sys, c: CallId)
    requires CanMove(s, c) && CallsKnown(s)
    ensures GoesOn(s, c)
  {}

  lemma {:induction false} SomeCallGoesOn(s: Sys, base: Base) returns (c: CallId)
    requires Inv(s, base) && s.calls != map[]
    ensures GoesOn(s, c)
  {
    c :| c in s.calls;
    if !CanMove(s, c) { c := s.holder[s.calls[c].id]; }
    MovableGoesOn(s, c);
  }

  lemma {:induction false} StepMovesOneCall(s: Sys, step: Step)
    requires Next(s, step).Some? && !step.Start?
    ensures var c, calls := step.call, Next(s, step).value.calls;
            && c in s.calls && calls - {c} == s.calls - {c}
            && (c in calls ==> StepsLeft(calls[c].at) < StepsLeft(s.calls[c].at))
  {
    var c, calls := step.call, Next(s, step).value.calls;
    assert c in calls ==> calls == s.calls[c := calls[c]];
    assert c !in calls ==> calls == s.calls - {c};
  }

  lemma {:induction false} StepLowersWork(s: Sys, step: Step)
    requires Next(s, step).Some? && !step.Start?
    ensures Work(Next(s, step).value.calls) < Work(s.calls)
  {
    var c, calls := step.call, Next(s, step).value.calls;
    StepMovesOneCall(s, step);
    WorkWithout(s.calls, c);
    if c in calls { WorkWithout(calls, c); } else { assert calls - {c} == calls; }
  }

  predicate StartsNothing(steps: seq<Step>) {
    forall i :: 0 <= i < |steps| ==> !steps[i].Start?
  }

  lemma {:induction false} RunLowersWork(s: Sys, steps: seq<Step>)
    requires RunSteps(s, steps).Some? && StartsNothing(steps)
    ensures |steps| + Work(RunSteps(s, steps).value.calls) <= Work(s.calls)
    decreases |steps|
  {
    if steps != [] {
      StepLowersWork(s, steps[0]);
      RunLowersWork(Next(s, steps[0]).value, steps[1..]);
    }
  }

  lemma {:induction false} RunCons(s: Sys, step: Step, steps: seq<Step>)
    requires Next(s, step).Some?
    ensures RunSteps(s, [step] + steps) == RunSteps(Next(s, step).value, steps)
  {
    assert ([step] + steps)[1..] == steps;
  }

  lemma {:induction false} RunAppend(s: Sys, a: seq<Step>, b: seq<Step>)
    requires RunSteps(s, a).Some?
    ensures RunSteps(s, a + b) == RunSteps(RunSteps(s, a).value, b)
    decreases |a|
  {
    if a == [] {
      assert a + b == b;
    } else {
      assert (a + b)[1..] == a[1..] + b;
      RunAppend(Next(s, a[0]).value, a[1..], b);
    }
  }

  /** However far an interleaving has gone, and whatever transports and database answer from there
      on, without new calls it takes a bounded number of steps, and as long as a call is in flight
      one can go on: no mix of calls deadlocks on the locks, and every run ends quiet. */
  lemma {:induction false} EveryRunQuiesces(
      base: Base, routes: map<PaneId, SessionId>, soFar: seq<Step>, more: seq<Step>)
    requires RunSteps(Initial(base, routes), soFar).Some? && StartsNothing(more)
    requires RunSteps(RunSteps(Initial(base, routes), soFar).value, more).Some?
    ensures var mid := RunSteps(Initial(base, routes), soFar).value;
            var end := RunSteps(mid, more).value;
            && |more| <= Work(mid.calls)
            && (end.calls != map[] ==> exists c :: GoesOn(end, c))
  {
    var mid := RunSteps(Initial(base, routes), soFar).value;
    InitialInv(base, routes);
    RunKeeps(Initial(base, routes), base, soFar);
    RunKeeps(mid, base, more);
    RunLowersWork(mid, more);
    if RunSteps(mid, more).value.calls != map[] {
      var c := SomeCallGoesOn(RunSteps(mid, more).value, base);
    }
  }

  /** An environment: what it answers to a call in a state. */
  ghost predicate IsEnvironment(answer: (Sys, CallId) -> Step) {
    forall s: Sys, c: CallId :: c in s.calls ==> answer(s, c).call == c && Awaits(s.calls[c].at, answer(s, c))
  }

  lemma {:induction false} AllCallsFinish(s: Sys, base: Base, answer: (Sys, CallId) -> Step) returns (steps: seq<Step>)
    requires Inv(s, base) && IsEnvironment(answer)
    ensures RunSteps(s, steps).Some? && RunSteps(s, steps).value.calls == map[]
    decreases Work(s.calls)
  {
    steps := [];
    if s.calls != map[] {
      var c := SomeCallGoesOn(s, base);
      var step := answer(s, c);
      AwaitedIsNoStart(s.calls[c].at, step);
      StepKeeps(s, base, step);
      StepLowersWork(s, step);
      var rest := AllCallsFinish(Next(s, step).value, base, answer);
      RunCons(s, step, rest);
      steps := [step] + rest;
    }
  }

  lemma {:induction false} AwaitedIsNoStart(p: Point, step: Step)
    requires Awaits(p, step)
    ensures !step.Start?
  {}

  /** From every point of every interleaving, under every environment, the calls in flight can be
      scheduled to their ends. */
  lemma {:induction false} EveryRunCanQuiesce(
      base: Base, routes: map<PaneId, SessionId>, soFar: seq<Step>, answer: (Sys, CallId) -> Step)
    returns (more: seq<Step>)
    requires RunSteps(Initial(base, routes), soFar).Some? && IsEnvironment(answer)
    ensures var end := RunSteps(Initial(base, routes), soFar + more); end.Some? && end.value.calls == map[]
  {
    InitialInv(base, routes);
    RunKeeps(Initial(base, routes), base, soFar);
    more := AllCallsFinish(RunSteps(Initial(base, routes), soFar).value, base, answer);
    RunAppend(Initial(base, routes), soFar, more);
  }

  // ---------------------------------------------------------------- what is not promised

  /** If the last outcome cannot be written, the stored status can stay Connecting for good. */
  lemma {:induction false} FailedWriteLeavesConnecting(id: SessionId, meta: Meta, row: DbRow) returns (steps: seq<Step>)
    ensures var end := RunSteps(Initial(map[id := (meta, row)], map[]), steps);
            && end.Some? && end.value.calls == map[]
            && id in end.value.slots
            && end.value.slots[id].mem.status == Error && end.value.slots[id].db.status == Connecting
  {
    var s0 := Initial(map[id := (meta, row)], map[]);
    var t1, t2, t3 := Start(1, ConnectCall, id), WroteConnecting(1, true), GotLock(1);
    var s1 := Next(s0, t1).value;
    var s2 := Next(s1, t2).value;
    var s3 := Next(s2, t3).value;
    var tail := RefusedUnrecorded(s3, id, 1);
    RunThree(s0, t1, t2, t3, tail);
    steps := [t1] + ([t2] + ([t3] + tail));
  }

  lemma {:induction false} RunThree(s: Sys, t1: Step, t2: Step, t3: Step, rest: seq<Step>)
    requires var s1 := Next(s, t1);
             s1.Some? && var s2 := Next(s1.value, t2); s2.Some? && Next(s2.value, t3).Some?
    ensures RunSteps(s, [t1] + ([t2] + ([t3] + rest))) ==
            RunSteps(Next(Next(Next(s, t1).value, t2).value, t3).value, rest)
  {
    var s1 := Next(s, t1).value;
    var s2 := Next(s1, t2).value;
    RunCons(s2, t3, rest);
    RunCons(s1, t2, [t3] + rest);
    RunCons(s, t1, [t2] + ([t3] + rest));
  }

  lemma {:induction false} RefusedUnrecorded(s: Sys, id: SessionId, c: CallId) returns (steps: seq<Step>)
    requires s.calls == map[c := Call(id, Opening)]
    requires id in s.slots
    ensures var end := RunSteps(s, steps);
            && end.Some? && end.value.calls == map[] && id in end.value.slots
            && end.value.slots[id].db == s.slots[id].db && end.value.slots[id].mem.status == Error
  {
    var t1, t2, t3 := TransportConnected(c, Some("refused")), WroteOutcome(c, false), ReleasedLock(c);
    var s1 := Next(s, t1).value;
    var s2 := Next(s1, t2).value;
    RunThree(s, t1, t2, t3, []);
    steps := [t1] + ([t2] + ([t3] + []));
  }

  /** A disconnect drops routes before it has the lock, so a refresh already holding the lock can
      put them back: the session ends Disconnected with its panes still routed to it. */
  lemma {:induction false} RefreshCanRestoreRoutes(
      id: SessionId, meta: Meta, row: DbRow, listing: Listing, pane: PaneId)
    returns (steps: seq<Step>)
    requires pane in PaneIds(listing)
    ensures var end := RunSteps(Initial(map[id := (meta, row)], map[]), steps);
            && end.Some? && end.value.calls == map[] && id in end.value.slots
            && end.value.slots[id].mem.status == Status.Disconnected
            && pane in end.value.routes && end.value.routes[pane] == id
  {
    var s0 := Initial(map[id := (meta, row)], map[]);
    var t1, t2, t3 := Start(1, RefreshCall, id), GotLock(1), Start(2, DisconnectCall, id);
    var s1 := Next(s0, t1).value;
    var s2 := Next(s1, t2).value;
    var s3 := Next(s2, t3).value;
    var tail := RefreshThenDisconnect(s3, id, 1, 2, listing);
    RunThree(s0, t1, t2, t3, tail);
    steps := [t1] + ([t2] + ([t3] + tail));
  }

  lemma {:induction false} RefreshThenDisconnect(s: Sys, id: SessionId, c: CallId, d: CallId, listing: Listing)
    returns (steps: seq<Step>)
    requires c != d && s.calls == map[c := Call(id, Refreshing), d := Call(id, DisconnectWaiting)]
    requires id in s.slots
    ensures var end := RunSteps(s, steps);
            && end.Some? && end.value.calls == map[] && id in end.value.slots
            && end.value.slots[id].mem.status == Status.Disconnected
            && end.value.routes == Route(s.routes, PaneIds(listing), id)
  {
    var t1, t2, t3 := TransportListed(c, Some(listing)), ReleasedLock(c), GotLock(d);
    RefreshLeaves(s, id, c, d, listing);
    var s2 := Next(Next(s, t1).value, t2).value;
    var s3 := Next(s2, t3).value;
    var tail := CloseRecordLeave(s3, id, d);
    RunThree(s, t1, t2, t3, tail);
    steps := [t1] + ([t2] + ([t3] + tail));
  }

  lemma {:induction false} RefreshLeaves(s: Sys, id: SessionId, c: CallId, d: CallId, listing: Listing)
    requires c != d && s.calls == map[c := Call(id, Refreshing), d := Call(id, DisconnectWaiting)]
    requires id in s.slots
    ensures var s1 := Next(s, TransportListed(c, Some(listing)));
            && s1.Some?
            && var s2 := Next(s1.value, ReleasedLock(c));
            && s2.Some? && s2.value.calls == map[d := Call(id, DisconnectWaiting)]
            && id in s2.value.slots && id !in s2.value.holder
            && s2.value.routes == Route(s.routes, PaneIds(listing), id)
  {}

  lemma {:induction false} CloseRecordLeave(s: Sys, id: SessionId, c: CallId) returns (steps: seq<Step>)
    requires s.calls == map[c := Call(id, Closing)] && id in s.slots
    ensures var end := RunSteps(s, steps);
            && end.Some? && end.value.calls == map[] && id in end.value.slots
            && end.value.slots[id].mem.status == Status.Disconnected && end.value.routes == s.routes
  {
    var t1, t2, t3 := TransportClosed(c, true), WroteOutcome(c, true), ReleasedLock(c);
    var s1 := Next(s, t1).value;
    var s2 := Next(s1, t2).value;
    RunThree(s, t1, t2, t3, []);
    steps := [t1] + ([t2] + ([t3] + []));
  }
}
