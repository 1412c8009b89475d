/**
 The client's registry of terminals: one per pane, shared by the components that show the pane.
 When the last of them goes a timer is set, and when that fires the terminal is disposed unless it
 is shown again.  A timer set on an earlier occasion may fire first and do the same.
 */
module TerminalRegistry {

  type PaneId = string
  type ComponentId = nat
  type TimerId = nat

  /** `terminal` identifies the terminal instance; `observing` says a resize observer is live. */
  datatype Entry = Entry(terminal: nat, refCount: int, observing: bool)

  datatype Registry = Registry(
    entries: map<PaneId, Entry>,
    handlers: set<PaneId>,         // panes with an output handler in the store
    timers: map<TimerId, PaneId>,  // pending disposal timers
    terminals: nat,                // terminals ever made
    timersEver: nat)               // timers ever set

  const EMPTY := Registry(map[], {}, map[], 0, 0)

  // ---------------------------------------------------------------- the three actions

  function Mounted(r: Registry, pane: PaneId): Registry {
    if pane == "" then r
    else if pane in r.entries then
      r.(entries := r.entries[pane := r.entries[pane].(refCount := r.entries[pane].refCount + 1, observing := true)])
    else
      r.(entries := r.entries[pane := Entry(r.terminals, 1, true)],
         handlers := r.handlers + {pane},
         terminals := r.terminals + 1)
  }

  function Detached(r: Registry, pane: PaneId): Registry {
    if pane == "" || pane !in r.entries then r
    else
      var e := r.entries[pane];
      if e.refCount - 1 > 0 then r.(entries := r.entries[pane := e.(refCount := e.refCount - 1)])
      else
        r.(entries := r.entries[pane := e.(refCount := e.refCount - 1, observing := false)],
           timers := r.timers[r.timersEver := pane],
           timersEver := r.timersEver + 1)
  }

  function Fired(r: Registry, t: TimerId): Registry {
    if t !in r.timers then r
    else
      var pane := r.timers[t];
      var r := r.(timers := r.timers - {t});
      if pane in r.entries && r.entries[pane].refCount <= 0
      then r.(entries := r.entries - {pane}, handlers := r.handlers - {pane})
      else r
  }

  class TerminalStore {
    var entries: map<PaneId, Entry>
    var handlers: set<PaneId>
    var timers: map<TimerId, PaneId>
    var terminals: nat
    var timersEver: nat

    constructor ()
      ensures State() == EMPTY
    {
      entries, handlers, timers, terminals, timersEver := map[], {}, map[], 0, 0;
    }

    ghost function State(): Registry
      reads this
    {
      Registry(entries, handlers, timers, terminals, timersEver)
    }

    /** Without a container the component's mount does nothing. */
    method Mount(pane: PaneId, hasContainer: bool)
      modifies this
      ensures State() == if hasContainer then Mounted(old(State()), pane) else old(State())
    {
      if !hasContainer || pane == "" { return; }
      if pane in entries {
        var existing := entries[pane];
        existing := existing.(refCount := existing.refCount + 1);
        existing := existing.(observing := false);  // the old observer is disconnected ...
        existing := existing.(observing := true);   // ... and a new one observes the new container
        entries := entries[pane := existing];
        return;
      }
      var terminal := terminals;
      terminals := terminals + 1;
      handlers := handlers + {pane};
      entries := entries[pane := Entry(terminal, 1, true)];
    }

    method Detach(pane: PaneId)
      modifies this
      ensures State() == Detached(old(State()), pane)
    {
      if pane == "" { return; }
      if pane in entries {
        var entry := entries[pane];
        entry := entry.(refCount := entry.refCount - 1);
        if entry.refCount <= 0 {
          entry := entry.(observing := false);
        }
        entries := entries[pane := entry];
        if entry.refCount <= 0 {
          timers := timers[timersEver := pane];
          timersEver := timersEver + 1;
        }
      }
    }

    method FireTimer(t: TimerId)
      modifies this
      ensures State() == Fired(old(State()), t)
    {
      if t !in timers { return; }
      var pane := timers[t];
      timers := timers - {t};
      if pane in entries && entries[pane].refCount <= 0 {
        DisposeEntry(pane);
      }
    }

    method DisposeEntry(pane: PaneId)
      modifies this
      ensures State() == old(State()).(
        entries := old(entries) - {pane},
        handlers := if pane in old(entries) then old(handlers) - {pane} else old(handlers))
    {
      if pane !in entries {
        assert entries - {pane} == entries;
        return;
      }
      handlers := handlers - {pane};  // unsubscribePane
      entries := entries - {pane};
    }
  }

  // ---------------------------------------------------------------- runs

  datatype Action =
    | Mount(component: ComponentId, pane: PaneId)
    | Detach(component: ComponentId)
    | DetachUnmounted(component: ComponentId, pane: PaneId)  // a component whose mount was skipped
    | Fire(timer: TimerId)

  /** The registry, the components now attached with their panes, and those that have left. */
  datatype Page = Page(registry: Registry, attached: map<ComponentId, PaneId>, gone: set<ComponentId>)

  /** Each component mounts at most once and detaches once. */
  predicate IsPossible(s: Page, a: Action) {
    match a
    case Mount(c, pane) => pane != "" && c !in s.attached && c !in s.gone
    case Detach(c) => c in s.attached
    case DetachUnmounted(c, _) => c !in s.attached && c !in s.gone
    case Fire(t) => t in s.registry.timers
  }

  function Act(s: Page, a: Action): Page
    requires IsPossible(s, a)
  {
    match a
    case Mount(c, pane) => s.(registry := Mounted(s.registry, pane), attached := s.attached[c := pane])
    case Detach(c) =>
      Page(Detached(s.registry, s.attached[c]), s.attached - {c}, s.gone + {c})
    case DetachUnmounted(c, pane) => s.(registry := Detached(s.registry, pane), gone := s.gone + {c})
    case Fire(t) => s.(registry := Fired(s.registry, t))
  }

  predicate IsRun(s: Page, actions: seq<Action>)
    decreases |actions|
  {
    actions == [] || (IsPossible(s, actions[0]) && IsRun(Act(s, actions[0]), actions[1..]))
  }

  function After(s: Page, actions: seq<Action>): Page
    requires IsRun(s, actions)
    decreases |actions|
  {
    if actions == [] then s else After(Act(s, actions[0]), actions[1..])
  }

  const START := Page(EMPTY, map[], {})

  /** The detach of an unmounted component that finds an entry for its pane, and counts it down. */
  predicate IsStray(s: Page, a: Action, pane: PaneId) {
    a.DetachUnmounted? && a.pane == pane && pane in s.registry.entries
  }

  predicate NoStray(s: Page, actions: seq<Action>, pane: PaneId)
    requires IsRun(s, actions)
    decreases |actions|
  {
    actions == [] || (!IsStray(s, actions[0], pane) && NoStray(Act(s, actions[0]), actions[1..], pane))
  }

  // ---------------------------------------------------------------- counts

  function Viewers(attached: map<ComponentId, PaneId>, pane: PaneId): set<ComponentId> {
    set c | c in attached && attached[c] == pane
  }

  predicate HasTimer(r: Registry, pane: PaneId) {
    exists t :: t in r.timers && r.timers[t] == pane
  }

  /** The entry counts exactly the components attached to its pane; without one there are none. */
  predicate IsExact(s: Page, pane: PaneId) {
    if pane in s.registry.entries then s.registry.entries[pane].refCount == |Viewers(s.attached, pane)|
    else Viewers(s.attached, pane) == {}
  }

  predicate StaysExact(s: Page, actions: seq<Action>, pane: PaneId)
    requires IsRun(s, actions)
    decreases |actions|
  {
    IsExact(s, pane) && (actions == [] || StaysExact(Act(s, actions[0]), actions[1..], pane))
  }

  /** The observer is live exactly while the count says somebody looks. */
  predicate ObserverOk(s: Page, pane: PaneId) {
    pane in s.registry.entries ==> (s.registry.entries[pane].observing <==> s.registry.entries[pane].refCount > 0)
  }

  lemma {:induction false} ViewersAfterMount(
      attached: map<ComponentId, PaneId>, c: ComponentId, pane: PaneId, other: PaneId)
    requires c !in attached
    ensures |Viewers(attached[c := pane], other)| == |Viewers(attached, other)| + if other == pane then 1 else 0
  {
    assert Viewers(attached[c := pane], other) == Viewers(attached, other) + if other == pane then {c} else {};
  }

  lemma {:induction false} ViewersAfterDetach(attached: map<ComponentId, PaneId>, c: ComponentId, other: PaneId)
    requires c in attached
    ensures |Viewers(attached - {c}, other)| == |Viewers(attached, other)| - if other == attached[c] then 1 else 0
  {
    assert Viewers(attached - {c}, other) == Viewers(attached, other) - if other == attached[c] then {c} else {};
    assert other == attached[c] ==> c in Viewers(attached, other);
  }

  lemma {:induction false} ViewersAfter(s: Page, a: Action, pane: PaneId)
    requires IsPossible(s, a)
    ensures |Viewers(Act(s, a).attached, pane)| ==
            |Viewers(s.attached, pane)| + (if a.Mount? && a.pane == pane then 1 else 0)
                                        - (if a.Detach? && s.attached[a.component] == pane then 1 else 0)
  {
    match a
    case Mount(c, p) => ViewersAfterMount(s.attached, c, p, pane);
    case Detach(c) => ViewersAfterDetach(s.attached, c, pane);
    case _ =>
  }

  /** One action keeps a pane's count exact if and only if it is no stray detach. */
  lemma {:induction false} ActionKeepsExactIff(s: Page, a: Action, pane: PaneId)
    requires IsPossible(s, a) && IsExact(s, pane) && ObserverOk(s, pane)
    requires pane != ""
    ensures IsExact(Act(s, a), pane) <==> !IsStray(s, a, pane)
    ensures !IsStray(s, a, pane) ==> ObserverOk(Act(s, a), pane)
  {
    ViewersAfter(s, a, pane);
  }

  /** For every run: a pane's count is exact after each of its prefixes if and only if no component
      that never mounted detaches from the pane while it has an entry. */
  lemma {:induction false} ExactIffNoStray(s: Page, actions: seq<Action>, pane: PaneId)
    requires pane != "" && IsRun(s, actions) && IsExact(s, pane) && ObserverOk(s, pane)
    ensures StaysExact(s, actions, pane) <==> NoStray(s, actions, pane)
    decreases |actions|
  {
    if actions != [] {
      ActionKeepsExactIff(s, actions[0], pane);
      if !IsStray(s, actions[0], pane) {
        ExactIffNoStray(Act(s, actions[0]), actions[1..], pane);
      }
    }
  }

  lemma {:induction false} NoStrayKeepsExact(s: Page, actions: seq<Action>, pane: PaneId)
    requires pane != "" && IsRun(s, actions) && IsExact(s, pane) && ObserverOk(s, pane) && NoStray(s, actions, pane)
    ensures IsExact(After(s, actions), pane) && ObserverOk(After(s, actions), pane)
    decreases |actions|
  {
    if actions != [] {
      ActionKeepsExactIff(s, actions[0], pane);
      NoStrayKeepsExact(Act(s, actions[0]), actions[1..], pane);
    }
  }

  // ---------------------------------------------------------------- what every run keeps

  /** Stray detaches or not: a count is never too high, and at zero or below a timer is pending. */
  predicate EntryOk(s: Page, pane: PaneId)
    requires pane in s.registry.entries
  {
    var count := s.registry.entries[pane].refCount;
    count <= |Viewers(s.attached, pane)| && (count <= 0 ==> HasTimer(s.registry, pane))
  }

  predicate Inv(s: Page) {
    && (forall pane :: pane in s.registry.entries ==> pane != "" && EntryOk(s, pane))
    && (forall pane :: pane in s.registry.entries ==> s.registry.entries[pane].terminal < s.registry.terminals)
    && s.registry.handlers == s.registry.entries.Keys
    && (forall t :: t in s.registry.timers ==> t < s.registry.timersEver)
  }

  /** The pending timers of a pane other than the one that fires stay pending. */
  lemma {:induction false} TimersStay(s: Page, a: Action, pane: PaneId)
    requires Inv(s) && IsPossible(s, a) && HasTimer(s.registry, pane)
    requires a.Fire? ==> s.registry.timers[a.timer] != pane
    ensures HasTimer(Act(s, a).registry, pane)
  {
    var t :| t in s.registry.timers && s.registry.timers[t] == pane;
    assert t in Act(s, a).registry.timers && Act(s, a).registry.timers[t] == pane;
  }

  lemma {:induction false} DetachSetsTimer(r: Registry, pane: PaneId)
    requires pane != "" && pane in r.entries && r.entries[pane].refCount <= 1
    ensures HasTimer(Detached(r, pane), pane)
  {
    assert Detached(r, pane).timers[r.timersEver] == pane;
  }

  lemma {:induction false} ActionKeepsEntry(s: Page, a: Action, pane: PaneId)
    requires Inv(s) && IsPossible(s, a) && pane in Act(s, a).registry.entries
    ensures pane != "" && EntryOk(Act(s, a), pane)
  {
    ViewersAfter(s, a, pane);
    if pane in s.registry.entries {
      assert EntryOk(s, pane);
      var count, next := s.registry.entries[pane].refCount, Act(s, a).registry.entries[pane].refCount;
      if next < count {
        if next <= 0 { DetachSetsTimer(s.registry, pane); }
      } else if next <= 0 {
        TimersStay(s, a, pane);
      }
    }
  }

  lemma {:induction false} ActionKeeps(s: Page, a: Action)
    requires Inv(s) && IsPossible(s, a)
    ensures Inv(Act(s, a))
  {
    forall pane | pane in Act(s, a).registry.entries ensures pane != "" && EntryOk(Act(s, a), pane) {
      ActionKeepsEntry(s, a, pane);
    }
  }

  lemma {:induction false} RunKeeps(s: Page, actions: seq<Action>)
    requires Inv(s) && IsRun(s, actions)
    ensures Inv(After(s, actions))
    decreases |actions|
  {
    if actions != [] {
      ActionKeeps(s, actions[0]);
      RunKeeps(Act(s, actions[0]), actions[1..]);
    }
  }

  /** In every run a count is exact throughout if and only if no stray detach finds the entry; it is
      never too high, and an entry whose count says nobody looks has a disposal timer pending. */
  lemma {:induction false} CountsAreExactIff(actions: seq<Action>, pane: PaneId)
    requires pane != "" && IsRun(START, actions)
    ensures StaysExact(START, actions, pane) <==> NoStray(START, actions, pane)
    ensures NoStray(START, actions, pane) ==>
              IsExact(After(START, actions), pane) && ObserverOk(After(START, actions), pane)
    ensures var s := After(START, actions);
            pane in s.registry.entries ==>
              && s.registry.entries[pane].refCount <= |Viewers(s.attached, pane)|
              && (s.registry.entries[pane].refCount <= 0 ==> HasTimer(s.registry, pane))
  {
    ExactIffNoStray(START, actions, pane);
    if NoStray(START, actions, pane) { NoStrayKeepsExact(START, actions, pane); }
    RunKeeps(START, actions);
    if pane in After(START, actions).registry.entries { assert EntryOk(After(START, actions), pane); }
  }

  // ---------------------------------------------------------------- shown terminals

  /** Stray detaches from the pane's present entry, if it has one. */
  function StraysAfter(s: Page, a: Action, pane: PaneId, strays: nat): nat
    requires IsPossible(s, a)
  {
    if pane !in Act(s, a).registry.entries then 0 else if IsStray(s, a, pane) then strays + 1 else strays
  }

  function Strays(s: Page, actions: seq<Action>, pane: PaneId, strays: nat): nat
    requires IsRun(s, actions)
    decreases |actions|
  {
    if actions == [] then strays
    else Strays(Act(s, actions[0]), actions[1..], pane, StraysAfter(s, actions[0], pane, strays))
  }

  /** A timer of the pane fires while components show it. */
  predicate FiresOnShown(s: Page, a: Action, pane: PaneId) {
    && a.Fire? && a.timer in s.registry.timers && s.registry.timers[a.timer] == pane
    && Viewers(s.attached, pane) != {}
  }

  /** Whenever a timer of the pane fires while components show it, they outnumber the stray detaches
      from its entry. */
  predicate FiresSafely(s: Page, actions: seq<Action>, pane: PaneId, strays: nat)
    requires IsRun(s, actions)
    decreases |actions|
  {
    actions == [] ||
    var a := actions[0];
    && (FiresOnShown(s, a, pane) ==> |Viewers(s.attached, pane)| > strays)
    && FiresSafely(Act(s, a), actions[1..], pane, StraysAfter(s, a, pane, strays))
  }

  /** The action disposes a terminal that a component shows. */
  predicate TakesShown(s: Page, a: Action, pane: PaneId)
    requires IsPossible(s, a)
  {
    pane in s.registry.entries && pane !in Act(s, a).registry.entries && Viewers(s.attached, pane) != {}
  }

  predicate NothingShownIsTaken(s: Page, actions: seq<Action>, pane: PaneId)
    requires IsRun(s, actions)
    decreases |actions|
  {
    actions == [] ||
    (!TakesShown(s, actions[0], pane) && NothingShownIsTaken(Act(s, actions[0]), actions[1..], pane))
  }

  /** The entry counts its components less the strays; without one there are neither. */
  predicate CountIs(s: Page, pane: PaneId, strays: nat) {
    if pane in s.registry.entries then s.registry.entries[pane].refCount == |Viewers(s.attached, pane)| - strays
    else Viewers(s.attached, pane) == {} && strays == 0
  }

  lemma {:induction false} ActionCounts(s: Page, a: Action, pane: PaneId, strays: nat)
    requires pane != "" && IsPossible(s, a) && CountIs(s, pane, strays)
    ensures TakesShown(s, a, pane) <==> FiresOnShown(s, a, pane) && |Viewers(s.attached, pane)| <= strays
    ensures !TakesShown(s, a, pane) ==> CountIs(Act(s, a), pane, StraysAfter(s, a, pane, strays))
  {
    ViewersAfter(s, a, pane);
  }

  /** In every run, from any page whose count is known: no terminal of the pane is disposed while a
      component shows it if and only if its timers fire safely. */
  lemma {:induction false} ShownIsKeptIff(s: Page, actions: seq<Action>, pane: PaneId, strays: nat)
    requires pane != "" && IsRun(s, actions) && CountIs(s, pane, strays)
    ensures NothingShownIsTaken(s, actions, pane) <==> FiresSafely(s, actions, pane, strays)
    ensures FiresSafely(s, actions, pane, strays) ==> CountIs(After(s, actions), pane, Strays(s, actions, pane, strays))
    decreases |actions|
  {
    if actions != [] {
      var a := actions[0];
      ActionCounts(s, a, pane, strays);
      if !TakesShown(s, a, pane) {
        ShownIsKeptIff(Act(s, a), actions[1..], pane, StraysAfter(s, a, pane, strays));
      }
    }
  }

  lemma {:induction false} ShownTerminalsAreKeptIff(actions: seq<Action>, pane: PaneId)
    requires pane != "" && IsRun(START, actions)
    ensures NothingShownIsTaken(START, actions, pane) <==> FiresSafely(START, actions, pane, 0)
    ensures FiresSafely(START, actions, pane, 0) ==>
              CountIs(After(START, actions), pane, Strays(START, actions, pane, 0))
  {
    ShownIsKeptIff(START, actions, pane, 0);
  }

  /** The pane has the terminal made as number `id`. */
  predicate HasTerminal(s: Page, pane: PaneId, id: nat) {
    pane in s.registry.entries && s.registry.entries[pane].terminal == id
  }

  lemma {:induction false} StepStaysGone(s: Page, a: Action, pane: PaneId, id: nat)
    requires IsPossible(s, a) && !HasTerminal(s, pane, id) && id < s.registry.terminals
    ensures !HasTerminal(Act(s, a), pane, id) && id < Act(s, a).registry.terminals
  {}

  /** A terminal once gone never comes back. */
  lemma {:induction false} GoneForGood(s: Page, actions: seq<Action>, pane: PaneId, id: nat)
    requires IsRun(s, actions) && !HasTerminal(s, pane, id) && id < s.registry.terminals
    ensures !HasTerminal(After(s, actions), pane, id)
    decreases |actions|
  {
    if actions != [] {
      StepStaysGone(s, actions[0], pane, id);
      GoneForGood(Act(s, actions[0]), actions[1..], pane, id);
    }
  }

  lemma {:induction false} StepSparesOrTakes(s: Page, a: Action, c: ComponentId)
    requires IsPossible(s, a) && c in s.attached && s.attached[c] in s.registry.entries && a != Detach(c)
    ensures var s', pane := Act(s, a), s.attached[c];
            && c in s'.attached && s'.attached[c] == pane && s.registry.terminals <= s'.registry.terminals
            && if TakesShown(s, a, pane) then pane !in s'.registry.entries
               else HasTerminal(s', pane, s.registry.entries[pane].terminal)
  {
    assert c in Viewers(s.attached, s.attached[c]);
  }

  /** A component that stays attached keeps its terminal to the end of the run if and only if the
      timers of its pane fire safely in it; timers may be stale and other components do anything. */
  lemma {:induction false} AttachedTerminalSurvivesIff(s: Page, actions: seq<Action>, c: ComponentId, strays: nat)
    requires Inv(s) && IsRun(s, actions) && c in s.attached && s.attached[c] != ""
    requires CountIs(s, s.attached[c], strays)
    requires forall i :: 0 <= i < |actions| ==> actions[i] != Detach(c)
    ensures var s', pane := After(s, actions), s.attached[c];
            && c in s'.attached && s'.attached[c] == pane && pane in s.registry.entries
            && (HasTerminal(s', pane, s.registry.entries[pane].terminal) <==> FiresSafely(s, actions, pane, strays))
            && (FiresSafely(s, actions, pane, strays) ==> pane in s'.registry.handlers)
    decreases |actions|
  {
    var pane := s.attached[c];
    assert c in Viewers(s.attached, pane);
    if actions != [] {
      var a := actions[0];
      ActionKeeps(s, a);
      ActionCounts(s, a, pane, strays);
      StepSparesOrTakes(s, a, c);
      if TakesShown(s, a, pane) {
        StaysAttached(Act(s, a), actions[1..], c);
        GoneForGood(Act(s, a), actions[1..], pane, s.registry.entries[pane].terminal);
      } else {
        AttachedTerminalSurvivesIff(Act(s, a), actions[1..], c, StraysAfter(s, a, pane, strays));
      }
    }
  }

  lemma {:induction false} StaysAttached(s: Page, actions: seq<Action>, c: ComponentId)
    requires IsRun(s, actions) && c in s.attached
    requires forall i :: 0 <= i < |actions| ==> actions[i] != Detach(c)
    ensures c in After(s, actions).attached && After(s, actions).attached[c] == s.attached[c]
    decreases |actions|
  {
    if actions != [] {
      assert actions[0] != Detach(c);
      StaysAttached(Act(s, actions[0]), actions[1..], c);
    }
  }

  lemma {:induction false} NoStrayIsSafe(s: Page, actions: seq<Action>, pane: PaneId)
    requires IsRun(s, actions) && NoStray(s, actions, pane)
    ensures FiresSafely(s, actions, pane, 0)
    decreases |actions|
  {
    if actions != [] {
      NoStrayIsSafe(Act(s, actions[0]), actions[1..], pane);
    }
  }

  /** In particular, where every component has mounted before it detaches, nothing that timers or
      other components do replaces or disposes the terminal of a component that stays attached. */
  lemma {:induction false} AttachedTerminalSurvives(s: Page, actions: seq<Action>, c: ComponentId)
    requires Inv(s) && IsRun(s, actions) && c in s.attached && s.attached[c] != ""
    requires CountIs(s, s.attached[c], 0) && NoStray(s, actions, s.attached[c])
    requires forall i :: 0 <= i < |actions| ==> actions[i] != Detach(c)
    ensures var s', pane := After(s, actions), s.attached[c];
            && pane in s.registry.entries && HasTerminal(s', pane, s.registry.entries[pane].terminal)
            && pane in s'.registry.handlers
  {
    NoStrayIsSafe(s, actions, s.attached[c]);
    AttachedTerminalSurvivesIff(s, actions, c, 0);
  }

  /** In every run, stray detaches or not: once every component has detached and every timer has
      fired, nothing is left. */
  lemma {:induction false} NothingLeaks(actions: seq<Action>)
    requires IsRun(START, actions)
    requires After(START, actions).attached == map[] && After(START, actions).registry.timers == map[]
    ensures After(START, actions).registry.entries == map[] && After(START, actions).registry.handlers == {}
  {
    RunKeeps(START, actions);
    var s := After(START, actions);
    forall pane | pane in s.registry.entries ensures false {
      UnwatchedHasTimer(s, pane);
    }
  }

  lemma {:induction false} UnwatchedHasTimer(s: Page, pane: PaneId)
    requires Inv(s) && pane in s.registry.entries && s.attached == map[]
    ensures HasTimer(s.registry, pane)
  {
    assert EntryOk(s, pane) && Viewers(s.attached, pane) == {};
  }

  /** A stray detach loses a terminal that is shown: one component mounts, another that never did
      detaches, and the timer disposes the terminal under the first. */
  lemma {:induction false} StrayDetachDisposesShownTerminal(pane: PaneId)
    requires pane != ""
    ensures var actions := [Mount(0, pane), DetachUnmounted(1, pane), Fire(0)];
            && IsRun(START, actions) && !NoStray(START, actions, pane)
            && var s := After(START, actions);
               0 in s.attached && s.attached[0] == pane && pane !in s.registry.entries
  {
    var a1, a2, a3 := Mount(0, pane), DetachUnmounted(1, pane), Fire(0);
    var actions := [a1, a2, a3];
    assert actions[1..] == [a2, a3] && [a2, a3][1..] == [a3] && [a3][1..] == [];
    var s2 := Act(Act(START, a1), a2);
    assert s2.registry.timers == map[0 := pane];
    assert IsRun(s2, [a3]) && After(s2, [a3]) == Act(s2, a3);
  }
}
