/** Properties of whole runs of the application machine. */
module AppRuns {
  import opened Options
  import opened AppState
  import opened AppSteps
  import opened AppSemantics
  import opened AppLaws
  import opened AppFlush
  import opened Apps

  // ----- One outermost update -----

  /** The state in which the flush at the end of an outermost update begins. */
  function FlushFrom(s: State, body: Script): State {
    FlushStarted(Ran(Started(s), body))
  }

  /** An outermost update flushes once: what its flush applied, and in which rounds, is what `Flushed` says. */
  lemma UpdateFlushes(s: State, body: Script)
    requires Inv(s) && Outside(s)
    ensures var t, f, u := FlushFrom(s, body), Flushed(FlushFrom(s, body)), Updated(s, body);
            && Inv(t) && FlushLevel(t) && t.applied == s.applied && s.effects <= t.effects
            && t.pushed == t.applied + t.effects
            && u.turns == f.turns && u.ok == f.ok
            && (u.ok ==> u.end == Finished(FlushStopped(f.end)))
  {
    hide Inv, Within, Ran, Flushed;
    StartedKeeps(s);
    RanKeeps(Started(s), body);
    WithinFields(Started(s), Ran(Started(s), body), CLOSERS);
    FlushStartedKeeps(Ran(Started(s), body));
    QueuedAreApplied(FlushFrom(s, body));
  }

  lemma QueuedAreApplied(s: State)
    requires Inv(s)
    ensures s.pushed == s.applied + s.effects
  {
    hide QueueMatches, NothingLost, NothingAfterDrop, Flushes, WindowsConsistent, SubscribersOrdered, EventsLive;
  }

  /**
   First in, first out, and nothing left undone. In a completed outermost update every effect that was queued
   before it by code outside all updates, by its body, or while it was flushed, has a round of its own, in the
   order of queueing. The rounds are chained: each starts from the very state that the one before it left, but
   for the release of dropped entities; and in its round the effect was dealt with.
   */
  lemma FlushHandlesQueue(s: State, body: Script)
    requires Inv(s) && Outside(s) && Updated(s, body).ok
    ensures var u := Updated(s, body);
            && u.end.pushed == u.end.applied && |u.end.pushed| == |s.applied| + |u.turns|
            && s.applied + s.effects <= u.end.pushed
            && (forall i :: 0 <= i < |u.turns| ==> TurnLaw(u.turns[i], true))
            && (forall i :: 0 <= i < |u.turns| ==>
                  u.turns[i].before.effects[0] == u.end.pushed[|s.applied| + i])
            && Chained(FlushFrom(s, body), u.turns, true, Flushed(FlushFrom(s, body)).end)
  {
    hide Inv, Within, Ran, Flushed, DealtWith, FlushLevel, AppliedNext, Chained;
    var t := FlushFrom(s, body);
    UpdateFlushes(s, body);
    FlushedKeeps(t);
    FlushedChained(t);
    var f, u := Flushed(t), Updated(s, body);
    QueuedAreApplied(f.end);
    assert u.end.applied == f.end.applied && u.end.pushed == f.end.pushed;
    assert f.end.applied + [] == f.end.applied;
    assert s.applied + s.effects <= t.applied + t.effects;
  }

  /** Whoever asked for a notification, before the update, in it, or from inside an observer, has been served by
      the end of the outermost update, and before its flush ended; nothing is pending then. */
  lemma UpdateServesAll(s: State, body: Script)
    requires Inv(s) && Outside(s) && Updated(s, body).ok
    ensures var t := Updated(s, body).end;
            && Inv(t) && Idle(t) && s.log < t.log && t.applied == t.pushed
            && (forall k :: 0 <= k < |t.log| && t.log[k].Requested? ==> Served(t.log, k, |t.log|))
            && (forall k, f :: 0 <= k < f < |t.log| && t.log[k].Requested? && t.log[f].FlushEnded? ==> Served(t.log, k, f))
  {
    hide Inv, Updated;
    UpdatedKeeps(s, body);
    IdleServesAll(Updated(s, body).end);
  }

  /** In this round, which begins after entry `k` of the log, the effect is dealt with. */
  ghost predicate RoundAfter(turn: Turn, k: nat, effect: Effect) {
    && TurnLaw(turn, true) && k < |turn.before.log| && turn.before.effects[0] == effect
    && (effect.Notify? ==> Delivered(turn.before, turn.after, OnNotify(effect.emitter), None, CalledIn(turn.before)))
    && (effect.NotifyGlobalObservers? ==>
          Delivered(turn.before, turn.after, OnGlobal(effect.global), None, CalledIn(turn.before)))
  }

  /**
   No notification is lost. Every request in the log at the end of an outermost update, whether it was made
   outside all updates, in the body or by an observer, was served by an earlier flush, or is followed by a round
   of this flush in which exactly the observers that were due ran.
   */
  lemma EveryRequestHasRound(s: State, body: Script, k: nat)
    requires Inv(s) && Outside(s) && Updated(s, body).ok
    requires k < |Updated(s, body).end.log| && Updated(s, body).end.log[k].Requested?
    ensures var u := Updated(s, body);
            || (k < |s.log| && s.log[k] == u.end.log[k] && Served(s.log, k, |s.log|))
            || exists i :: 0 <= i < |u.turns| && RoundAfter(u.turns[i], k, u.end.log[k].effect)
  {
    hide Inv, Within, Ran, Flushed, TurnLaw, InOrder, FlushLevel, AppliedNext;
    var t, u := FlushFrom(s, body), Updated(s, body);
    var f := Flushed(t);
    UpdateFlushes(s, body);
    UpdateServesAll(s, body);
    FlushedKeeps(t);
    BodyLog(s, body);
    assert u.end.log == f.end.log + [FlushEnded];
    assert Served(u.end.log, k, |u.end.log|);
    var m :| k < m < |u.end.log| && u.end.log[m] == Applied(u.end.log[k].effect);
    if m < |s.log| {
      assert s.log[m] == u.end.log[m];
    } else {
      assert u.end.log[m] == f.end.log[m];
      assert m >= |t.log|;
      AppliedInRound(t, m);
      var i :| 0 <= i < |f.turns| && BeginsAt(f.turns[i], m, f.end.log[m].effect);
      RoundDelivers(f.turns[i], k, u.end.log[k].effect);
    }
  }

  lemma RoundDelivers(turn: Turn, k: nat, effect: Effect)
    requires TurnLaw(turn, true) && k < |turn.before.log| && turn.before.effects[0] == effect
    ensures RoundAfter(turn, k, effect)
  {
    hide Inv, Delivered, AppliedNext;
  }

  /** Nothing is applied between the beginning of the update and that of its flush. */
  lemma BodyLog(s: State, body: Script)
    requires Inv(s) && Outside(s)
    ensures var t := FlushFrom(s, body);
            s.log <= t.log && forall i :: |s.log| <= i < |t.log| ==> !t.log[i].Applied?
  {
    hide Inv, Within, Ran;
    StartedKeeps(s);
    RanKeeps(Started(s), body);
    QuietLog(Started(s), Ran(Started(s), body), CLOSERS);
  }

  lemma IdleServesAll(s: State)
    requires Inv(s) && Idle(s)
    ensures s.applied == s.pushed
    ensures forall k :: 0 <= k < |s.log| && s.log[k].Requested? ==> Served(s.log, k, |s.log|)
    ensures forall k, f :: 0 <= k < f < |s.log| && s.log[k].Requested? && s.log[f].FlushEnded? ==> Served(s.log, k, f)
  {
    assert NothingLost(s.log, s.notifications, s.globalNotifications);
  }

  /** The last round of an aborted update, and no other, failed; it created an entity. */
  lemma AbortedInLastRound(s: State, body: Script)
    requires Inv(s) && Outside(s)
    ensures var u := Updated(s, body);
            && (!u.ok ==> u.turns != [])
            && (forall i :: 0 <= i < |u.turns| ==> TurnLaw(u.turns[i], u.ok || i < |u.turns| - 1))
            && (!u.ok ==> u.turns[|u.turns| - 1].before.effects[0].EntityCreated?)
  {
    hide Inv, Within, Ran, Flushed, DealtWith, FlushLevel, AppliedNext, Chained, InOrder;
    var t := FlushFrom(s, body);
    UpdateFlushes(s, body);
    FlushedKeeps(t);
    FlushedChained(t);
    var u := Updated(s, body);
    if !u.ok {
      var last := u.turns[|u.turns| - 1];
      assert TurnLaw(last, false);
      AppliedNextKeeps(last.before);
    }
  }

  /** A round of the flush fails exactly if the effect is a new entity whose window is closed when it is the turn
      of somebody who is due to observe it. */
  lemma RoundFailsExactly(s: State)
    requires Inv(s) && FlushLevel(s) && s.effects != []
    ensures !AppliedNext(s).ok <==>
            && s.effects[0].EntityCreated?
            && var e, list := s.effects[0], Listed(s.subscribers, OnNew(s.effects[0].tid));
               exists j :: 0 <= j < |list| && StuckAt(Taken(Popped(s), OnNew(e.tid)), OnNew(e.tid), list, j, None, e.window)
  {
    hide Inv, Within, Retained, FlushLevel, StuckAt, Popped, DealtWith;
    var e := s.effects[0];
    AppliedNextKeeps(s);
    if e.EntityCreated? {
      PoppedCreated(s);
      RetainAbortedExactly(Popped(s), OnNew(e.tid), None, e.window);
    }
  }

  lemma PoppedCreated(s: State)
    requires Inv(s) && FlushLevel(s) && s.effects != [] && s.effects[0].EntityCreated?
    ensures Inv(Popped(s)) && FlushLevel(Popped(s)) && Popped(s).pendingUpdates >= 1
    ensures Popped(s).subscribers == s.subscribers
  {
    hide Inv;
    PoppedKeeps(s);
  }

  // ----- Reachable states -----

  lemma QueuedOnce(queue: seq<Effect>, ns: set<EntityId>, gs: set<TypeId>, effect: Effect)
    requires QueueMatches(queue, ns, gs) && effect.Deduplicated()
    ensures Pending(effect, ns, gs) <==> exists i :: 0 <= i < |queue| && queue[i] == effect
    ensures forall i, j | 0 <= i < |queue| && 0 <= j < |queue| :: queue[i] == effect == queue[j] ==> i == j
  {
    assert Pending(effect, ns, gs) <==> effect in queue;
    forall i, j | 0 <= i < |queue| && 0 <= j < |queue| && queue[i] == effect == queue[j] ensures i == j {
      assert queue[i].Deduplicated();
    }
  }

  /** The pending sets and the queue agree: a pending emitter or global has exactly one notification queued. */
  lemma PendingQueuedOnce(s: State, effect: Effect)
    requires Inv(s) && (effect.Notify? || effect.NotifyGlobalObservers?)
    ensures (if effect.Notify? then effect.emitter in s.notifications else effect.global in s.globalNotifications)
            <==> exists i :: 0 <= i < |s.effects| && s.effects[i] == effect
    ensures forall i, j | 0 <= i < |s.effects| && 0 <= j < |s.effects| :: s.effects[i] == effect == s.effects[j] ==> i == j
  {
    hide NothingLost, NothingAfterDrop, Flushes, WindowsConsistent, SubscribersOrdered, EventsLive, QueueMatches;
    assert [] + s.effects == s.effects;
    QueuedOnce(s.effects, s.notifications, s.globalNotifications, effect);
  }

  /** A cancelled subscriber is never invoked again; the only exception are release listeners that are cancelled
      while their entity is being released. */
  lemma NeverAfterDrop(s: State, i: nat, j: nat)
    requires Inv(s) && i < j < |s.log|
    requires s.log[i].Dropped? && s.log[j].Invoked? && s.log[i].id == s.log[j].id
    ensures s.log[j].key.OnRelease?
  {
    assert NothingAfterDrop(s.log, s.dropped);
  }

  /** No window is on the update stack twice, and one that is there is missing from its slot, so that
      `UpdateWindow` refuses it. Handles are known for exactly the windows that are not being opened. */
  lemma StackedWindowsAreOut(s: State, w: WindowId)
    requires Inv(s)
    ensures w in s.stack ==> w in s.windows && s.windows[w] == Vacant
    ensures forall i, j :: 0 <= i < j < |s.stack| ==> s.stack[i] != s.stack[j]
    ensures w in s.windows && s.windows[w] == Vacant && w !in s.opening ==> w in s.stack
    ensures w in s.handles <==> w in s.windows && w !in s.opening
  {
    hide QueueMatches, NothingLost, Flushes, SubscribersOrdered, EventsLive;
    assert w in s.stack ==> w in Vacancies(s.windows);
    assert w in s.windows && s.windows[w] == Vacant ==> w in Vacancies(s.windows);
  }

  /** Between the beginnings of two flushes the first one ends. */
  lemma {:induction false} FlushesDoNotNest(log: seq<Event>, flushing: bool, i: nat, j: nat)
    requires Flushes(log, flushing)
    requires i < j < |log| && log[i].FlushBegan? && log[j].FlushBegan?
    ensures exists m :: i < m < j && log[m].FlushEnded?
    decreases |log|
  {
    var front, last := log[..|log| - 1], log[|log| - 1];
    var before := if last.FlushBegan? then false else if last.FlushEnded? then true else flushing;
    if j < |front| {
      FlushesDoNotNest(front, before, i, j);
      var m :| i < m < j && front[m].FlushEnded?;
      assert log[m].FlushEnded?;
    } else {
      EndedSince(front, i);
      var m :| i < m < |front| && front[m].FlushEnded?;
      assert log[m].FlushEnded?;
    }
  }

  lemma {:induction false} EndedSince(log: seq<Event>, i: nat)
    requires Flushes(log, false) && i < |log| && log[i].FlushBegan?
    ensures exists m :: i < m < |log| && log[m].FlushEnded?
    decreases |log|
  {
    var front, last := log[..|log| - 1], log[|log| - 1];
    if last.FlushEnded? {
      assert i < |log| - 1;
    } else {
      assert i < |front|;
      EndedSince(front, i);
      var m :| i < m < |front| && front[m].FlushEnded?;
      assert log[m].FlushEnded?;
    }
  }

  /** Effects are applied, and the event arena is cleared, only while a flush is running; a flush begins only
      at depth one, and the arena is cleared only when nothing is queued. */
  lemma {:induction false} FlushEventsInside(log: seq<Event>, flushing: bool, i: nat)
    requires Flushes(log, flushing) && i < |log|
    ensures log[i].Applied? || log[i].ArenaCleared? ==>
              exists b :: 0 <= b < i && log[b].FlushBegan? && forall m :: b < m < i ==> !log[m].FlushEnded?
    ensures log[i].FlushBegan? ==> log[i].depth == 1
    ensures log[i].ArenaCleared? ==> log[i].queued == 0
    decreases |log|
  {
    var front, last := log[..|log| - 1], log[|log| - 1];
    if i < |front| {
      var before := if last.FlushBegan? then false else if last.FlushEnded? then true else flushing;
      FlushEventsInside(front, before, i);
      if log[i].Applied? || log[i].ArenaCleared? {
        var b :| 0 <= b < i && front[b].FlushBegan? && forall m :: b < m < i ==> !front[m].FlushEnded?;
        assert log[b].FlushBegan?;
        assert forall m :: b < m < i ==> log[m] == front[m];
      }
    } else if last.Applied? || last.ArenaCleared? {
      var b := BeganSince(front);
      assert log[b].FlushBegan?;
      assert forall m :: b < m < i ==> log[m] == front[m];
    }
  }

  lemma {:induction false} BeganSince(log: seq<Event>) returns (b: nat)
    requires Flushes(log, true)
    ensures b < |log| && log[b].FlushBegan? && forall m :: b < m < |log| ==> !log[m].FlushEnded?
    decreases |log|
  {
    var front, last := log[..|log| - 1], log[|log| - 1];
    if last.FlushBegan? {
      b := |log| - 1;
    } else {
      b := BeganSince(front);
      assert forall m :: b < m < |front| ==> log[m] == front[m];
    }
  }

  // ----- Whole runs -----

  /** What happens outside all updates: updates, with creating entities and opening or updating windows among
      them, and code that only queues effects, subscribes, cancels or drops entities. */
  datatype Command = Outermost(body: Script) | Directly(op: Op)

  /** Any other operation is an outermost update by itself. */
  function Commanded(s: State, command: Command): Call {
    match command
    case Directly(op) => if IsLeaf(op) then Call(true, Leaf(s, op)) else Call(Updated(s, [op]).ok, Updated(s, [op]).end)
    case Outermost(body) => Call(Updated(s, body).ok, Updated(s, body).end)
  }

  function After(s: State, commands: seq<Command>): Call
    decreases |commands|
  {
    if commands == [] then Call(true, s)
    else
      var c := Commanded(s, commands[0]);
      if c.ok then After(c.end, commands[1..]) else c
  }

  predicate IsUpdate(command: Command) {
    command.Outermost? || !IsLeaf(command.op)
  }

  function Updates(commands: seq<Command>): nat {
    if commands == [] then 0 else (if IsUpdate(commands[0]) then 1 else 0) + Updates(commands[1..])
  }

  lemma CommandedKeeps(s: State, command: Command)
    requires Inv(s) && Outside(s)
    ensures var c := Commanded(s, command);
            && (c.ok ==> Inv(c.end) && Outside(c.end) && s.log <= c.end.log
                         && c.end.arenaEpoch == s.arenaEpoch + (if IsUpdate(command) then 1 else 0))
            && (c.ok && IsUpdate(command) ==> Idle(c.end))
            && (!c.ok ==> AbortedOnClosedWindow(s, c.end))
  {
    hide Inv, Within, Updated, Leaf, AbortedOnClosedWindow;
    match command
    case Directly(op) =>
      if IsLeaf(op) {
        LeafKeeps(s, op);
        WithinFields(s, Leaf(s, op), CLOSERS);
      } else {
        UpdatedKeeps(s, [op]);
      }
    case Outermost(body) =>
      UpdatedKeeps(s, body);
  }

  /** In every run the invariants hold again outside the updates; every update has flushed exactly once; and a run
      that ends early was aborted for a closed window. */
  lemma {:induction false} EveryRun(s: State, commands: seq<Command>)
    requires Inv(s) && Outside(s)
    ensures var c := After(s, commands);
            && (c.ok ==> Inv(c.end) && Outside(c.end) && s.log <= c.end.log
                         && c.end.arenaEpoch == s.arenaEpoch + Updates(commands))
            && (!c.ok ==> AbortedOnClosedWindow(s, c.end))
    decreases |commands|
  {
    hide Inv, Commanded, AbortedOnClosedWindow, IsUpdate;
    if commands != [] {
      CommandedKeeps(s, commands[0]);
      var c := Commanded(s, commands[0]);
      if c.ok {
        EveryRun(c.end, commands[1..]);
        if !After(c.end, commands[1..]).ok {
          AbortExtends(s, c.end, After(c.end, commands[1..]).end);
        }
      }
    }
  }

  /** A run is what one new application does. */
  method RunCommands(commands: seq<Command>, reactions: seq<Reaction>) returns (app: App, ok: bool)
    ensures Call(ok, app.S()) == After(Initial(reactions), commands)
    ensures ok ==> Inv(app.S()) && Outside(app.S())
    ensures ok && commands != [] && IsUpdate(commands[|commands| - 1]) ==> Idle(app.S())
  {
    hide Inv, Updated, Leaf, AbortedOnClosedWindow, Commanded, Initial;
    app := new App(reactions);
    InitialKeeps(reactions);
    ok := true;
    assert commands[0..] == commands;
    var i := 0;
    while i < |commands|
      invariant i <= |commands| && fresh(app)
      invariant Inv(app.S()) && Outside(app.S())
      invariant After(app.S(), commands[i..]) == After(Initial(reactions), commands)
      invariant i > 0 && IsUpdate(commands[i - 1]) ==> Idle(app.S())
    {
      assert commands[i..][0] == commands[i] && commands[i..][1..] == commands[i + 1..];
      CommandedKeeps(app.S(), commands[i]);
      ok := RunCommand(app, commands[i]);
      if !ok {
        return;
      }
      i := i + 1;
    }
    assert commands[i..] == [];
  }

  method RunCommand(app: App, command: Command) returns (ok: bool)
    requires Inv(app.S()) && Outside(app.S())
    modifies app
    ensures Call(ok, app.S()) == Commanded(old(app.S()), command)
  {
    hide Inv, Updated, Leaf, AbortedOnClosedWindow;
    match command
    case Directly(op) =>
      if IsLeaf(op) {
        app.RunLeaf(op);
        ok := true;
      } else {
        ok := app.Update([op]);
      }
    case Outermost(body) =>
      ok := app.Update(body);
  }

  // ----- The window an entity was created in may be gone -----

  /** An application observes new entities of type 7 and opens its first window, ... */
  const OPENS: Script := [DoSubscribe(OnNew(7), 0), DoOpenWindow(true, [], [], [])]

  /** ... and later a callback in that window creates such an entity and closes the window. */
  const CLOSES: Script := [DoUpdateWindow(0, [DoNewEntity(3, 7, []), DoRemoveWindow(0)])]

  lemma RanNone(s: State)
    ensures Ran(s, []) == s
  {
  }

  lemma RanOne(s: State, op: Op)
    ensures Ran(s, [op]) == Did(s, op)
  {
    hide Did;
    assert [op][1..] == [];
  }

  lemma RanTwo(s: State, a: Op, b: Op)
    ensures Ran(s, [a, b]) == Did(Did(s, a), b)
  {
    hide Did;
    assert [a, b][1..] == [b];
    RanOne(Did(s, a), b);
  }

  lemma BuiltQuietly(s: State, w: WindowId)
    ensures Built(s, w, [], []) == Pushed(Unstacked(Building(s, w)), Defer(Callback))
  {
    hide Ran, Pushed, Unstacked, Building, Costs;
    RanNone(Building(s, w));
    RanNone(Pushed(Unstacked(Building(s, w)), Defer(Callback)));
  }

  /** Opening a window whose callbacks do nothing. */
  lemma OpensQuietly(s: State)
    ensures var w, t := s.nextWindow, SlotOpened(Started(s));
            Did(s, DoOpenWindow(true, [], [], []))
            == Finished(SlotFilled(Pushed(Unstacked(Building(t, w)), Defer(Callback)), w))
  {
    hide Ran, Opened, Pushed, Unstacked, Building, SlotOpened, SlotFilled, Finished, Costs;
    OpenedQuietly(Started(s));
  }

  lemma OpenedQuietly(s: State)
    ensures var w, t := s.nextWindow, SlotOpened(s);
            Opened(s, true, [], [], []) == SlotFilled(Pushed(Unstacked(Building(t, w)), Defer(Callback)), w)
  {
    hide Ran, Built, Pushed, Unstacked, Building, SlotOpened, SlotFilled, Costs;
    RanNone(SlotOpened(s));
    BuiltQuietly(SlotOpened(s), s.nextWindow);
  }

  /** One window is open, and one observer waits for new entities of type 7. */
  ghost predicate OneOpenWindow(s: State) {
    && !s.flushing && s.droppedEntities == [] && s.reactions == []
    && s.subscribers == map[OnNew(7) := [Subscriber(0, 0)]] && s.active == {0} && s.dropped == {}
    && s.windows == map[0 := Occupied] && s.stack == [] && s.removed == {}
  }

  lemma OpenedWindow(s: State)
    requires s == Subscribed(Started(Initial([])), OnNew(7), 0)
    ensures var t := Finished(SlotFilled(Pushed(Unstacked(Building(SlotOpened(Started(s)), 0)), Defer(Callback)), 0));
            s.nextWindow == 0 && OneOpenWindow(t) && t.effects == [Defer(Callback)] && t.pendingUpdates == 1
  {
    hide Costs;
    var t := Finished(SlotFilled(Pushed(Unstacked(Building(SlotOpened(Started(s)), 0)), Defer(Callback)), 0));
    assert Listed(map[], OnNew(7)) + [Subscriber(0, 0)] == [Subscriber(0, 0)];
    assert s.subscribers == map[OnNew(7) := [Subscriber(0, 0)]] && s.active == {0};
    assert t.windows == map[0 := Occupied];
    assert [0][..0] == [];
  }

  lemma BeforeFirstFlush()
    ensures var t := Ran(Started(Initial([])), OPENS);
            OneOpenWindow(t) && t.effects == [Defer(Callback)] && t.pendingUpdates == 1
  {
    hide Ran, Did, Initial, Started, Finished, SlotFilled, Pushed, Unstacked, Building, SlotOpened, OneOpenWindow, Costs;
    var s := Started(Initial([]));
    RanTwo(s, OPENS[0], OPENS[1]);
    SubscribesNow(s);
    OpenedWindow(Subscribed(s, OnNew(7), 0));
    OpensQuietly(Subscribed(s, OnNew(7), 0));
  }

  lemma SubscribesNow(s: State)
    ensures Did(s, DoSubscribe(OnNew(7), 0)) == Subscribed(s, OnNew(7), 0)
  {
    hide Subscribed;
  }

  /** The only queued effect is a deferred callback, and there is nothing for it to do. */
  lemma FlushesQuietly(s: State)
    requires s.effects == [Defer(Callback)] && s.droppedEntities == [] && s.reactions == []
    ensures Flushed(s).ok && Flushed(s).end == ArenaReset(Popped(s))
  {
    hide Flushed, ReleasedAll, ArenaReset, Costs;
    assert AppliedNext(s) == Call(true, Popped(s));
    FlushedUnfolds(s);
    FlushedUnfolds(Popped(s));
  }

  lemma AfterFirstFlush(t: State)
    requires OneOpenWindow(t) && t.pendingUpdates == 1
    requires t.effects == [Defer(Callback)]
    ensures Finishing(t).ok && OneOpenWindow(Finishing(t).end)
    ensures Finishing(t).end.pendingUpdates == 0 && Finishing(t).end.effects == []
  {
    hide Flushed, Costs;
    FlushesQuietly(FlushStarted(t));
  }

  lemma FirstUpdate()
    ensures var u := Updated(Initial([]), OPENS);
            u.ok && OneOpenWindow(u.end) && u.end.pendingUpdates == 0 && u.end.effects == []
  {
    hide Ran, Finishing, Initial, Started, OneOpenWindow;
    BeforeFirstFlush();
    AfterFirstFlush(Ran(Started(Initial([])), OPENS));
  }

  /** What the window's callback leaves behind. */
  function Marked(s: State): State {
    Finished(Pushed(Started(s), EntityCreated(3, 7, Some(0)))).(removed := {0})
  }

  lemma CallbackRuns(s: State)
    requires s.stack == [0] && s.removed == {} && s.windows == map[0 := Vacant]
    ensures Ran(s, [DoNewEntity(3, 7, []), DoRemoveWindow(0)]) == Marked(s)
  {
    hide Ran, Did, Marked, Costs;
    RanTwo(s, DoNewEntity(3, 7, []), DoRemoveWindow(0));
    EntityAnnounced(s);
    StackKept(s);
    WindowMarked(Finished(Pushed(Started(s), EntityCreated(3, 7, Some(0)))));
    MarkedIs(s);
  }

  lemma EntityAnnounced(s: State)
    requires s.stack == [0]
    ensures Did(s, DoNewEntity(3, 7, [])) == Finished(Pushed(Started(s), EntityCreated(3, 7, Some(0))))
  {
    hide Ran, Pushed, Costs, Finished;
    RanNone(Started(s));
  }

  lemma WindowMarked(s: State)
    requires s.removed == {} && s.windows == map[0 := Vacant]
    ensures Did(s, DoRemoveWindow(0)) == s.(removed := {0})
  {
    hide Costs;
    assert s.removed + {0} == {0};
  }

  lemma MarkedIs(s: State)
    ensures Marked(s) == Finished(Pushed(Started(s), EntityCreated(3, 7, Some(0)))).(removed := {0})
  {
  }

  lemma StackKept(s: State)
    ensures var t := Finished(Pushed(Started(s), EntityCreated(3, 7, Some(0))));
            t.stack == s.stack && t.removed == s.removed && t.windows == s.windows
  {
  }

  /** Nobody observes closed windows. */
  lemma LeftQuietly(s: State)
    requires 0 in s.removed && OnWindowClosed !in s.subscribers
    ensures Left(s, 0) == Closed(s, 0)
  {
    hide Costs, RoundOver;
  }

  /** The window while its callback runs. */
  function InCallback(s: State): State {
    CheckedOut(Logged(Started(Started(s)), WindowRan(0)), 0)
  }

  lemma InCallbackFields(s: State)
    requires OneOpenWindow(s)
    ensures var c := InCallback(s);
            && c.stack == [0] && c.removed == {} && c.windows == map[0 := Vacant] && Available(Started(s), 0)
            && 0 in Marked(c).removed && OnWindowClosed !in Marked(c).subscribers
  {
    hide Costs;
  }

  lemma SecondBody(s: State)
    requires OneOpenWindow(s)
    ensures Ran(Started(s), CLOSES) == Finished(Closed(Marked(InCallback(s)), 0))
  {
    hide Ran, Left, Closed, Marked, InCallback, CheckedOut, Finished, Costs, OneOpenWindow, Available;
    var body := [DoNewEntity(3, 7, []), DoRemoveWindow(0)];
    InCallbackFields(s);
    RanOne(Started(s), CLOSES[0]);
    CallbackRuns(InCallback(s));
    LeftQuietly(Marked(InCallback(s)));
    assert RanIn(Logged(Started(Started(s)), WindowRan(0)), 0, body) == Left(Marked(InCallback(s)), 0) by {
      CheckedOutInCallback(s);
    }
  }

  lemma CheckedOutInCallback(s: State)
    ensures InCallback(s) == CheckedOut(Logged(Started(Started(s)), WindowRan(0)), 0)
  {
  }

  /** Only the new entity's effect is queued, and its window is closed. */
  ghost predicate Stuck(t: State) {
    && t.effects == [EntityCreated(3, 7, Some(0))] && t.droppedEntities == [] && 0 !in t.windows
    && t.subscribers == map[OnNew(7) := [Subscriber(0, 0)]] && t.active == {0} && t.dropped == {}
  }

  lemma BeforeSecondFlush(s: State)
    requires OneOpenWindow(s) && s.pendingUpdates == 0 && s.effects == []
    ensures var t := Finished(Closed(Marked(InCallback(s)), 0));
            Stuck(t) && t.pendingUpdates == 1 && !t.flushing
  {
    hide Costs;
  }

  lemma StuckFlush(t: State)
    requires Stuck(t)
    ensures !Flushed(t).ok
  {
    FlushedUnfolds(t);
    DoomedByClosedWindow(t);
    hide Flushed, AppliedNext, Costs;
    assert ReleasedAll(t) == t;
    assert Listed(t.subscribers, OnNew(7)) == [Subscriber(0, 0)];
    assert Callable(t, Listed(t.subscribers, OnNew(7))[0], None);
  }

  lemma SecondUpdate(s: State)
    requires OneOpenWindow(s) && s.pendingUpdates == 0 && s.effects == []
    ensures !Updated(s, CLOSES).ok
  {
    SecondBody(s);
    BeforeSecondFlush(s);
    hide Ran, Flushed, Marked, InCallback, Closed, Finished, Costs, OneOpenWindow;
    var t := Ran(Started(s), CLOSES);
    StuckFlush(FlushStarted(t));
  }

  /**
   The `expect` in `apply_entity_created_effect` says that all windows are off the stack when effects are
   flushed. They are, and still it fails in this run of two ordinary updates.
   */
  method ClosedCreationWindowAborts() returns (first: bool, second: bool)
    ensures first && !second
  {
    hide Inv, Updated, Initial, OneOpenWindow, AbortedOnClosedWindow;
    var app := new App([]);
    InitialKeeps([]);
    FirstUpdate();
    first := app.Update(OPENS);
    SecondUpdate(app.S());
    second := app.Update(CLOSES);
  }
}
