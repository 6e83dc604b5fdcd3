/** What the operations of user code lead to: whom they reach, and what they leave as it was. */
module AppReach {
  import opened Options
  import opened AppState
  import opened AppSteps
  import opened AppSemantics
  import opened AppLaws
  import opened AppFlush
  import opened Apps
  import opened AppRuns

  // ----- Whatever a script asks for is requested, wherever in it -----

  /** Somewhere in the script, outside the callbacks of window updates, a notification of `e` is asked for. */
  predicate Asks(script: Script, e: EntityId)
    decreases ScriptSize(script), 1
  {
    script != [] && (OpAsks(script[0], e) || Asks(script[1..], e))
  }

  predicate OpAsks(op: Op, e: EntityId)
    decreases OpSize(op), 0
  {
    match op
    case DoNotify(x) => x == e
    case DoUpdate(body) => Asks(body, e)
    case DoNewEntity(_, _, build) => Asks(build, e)
    case DoOpenWindow(succeeds, create, build, draw) => Asks(create, e) || (succeeds && (Asks(build, e) || Asks(draw, e)))
    case _ => false
  }

  /** From log `a` to log `b` a notification of `e` was requested. */
  ghost predicate RequestedIn(a: seq<Event>, b: seq<Event>, e: EntityId) {
    a <= b && exists k :: |a| <= k < |b| && b[k] == Requested(Notify(e))
  }

  lemma RequestedWithin(a: seq<Event>, b: seq<Event>, c: seq<Event>, d: seq<Event>, e: EntityId)
    requires a <= b && RequestedIn(b, c, e) && c <= d
    ensures RequestedIn(a, d, e)
  {
    var k :| |b| <= k < |c| && c[k] == Requested(Notify(e));
    assert d[k] == c[k];
  }

  lemma NotifyRequests(s: State, e: EntityId)
    ensures RequestedIn(s.log, Leaf(s, DoNotify(e)).log, e)
  {
    assert Leaf(s, DoNotify(e)).log == s.log + [Requested(Notify(e))];
    assert (s.log + [Requested(Notify(e))])[|s.log|] == Requested(Notify(e));
  }

  /** Every part of a script runs: what it asks for anywhere is requested by its end. */
  lemma {:induction false} AskedIsRequested(s: State, script: Script, e: EntityId)
    requires Inv(s) && s.pendingUpdates >= 1 && Asks(script, e)
    ensures RequestedIn(s.log, Ran(s, script).log, e)
    decreases ScriptSize(script), 1
  {
    hide Inv, Within, Did, RequestedIn, OpAsks, Fuel, Load;
    var m := Did(s, script[0]);
    DidKeeps(s, script[0]);
    WithinFields(s, m, CLOSERS);
    RanKeeps(m, script[1..]);
    WithinFields(m, Ran(m, script[1..]), CLOSERS);
    if OpAsks(script[0], e) {
      OpAskedIsRequested(s, script[0], e);
      RequestedWithin(s.log, s.log, m.log, Ran(s, script).log, e);
    } else {
      AskedIsRequested(m, script[1..], e);
      RequestedWithin(s.log, m.log, Ran(s, script).log, Ran(s, script).log, e);
    }
  }

  lemma {:induction false} OpAskedIsRequested(s: State, op: Op, e: EntityId)
    requires Inv(s) && s.pendingUpdates >= 1 && OpAsks(op, e)
    ensures RequestedIn(s.log, Did(s, op).log, e)
    decreases OpSize(op), 0
  {
    hide Inv, Within, Ran, RequestedIn, Asks, Leaf, Opened, Pushed, Fuel, Load;
    StartedKeeps(s);
    match op
    case DoNotify(x) =>
      NotifyRequests(s, e);
    case DoUpdate(body) =>
      AskedIsRequested(Started(s), body, e);
    case DoNewEntity(x, tid, build) =>
      AskedIsRequested(Started(s), build, e);
      RanKeeps(Started(s), build);
      var t := Ran(Started(s), build);
      AnnouncedKeeps(t, x, tid);
      WithinFields(t, Announced(t, x, tid), CLOSERS);
      RequestedWithin(s.log, s.log, t.log, Announced(t, x, tid).log, e);
    case DoOpenWindow(succeeds, create, build, draw) =>
      OpenAsks(Started(s), succeeds, create, build, draw, e);
  }

  lemma {:induction false} OpenAsks(s: State, succeeds: bool, create: Script, build: Script, draw: Script, e: EntityId)
    requires Inv(s) && s.pendingUpdates >= 1
    requires Asks(create, e) || (succeeds && (Asks(build, e) || Asks(draw, e)))
    ensures RequestedIn(s.log, Opened(s, succeeds, create, build, draw).log, e)
    decreases ScriptSize(create) + ScriptSize(build) + ScriptSize(draw) + 1, 2
  {
    hide Inv, Within, Ran, Built, RequestedIn, Asks, Fuel, Load;
    var slot := SlotOpened(s);
    var created := Ran(slot, create);
    SlotOpenedKeeps(s);
    RanKeeps(slot, create);
    WithinFields(slot, created, CLOSERS);
    if succeeds {
      BuiltKeeps(created, s.nextWindow, build, draw);
      WithinFields(created, Built(created, s.nextWindow, build, draw), CLOSERS);
    }
    if Asks(create, e) {
      AskedIsRequested(slot, create, e);
      RequestedWithin(s.log, s.log, created.log, Opened(s, succeeds, create, build, draw).log, e);
    } else {
      BuildAsks(created, s.nextWindow, build, draw, e);
      RequestedWithin(s.log, created.log, Built(created, s.nextWindow, build, draw).log,
                      Opened(s, succeeds, create, build, draw).log, e);
    }
  }

  lemma {:induction false} BuildAsks(s: State, w: WindowId, build: Script, draw: Script, e: EntityId)
    requires Inv(s) && s.pendingUpdates >= 1 && w in s.opening && w !in s.stack
    requires Asks(build, e) || Asks(draw, e)
    ensures RequestedIn(s.log, Built(s, w, build, draw).log, e)
    decreases ScriptSize(build) + ScriptSize(draw) + 1, 1
  {
    hide Inv, Within, Ran, RequestedIn, Asks, Pushed, Fuel, Load;
    BuildingKeeps(s, w);
    var x := Ran(Building(s, w), build);
    RanKeeps(Building(s, w), build);
    WithinFields(Building(s, w), x, CLOSERS);
    BuildingWraps(s, x, w);
    WithinFields(s, Unstacked(x), CLOSERS);
    var z := Pushed(Unstacked(x), Defer(Callback));
    PushedKeeps(Unstacked(x), Defer(Callback));
    WithinFields(Unstacked(x), z, CLOSERS);
    RanKeeps(z, draw);
    WithinFields(z, Ran(z, draw), CLOSERS);
    if Asks(build, e) {
      AskedIsRequested(Building(s, w), build, e);
      RequestedWithin(s.log, s.log, x.log, Ran(z, draw).log, e);
    } else {
      AskedIsRequested(z, draw, e);
      RequestedWithin(s.log, z.log, Ran(z, draw).log, Ran(z, draw).log, e);
    }
  }

  /** The callback of a window update runs, if the window is in its slot. */
  lemma WindowAsks(s: State, w: WindowId, body: Script, e: EntityId)
    requires Inv(s) && s.pendingUpdates >= 1 && Asks(body, e)
    requires w in s.windows && s.windows[w] == Occupied
    ensures RequestedIn(s.log, UpdatedWindow(s, w, body).log, e)
  {
    hide Inv, Within, Ran, RequestedIn, Asks, Left, Fuel, Load;
    var t := Logged(Started(s), WindowRan(w));
    StartedKeeps(s);
    LoggedKeeps(Started(s), WindowRan(w));
    var c := CheckedOut(t, w);
    CheckedOutConsistent(t, w);
    AskedIsRequested(c, body, e);
    RanKeeps(c, body);
    LeftKeeps(t, Ran(c, body), w);
    LeftLog(t, Ran(c, body), w);
    RequestedWithin(s.log, c.log, Ran(c, body).log, Left(Ran(c, body), w).log, e);
  }

  lemma LeftLog(s: State, t: State, w: WindowId)
    requires Inv(s) && s.pendingUpdates >= 1 && Available(s, w)
    requires Inv(t) && Nested(CheckedOut(s, w), t)
    ensures t.log <= Left(t, w).log
  {
    hide Inv, Within, Retained, Delivered, Answered, Newcomers, Fuel, Load;
    WindowWraps(s, t, w);
    WithinFields(CheckedOut(s, w), t, CLOSERS);
    if w in t.removed {
      RetainedKeeps(Closed(t, w), OnWindowClosed, None, None);
      WithinFields(Closed(t, w), Retained(Closed(t, w), OnWindowClosed, None, None).end, CLOSERS + iset{OnWindowClosed});
    }
  }

  /** So does the next reaction, when a callback is due. */
  lemma CallbackAsks(s: State, e: EntityId)
    requires Inv(s) && s.pendingUpdates >= 1 && s.reactions != [] && Asks(s.reactions[0].script, e)
    ensures RequestedIn(s.log, Reacted(s).log, e)
  {
    hide Inv, Within, Ran, RequestedIn, Asks, Fuel, Load;
    ReactionTakenKeeps(s);
    WithinFields(s, ReactionTaken(s), CLOSERS);
    AskedIsRequested(ReactionTaken(s), s.reactions[0].script, e);
  }

  /** And so it is for every subscriber that is invoked, a listener for new entities in its window included. */
  lemma InvokedAsks(s: State, key: Key, id: SubscriberId, window: Option<WindowId>, e: EntityId)
    requires Inv(s) && s.pendingUpdates >= 1 && (id !in s.dropped || key.OnRelease?) && (key.OnNew? ==> FlushLevel(s))
    requires s.reactions != [] && Asks(s.reactions[0].script, e) && Called(s, key, id, window).ok
    ensures RequestedIn(s.log, Called(s, key, id, window).end.log, e)
  {
    hide Inv, Within, Ran, RequestedIn, Asks, Reacted, UpdatedWindow, RunsOf, Fuel, Load;
    var t := Logged(s, Invoked(key, id));
    InvocationKeeps(s, key, id);
    if key.OnNew? && window.Some? {
      var u := ReactionTaken(t);
      ReactionTakenKeeps(t);
      WithinFields(t, u, CLOSERS);
      WindowAsks(u, window.value, NextScript(t), e);
      RequestedWithin(s.log, u.log, UpdatedWindow(u, window.value, NextScript(t)).log,
                      UpdatedWindow(u, window.value, NextScript(t)).log, e);
    } else {
      CallbackAsks(t, e);
      RequestedWithin(s.log, t.log, Reacted(t).log, Reacted(t).log, e);
    }
  }

  /**
   Whatever an update asks for reaches the observers: a notification asked for anywhere in its body is followed,
   in the same update, by a round in which exactly the observers of that entity that were due ran.
   */
  lemma AskedIsDelivered(s: State, body: Script, e: EntityId)
    requires Inv(s) && Outside(s) && Updated(s, body).ok && Asks(body, e)
    ensures exists i, k :: 0 <= i < |Updated(s, body).turns| && k >= |s.log|
                           && RoundAfter(Updated(s, body).turns[i], k, Notify(e))
  {
    hide Inv, Within, Ran, Flushed, RequestedIn, Asks, RoundAfter, Fuel, Load;
    var t, u := FlushFrom(s, body), Updated(s, body);
    StartedKeeps(s);
    AskedIsRequested(Started(s), body, e);
    UpdateFlushes(s, body);
    FlushedKeeps(t);
    hide TurnLaw, InOrder, Emptied;
    var k := RequestAt(s.log, Ran(Started(s), body).log, e);
    EndLog(s, body);
    assert u.end.log[k] == Requested(Notify(e));
    EveryRequestHasRound(s, body, k);
    var i :| 0 <= i < |u.turns| && RoundAfter(u.turns[i], k, u.end.log[k].effect);
  }

  lemma RequestAt(a: seq<Event>, b: seq<Event>, e: EntityId) returns (k: nat)
    requires RequestedIn(a, b, e)
    ensures |a| <= k < |b| && b[k] == Requested(Notify(e))
  {
    k :| |a| <= k < |b| && b[k] == Requested(Notify(e));
  }

  lemma EndLog(s: State, body: Script)
    requires Inv(s) && Outside(s) && Updated(s, body).ok
    ensures Ran(Started(s), body).log <= Updated(s, body).end.log
  {
    hide Inv, Within, Ran, Flushed, TurnLaw, InOrder, Fuel, Load;
    UpdateFlushes(s, body);
    FlushedKeeps(FlushFrom(s, body));
  }

  // ----- Whom each operation reaches -----

  lemma {:induction false} RanAppend(s: State, a: Script, b: Script)
    ensures Ran(s, a + b) == Ran(Ran(s, a), b)
    decreases |a|
  {
    hide Did;
    if a == [] {
      assert a + b == b;
    } else {
      assert (a + b)[0] == a[0] && (a + b)[1..] == a[1..] + b;
      RanAppend(Did(s, a[0]), a[1..], b);
    }
  }

  lemma RanThen(s: State, body: Script, op: Op)
    ensures Ran(s, body + [op]) == Did(Ran(s, body), op)
  {
    hide Ran, Did;
    RanAppend(s, body, [op]);
    RanOne(Ran(s, body), op);
  }

  /** An effect that is queued when the flush begins has a round of its own. */
  lemma QueuedIsReached(s: State, body: Script, effect: Effect)
    requires Inv(s) && Outside(s) && Updated(s, body).ok && effect in FlushFrom(s, body).effects
    ensures exists i :: 0 <= i < |Updated(s, body).turns| && RoundFor(Updated(s, body).turns[i], effect)
  {
    hide Inv, Within, Ran, Flushed, DealtWith, FlushLevel, AppliedNext, Fuel, Load;
    var t, u := FlushFrom(s, body), Updated(s, body);
    var f := Flushed(t);
    UpdateFlushes(s, body);
    FlushedKeeps(t);
    QueuedAreApplied(f.end);
    assert f.end.applied + [] == f.end.applied;
    var j :| 0 <= j < |t.effects| && t.effects[j] == effect;
    assert (t.applied + t.effects)[|t.applied| + j] == effect;
    assert RoundFor(u.turns[j], effect);
  }

  /** In this round the effect was dealt with. */
  ghost predicate RoundFor(turn: Turn, effect: Effect) {
    TurnLaw(turn, true) && turn.before.effects[0] == effect
  }

  lemma PushedIsQueued(s: State, effect: Effect)
    requires Inv(s)
    ensures effect in Pushed(s, effect).effects
  {
    hide NothingLost, NothingAfterDrop, Flushes, WindowsConsistent, SubscribersOrdered, EventsLive;
    assert [] + s.effects == s.effects;
    assert (s.effects + [effect])[|s.effects|] == effect;
  }

  lemma QueuedIsLast(s: State, effect: Effect)
    ensures effect in Queued(s, effect).effects
  {
    assert (s.effects + [effect])[|s.effects|] == effect;
  }

  /** A new entity is announced with the window that is innermost where it is created. */
  lemma CreatedInInnermost(s: State, e: EntityId, tid: TypeId, build: Script)
    requires Inv(s) && s.pendingUpdates >= 1
    ensures var window := if s.stack == [] then None else Some(s.stack[|s.stack| - 1]);
            EntityCreated(e, tid, window) in Did(s, DoNewEntity(e, tid, build)).effects
  {
    hide Inv, Within, Ran, Pushed, Fuel, Load;
    StartedKeeps(s);
    RanKeeps(Started(s), build);
    var t := Ran(Started(s), build);
    WithinFields(Started(s), t, CLOSERS);
    PushedIsQueued(t, EntityCreated(e, tid, InnermostWindow(t)));
  }

  /** Each operation leads to the round that its name promises. */
  lemma OperationReaches(s: State, body: Script, op: Op)
    requires Inv(s) && Outside(s) && Updated(s, body + [op]).ok
    ensures var m, u := Ran(Started(s), body), Updated(s, body + [op]);
            match op
            case DoNotify(e) => Reaches(u.turns, Notify(e))
            case DoNotifyGlobal(g) => Reaches(u.turns, NotifyGlobalObservers(g))
            case DoEmit(e, eventType) => Reaches(u.turns, Emit(e, eventType, EventBox(s.arenaEpoch)))
            case DoRefresh => Reaches(u.turns, RefreshWindows)
            case DoDefer => Reaches(u.turns, Defer(Callback))
            case DoNewEntity(e, tid, _) => Reaches(u.turns, EntityCreated(e, tid, None))
            case DoSubscribe(key, _) =>
              key.OnNotify? || key.OnEvent? || key.OnGlobal? ==> Reaches(u.turns, Defer(Activate(m.nextSubscriber)))
            case _ => true
  {
    hide Inv, Within, Ran, Did, Updated, Reaches, Fuel, Load, RoundFor;
    var m := Ran(Started(s), body);
    StartedKeeps(s);
    RanKeeps(Started(s), body);
    WithinFields(Started(s), m, CLOSERS);
    RanThen(Started(s), body, op);
    match op
    case DoNotify(e) => ReachedBy(s, body, op, Notify(e));
    case DoNotifyGlobal(g) => ReachedBy(s, body, op, NotifyGlobalObservers(g));
    case DoEmit(e, eventType) => ReachedBy(s, body, op, Emit(e, eventType, EventBox(s.arenaEpoch)));
    case DoRefresh => ReachedBy(s, body, op, RefreshWindows);
    case DoDefer => ReachedBy(s, body, op, Defer(Callback));
    case DoNewEntity(e, tid, build) => ReachedBy(s, body, op, EntityCreated(e, tid, None));
    case DoSubscribe(key, _) =>
      if key.OnNotify? || key.OnEvent? || key.OnGlobal? {
        ReachedBy(s, body, op, Defer(Activate(m.nextSubscriber)));
      }
    case _ =>
  }

  /** Some round was for this effect, and dealt with it. */
  ghost predicate Reaches(turns: seq<Turn>, effect: Effect) {
    exists i :: 0 <= i < |turns| && RoundFor(turns[i], effect)
  }

  /** What the operation queues, in the state in which it is performed. */
  ghost predicate Queues(m: State, op: Op, effect: Effect) {
    match op
    case DoNotify(e) => effect == Notify(e)
    case DoNotifyGlobal(g) => effect == NotifyGlobalObservers(g)
    case DoEmit(e, eventType) => effect == Emit(e, eventType, EventBox(m.arenaEpoch))
    case DoRefresh => effect == RefreshWindows
    case DoDefer => effect == Defer(Callback)
    case DoNewEntity(e, tid, _) => effect == EntityCreated(e, tid, None) && m.stack == []
    case DoSubscribe(key, _) =>
      (key.OnNotify? || key.OnEvent? || key.OnGlobal?) && effect == Defer(Activate(m.nextSubscriber))
    case _ => false
  }

  lemma ReachedBy(s: State, body: Script, op: Op, effect: Effect)
    requires Inv(s) && Outside(s) && Updated(s, body + [op]).ok
    requires Queues(Ran(Started(s), body), op, effect)
    ensures Reaches(Updated(s, body + [op]).turns, effect)
  {
    hide Inv, Within, Ran, Did, Updated, Fuel, Load, RoundFor, Queues;
    StartedKeeps(s);
    RanKeeps(Started(s), body);
    WithinFields(Started(s), Ran(Started(s), body), CLOSERS);
    RanThen(Started(s), body, op);
    OpQueues(Ran(Started(s), body), op, effect);
    QueuedIsReached(s, body + [op], effect);
  }

  lemma OpQueues(m: State, op: Op, effect: Effect)
    requires Inv(m) && m.pendingUpdates >= 1 && Queues(m, op, effect)
    ensures effect in Did(m, op).effects
  {
    hide Inv, Within, Ran, Pushed, Fuel, Load, Enlisted, Announced;
    match op
    case DoNotify(e) => PushedIsQueued(m, effect);
    case DoNotifyGlobal(g) => PushedIsQueued(m, effect);
    case DoEmit(e, eventType) => QueuedIsLast(m, effect);
    case DoRefresh => QueuedIsLast(m, effect);
    case DoDefer => PushedIsQueued(m, effect);
    case DoNewEntity(e, tid, build) => CreatedInInnermost(m, e, tid, build);
    case DoSubscribe(key, eventType) => SubscribeQueues(m, key, eventType);
  }

  lemma SubscribeQueues(m: State, key: Key, eventType: TypeId)
    requires Inv(m) && (key.OnNotify? || key.OnEvent? || key.OnGlobal?)
    ensures Defer(Activate(m.nextSubscriber)) in Subscribed(m, key, eventType).effects
  {
    SubscribeOrdered(m, key, eventType);
    SubscribersSelf(m.subscribers, m.nextSubscriber);
    var t := Enlisted(m, key, eventType);
    TableKeeps(m, t);
    hide Inv, Pushed;
    PushedIsQueued(t, Defer(Activate(m.nextSubscriber)));
  }

  /** Subscriptions only ever become active during a flush. */
  lemma {:induction false} ActiveGrows(s: State, i: nat)
    requires Inv(s) && FlushLevel(s) && Flushed(s).ok && i <= |Flushed(s).turns|
    ensures (if i == 0 then s else Flushed(s).turns[i - 1].after).active <= Flushed(s).end.active
    decreases Load(s)
  {
    hide Inv, Within, ReleasedAll, AppliedNext, ArenaReset, DealtWith, Load, TurnLaw, InOrder, FlushLevel, AllTold, Gone;
    var r := ReleasedAll(s);
    FlushDepth(s);
    ReleasedAllKeeps(s);
    WithinFields(s, r, RELEASERS);
    FlushLevelStays(s, r, RELEASERS);
    if r.effects == [] {
      ActiveSame(r);
    } else {
      AppliedNextKeeps(r);
      LessToDo(s);
      var c := AppliedNext(r);
      ActiveApplied(r);
      if i == 0 {
        ActiveGrows(c.end, 0);
      } else {
        ActiveGrows(c.end, i - 1);
        assert i > 1 ==> Flushed(s).turns[i - 1] == Flushed(c.end).turns[i - 2];
      }
    }
  }

  lemma ActiveSame(s: State)
    ensures ArenaReset(s).active == s.active
  {
  }

  lemma ActiveApplied(r: State)
    requires Inv(r) && FlushLevel(r) && r.effects != [] && AppliedNext(r).ok
    ensures r.active <= AppliedNext(r).end.active
  {
    hide Inv, Within, AppliedNext, DealtWith, AbortedOnClosedWindow, FlushLevel, RunsOf;
    AppliedNextKeeps(r);
    PoppedFields(r, OnWindowClosed);
    WithinFields(Acknowledged(Popped(r), r.effects[0]), AppliedNext(r).end, ANY);
  }

  /** A subscription that an update makes is active by its end, in every set. */
  lemma SubscribedIsActive(s: State, body: Script, key: Key, eventType: TypeId)
    requires Inv(s) && Outside(s) && Updated(s, body + [DoSubscribe(key, eventType)]).ok
    ensures Ran(Started(s), body).nextSubscriber in Updated(s, body + [DoSubscribe(key, eventType)]).end.active
  {
    hide Inv, Within, Ran, Did, Updated, Reaches, Fuel, Load;
    var op := DoSubscribe(key, eventType);
    var m := Ran(Started(s), body);
    if key.OnNotify? || key.OnEvent? || key.OnGlobal? {
      OperationReaches(s, body, op);
      ActivatedStays(s, body + [op], m.nextSubscriber);
    } else {
      StartedKeeps(s);
      RanKeeps(Started(s), body);
      RanThen(Started(s), body, op);
      SubscribesAtOnce(m, key, eventType);
      ActiveStays(s, body + [op]);
    }
  }

  lemma ActivatedStays(s: State, body: Script, id: SubscriberId)
    requires Inv(s) && Outside(s) && Updated(s, body).ok && Reaches(Updated(s, body).turns, Defer(Activate(id)))
    ensures id in Updated(s, body).end.active
  {
    hide Inv, Within, Ran, Flushed, Fuel, Load, Reaches, TurnLaw, FlushLevel;
    UpdateFlushes(s, body);
    var i := RoundOf(Updated(s, body).turns, Defer(Activate(id)));
    ActiveGrows(FlushFrom(s, body), i + 1);
  }

  lemma ActiveStays(s: State, body: Script)
    requires Inv(s) && Outside(s) && Updated(s, body).ok
    ensures Ran(Started(s), body).active <= Updated(s, body).end.active
  {
    hide Inv, Within, Ran, Flushed, Fuel, Load, FlushLevel;
    UpdateFlushes(s, body);
    ActiveGrows(FlushFrom(s, body), 0);
  }

  lemma RoundOf(turns: seq<Turn>, effect: Effect) returns (i: nat)
    requires Reaches(turns, effect)
    ensures i < |turns| && RoundFor(turns[i], effect)
    ensures effect.Defer? && effect.callback.Activate? ==> effect.callback.id in turns[i].after.active
  {
    i :| 0 <= i < |turns| && RoundFor(turns[i], effect);
  }

  lemma SubscribesAtOnce(m: State, key: Key, eventType: TypeId)
    requires Inv(m) && !(key.OnNotify? || key.OnEvent? || key.OnGlobal?)
    ensures m.nextSubscriber in Did(m, DoSubscribe(key, eventType)).active
  {
    hide Inv;
    SubscribedLast(m, key, eventType);
  }

  /** An entity that an update drops is released before any effect is applied: nothing that it had is left, and
      its release listeners have been told. */
  lemma DroppedIsReleased(s: State, body: Script, e: EntityId)
    requires Inv(s) && Outside(s)
    ensures var t := FlushFrom(s, body + [DoDropEntity(e)]);
            e in t.droppedEntities && AllTold(t) && Gone(t, ReleasedAll(t), e)
  {
    hide Inv, Within, Ran, Flushed, Fuel, Load, ReleasedAll, AllTold, Gone;
    var op := DoDropEntity(e);
    var m := Ran(Started(s), body);
    UpdateFlushes(s, body + [op]);
    RanThen(Started(s), body, op);
    assert (m.droppedEntities + [e])[|m.droppedEntities|] == e;
    var t := FlushFrom(s, body + [op]);
    FlushDepth(t);
    ReleasedAllKeeps(t);
  }

  /** Cancelling a subscription takes it out of its list, where it is the only change, and marks it, so that it is
      not invoked even if its turn would have come in a round that is going on. */
  lemma CancelTakesOut(s: State, key: Key, id: SubscriberId)
    requires Inv(s)
    ensures var t := Did(s, DoUnsubscribe(key, id));
            id in t.dropped && OnlyGoes(s.subscribers, t.subscribers, key, id) && t.log == s.log + [Dropped(id)]
  {
    hide Inv, Within, OnlyGoes, Fuel, Load;
    UnsubscribedKeeps(s, key, id);
    assert Did(s, DoUnsubscribe(key, id)) == Unsubscribed(s, key, id);
  }

  /** Code outside all updates is heard as well: what it asks for is queued for the next update. */
  lemma DirectlyAsked(s: State, e: EntityId)
    requires Inv(s)
    ensures var c := Commanded(s, Directly(DoNotify(e)));
            c.ok && RequestedIn(s.log, c.end.log, e) && Notify(e) in c.end.effects
  {
    hide Inv, Pushed, RequestedIn, Fuel, Load;
    NotifyRequests(s, e);
    PushedIsQueued(s, Notify(e));
  }

  /** And the body of an update that is part of a run is performed. */
  lemma CommandAsks(s: State, body: Script, e: EntityId)
    requires Inv(s) && Outside(s) && Asks(body, e) && Commanded(s, Outermost(body)).ok
    ensures RequestedIn(s.log, Commanded(s, Outermost(body)).end.log, e)
  {
    hide Inv, Ran, Updated, RequestedIn, Asks, Fuel, Load;
    StartedKeeps(s);
    AskedIsRequested(Started(s), body, e);
    EndLog(s, body);
    RequestedWithin(s.log, s.log, Ran(Started(s), body).log, Updated(s, body).end.log, e);
  }

  // ----- Windows -----

  /** Updating a window with a callback that does nothing is noted in the log and changes nothing else. */
  lemma QuietWindowUpdate(s: State, w: WindowId)
    requires Inv(s) && w in s.windows && s.windows[w] == Occupied && w !in s.removed
    ensures UpdatedWindow(s, w, []) == s.(log := s.log + [WindowRan(w)])
  {
    hide Inv, Fuel, Load, Costs;
    var t := Logged(Started(s), WindowRan(w));
    var c := CheckedOut(t, w);
    RanNone(c);
    assert Left(c, w) == Returned(c, w);
    assert RanIn(t, w, []) == Returned(c, w);
    hide Ran, Retained, RanIn, Left;
    assert c.stack[..|c.stack| - 1] == s.stack;
    assert c.windows[w := Occupied] == s.windows;
  }

  /** A window that is being updated or opened is refused to every nested update: its callback does not run, and
      nothing but the log changes. */
  lemma NestedRefused(s: State, w: WindowId, body: Script)
    requires Inv(s) && (w in s.stack || w in s.opening)
    ensures UpdatedWindow(s, w, body) == s.(log := s.log + [WindowRefused(w)])
  {
    assert WindowsConsistent(s.windows, s.handles, s.nextWindow, s.stack, s.opening);
    assert w in Vacancies(s.windows);
    hide Inv, RanIn, Costs;
  }

  /** A window whose callback ends with marking it is closed. */
  lemma MarkedIsClosed(s: State, w: WindowId, body: Script)
    requires Inv(s) && s.pendingUpdates >= 1 && w in s.windows && s.windows[w] == Occupied
    ensures w !in UpdatedWindow(s, w, body + [DoRemoveWindow(w)]).windows
  {
    hide Inv, Within, Ran, Left, Delivered, Fuel, Load, InSlot, NoSlot;
    var t := Logged(Started(s), WindowRan(w));
    StartedKeeps(s);
    LoggedKeeps(Started(s), WindowRan(w));
    var c := CheckedOut(t, w);
    CheckedOutConsistent(t, w);
    RanKeeps(c, body);
    WindowWraps(t, Ran(c, body), w);
    RanThen(c, body, DoRemoveWindow(w));
    var x := Ran(c, body + [DoRemoveWindow(w)]);
    assert w in x.removed;
    RanKeeps(c, body + [DoRemoveWindow(w)]);
    LeftKeeps(t, x, w);
  }
}
