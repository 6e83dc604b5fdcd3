/**
 What the operations of the application machine do, as functions of the state: user code, subscriber
 callbacks, window updates and flushes, however deeply they are nested. The methods in app.dfy are proved to
 compute exactly these functions, and app_laws.dfy proves what they keep.

 `Fuel` counts what is left in the reactions. Every function that runs callbacks promises not to raise it,
 which is why these functions, and a flush, terminate.
 */
module AppSemantics {
  import opened Options
  import opened AppState
  import opened AppSteps

  // ----- User code -----

  function InnermostWindow(s: State): Option<WindowId> {
    if s.stack == [] then None else Some(s.stack[|s.stack| - 1])
  }

  /** The window is in its slot. */
  predicate Available(s: State, w: WindowId) {
    w in s.windows && s.windows[w] == Occupied
  }

  /** Runs no code of its own. */
  predicate IsLeaf(op: Op) {
    !(op.DoNewEntity? || op.DoUpdate? || op.DoUpdateWindow? || op.DoOpenWindow?)
  }

  function Leaf(s: State, op: Op): (t: State)
    requires IsLeaf(op)
    ensures Costs(s, t, 1)
  {
    match op
    case DoNotify(e) => Pushed(s, Notify(e))
    case DoNotifyGlobal(g) => Pushed(s, NotifyGlobalObservers(g))
    case DoEmit(e, eventType) => Queued(s, Emit(e, eventType, EventBox(s.arenaEpoch)))
    case DoRefresh => Queued(s, RefreshWindows)
    case DoDefer => Pushed(s, Defer(Callback))
    case DoSubscribe(key, eventType) => Subscribed(s, key, eventType)
    case DoUnsubscribe(key, id) => Unsubscribed(s, key, id)
    case DoDropEntity(e) => s.(droppedEntities := s.droppedEntities + [e])
    case DoRemoveWindow(w) =>
      // Only code that holds the window can mark it, while it is updated, built or drawn.
      if w in s.windows && s.windows[w] == Vacant then s.(removed := s.removed + {w}) else s
  }

  /** The state after a script. */
  function Ran(s: State, script: Script): (t: State)
    ensures Costs(s, t, ScriptSize(script))
    decreases Fuel(s) + ScriptSize(script), 3, 0
  {
    if script == [] then s else Ran(Did(s, script[0]), script[1..])
  }

  /** The state after one operation inside an update. */
  function Did(s: State, op: Op): (t: State)
    ensures Costs(s, t, OpSize(op))
    decreases Fuel(s) + OpSize(op), 2, 0
  {
    match op
    case DoUpdate(body) => Finished(Ran(Started(s), body))
    case DoNewEntity(e, tid, build) => Finished(Announced(Ran(Started(s), build), e, tid))
    case DoUpdateWindow(w, body) => UpdatedWindow(s, w, body)
    case DoOpenWindow(succeeds, create, build, draw) => Finished(Opened(Started(s), succeeds, create, build, draw))
    case _ => Leaf(s, op)
  }

  /** A new entity remembers the innermost window being updated. */
  function Announced(s: State, e: EntityId, tid: TypeId): (t: State)
    ensures Costs(s, t, 1)
  {
    Pushed(s, EntityCreated(e, tid, InnermostWindow(s)))
  }

  // ----- Windows -----

  /** `update_window_erased`: refused unless the window is in its slot. */
  function UpdatedWindow(s: State, w: WindowId, body: Script): (t: State)
    ensures Costs(s, t, ScriptSize(body))
    decreases Fuel(s) + ScriptSize(body), 6, 0
  {
    if Available(s, w) then Finished(RanIn(Logged(Started(s), WindowRan(w)), w, body)) else Logged(s, WindowRefused(w))
  }

  /** The window is on the stack while the script runs. */
  function RanIn(s: State, w: WindowId, body: Script): (t: State)
    ensures Costs(s, t, ScriptSize(body))
    decreases Fuel(s) + ScriptSize(body), 5, 0
  {
    Left(Ran(CheckedOut(s, w), body), w)
  }

  /** The window comes off the stack. If it was marked it is closed, and the observers of closed windows are
      told; otherwise it goes back to its slot, if that still exists. */
  function Left(s: State, w: WindowId): (t: State)
    ensures Costs(s, t, 0)
    decreases Fuel(s), 4, 0
  {
    if w in s.removed then Retained(Closed(s, w), OnWindowClosed, None, None).end
    else if w in s.windows then Returned(s, w)
    else Unstacked(s)
  }

  /** `open_window`: a new slot stays empty while the window is created, built and drawn. */
  function Opened(s: State, succeeds: bool, create: Script, build: Script, draw: Script): (t: State)
    ensures Costs(s, t, 1 + ScriptSize(create) + ScriptSize(build) + ScriptSize(draw))
    decreases Fuel(s) + 1 + ScriptSize(create) + ScriptSize(build) + ScriptSize(draw), 1, 0
  {
    var created := Ran(SlotOpened(s), create);
    if succeeds then SlotFilled(Built(created, s.nextWindow, build, draw), s.nextWindow)
    else SlotAbandoned(created, s.nextWindow)
  }

  /** The root view is built with the window on the stack; its first appearance change is deferred. */
  function Built(s: State, w: WindowId, build: Script, draw: Script): (t: State)
    ensures Costs(s, t, 1 + ScriptSize(build) + ScriptSize(draw))
    decreases Fuel(s) + 1 + ScriptSize(build) + ScriptSize(draw), 0, 0
  {
    Ran(Pushed(Unstacked(Ran(Building(s, w), build)), Defer(Callback)), draw)
  }

  // ----- Callbacks -----

  /** A callback performs the next reaction. */
  function Reacted(s: State): (t: State)
    ensures Costs(s, t, 0)
    decreases Fuel(s), 0, 0
  {
    if s.reactions == [] then s else Ran(ReactionTaken(s), NextScript(s))
  }

  /** `ok` unless the flush was aborted. */
  datatype Call = Call(ok: bool, end: State)

  /** One subscriber is invoked. A listener for new entities gets the window the entity was created in, which
      is expected to be in its slot. */
  function Called(s: State, key: Key, id: SubscriberId, window: Option<WindowId>): (c: Call)
    ensures Costs(s, c.end, 0)
    decreases Fuel(s), if key.OnNew? then 7 else 1, 0
  {
    var t := Logged(s, Invoked(key, id));
    if !key.OnNew? || window.None? then Call(true, Reacted(t))
    else if Available(s, window.value) then Call(true, UpdatedWindow(ReactionTaken(t), window.value, NextScript(t)))
    else Call(false, Logged(Logged(s, WindowRefused(window.value)), Panicked(window.value)))
  }

  /** Active, of the event type that is delivered, and not cancelled. */
  predicate Callable(s: State, sub: Subscriber, eventType: Option<TypeId>) {
    sub.id in s.active && sub.id !in s.dropped && (eventType.None? || sub.eventType == eventType.value)
  }

  /** Whether the subscriber that is invoked next wants to stay; some sets never ask. */
  predicate WantsToStay(s: State, key: Key) {
    key.OnWindowClosed? || key.OnNew? || s.reactions == [] || s.reactions[0].keep
  }

  /** A round of invocations: who was invoked and who stays. */
  datatype Round = Round(ok: bool, end: State, called: seq<SubscriberId>, kept: seq<Subscriber>)

  function Preceded(called: seq<SubscriberId>, kept: seq<Subscriber>, rest: Round): Round {
    Round(rest.ok, rest.end, called + rest.called, kept + rest.kept)
  }

  /** The subscribers of a list have their turns, one after another. */
  function RoundOver(s: State, key: Key, list: seq<Subscriber>, eventType: Option<TypeId>, window: Option<WindowId>)
    : (r: Round)
    ensures Costs(s, r.end, 0)
    decreases Fuel(s), if key.OnNew? then 8 else 2, |list|
  {
    if list == [] then Round(true, s, [], [])
    else
      var sub := list[0];
      if !Callable(s, sub, eventType) then
        var kept := if sub.id in s.active && sub.id in s.dropped then [] else [sub];
        Preceded([], kept, RoundOver(s, key, list[1..], eventType, window))
      else
        var c := Called(s, key, sub.id, window);
        if !c.ok then Round(false, c.end, [], [])
        else
          var kept := if WantsToStay(s, key) && sub.id !in c.end.dropped then [sub] else [];
          Preceded([sub.id], kept, RoundOver(c.end, key, list[1..], eventType, window))
  }

  /** `SubscriberSet::retain`: the subscribers are out of the table during their round. */
  function Retained(s: State, key: Key, eventType: Option<TypeId>, window: Option<WindowId>): (r: Round)
    ensures Costs(s, r.end, 0)
    decreases Fuel(s), if key.OnNew? then 9 else 3, 0
  {
    if key !in s.subscribers then Round(true, s, [], [])
    else
      var r := RoundOver(Taken(s, key), key, s.subscribers[key], eventType, window);
      if r.ok then r.(end := Merged(r.end, key, r.kept)) else r
  }

  // ----- Releasing entities -----

  function Forgotten(s: State, e: EntityId): (t: State)
    ensures Costs(s, t, 0)
  {
    s.(subscribers := s.subscribers - {OnNotify(e)} - {OnEvent(e)} - {OnRelease(e)})
  }

  /** Release listeners are invoked even if an earlier one cancels them. */
  function ReleasedTo(s: State, e: EntityId, list: seq<Subscriber>): (r: Round)
    ensures Costs(s, r.end, 0)
    decreases |list|
  {
    if list == [] then Round(true, s, [], [])
    else if list[0].id in s.active then
      Preceded([list[0].id], [], ReleasedTo(Called(s, OnRelease(e), list[0].id, None).end, e, list[1..]))
    else ReleasedTo(s, e, list[1..])
  }

  function Released(s: State, e: EntityId): (t: State)
    ensures Costs(s, t, 0)
  {
    ReleasedTo(Forgotten(s, e), e, Listed(s.subscribers, OnRelease(e))).end
  }

  function ReleasedEach(s: State, entities: seq<EntityId>): (t: State)
    ensures Costs(s, t, 0)
    decreases |entities|
  {
    if entities == [] then s else ReleasedEach(Released(s, entities[0]), entities[1..])
  }

  /** `release_dropped_entities`: until there is none left. */
  function ReleasedAll(s: State): (t: State)
    ensures Costs(s, t, 0) && t.droppedEntities == []
    ensures s.droppedEntities == [] ==> t == s
    decreases Load(s)
  {
    if s.droppedEntities == [] then s
    else ReleasedAll(ReleasedEach(s.(droppedEntities := []), s.droppedEntities))
  }

  // ----- Flushing -----

  /** Whose subscribers an effect is for, of which event type, and in which window they run. */
  function KeyOf(effect: Effect): Option<Key> {
    match effect
    case Notify(e) => Some(OnNotify(e))
    case Emit(e, _, _) => Some(OnEvent(e))
    case NotifyGlobalObservers(g) => Some(OnGlobal(g))
    case EntityCreated(_, tid, _) => Some(OnNew(tid))
    case _ => None
  }

  function EventTypeOf(effect: Effect): Option<TypeId> {
    if effect.Emit? then Some(effect.eventType) else None
  }

  function WindowOf(effect: Effect): Option<WindowId> {
    if effect.EntityCreated? then effect.window else None
  }

  /** The effect has been popped; a notification is no longer pending, so that its observers can request it
      again. */
  function Handled(s: State, effect: Effect): (c: Call)
    ensures Costs(s, c.end, 0)
  {
    match effect
    case RefreshWindows => Call(true, s)
    case Defer(Activate(id)) => Call(true, Activated(s, id))
    case Defer(Callback) => Call(true, Reacted(s))
    case _ =>
      var r := Retained(s, KeyOf(effect).value, EventTypeOf(effect), WindowOf(effect));
      Call(r.ok, r.end)
  }

  /** The oldest effect leaves the queue and is applied. */
  function AppliedNext(s: State): (c: Call)
    requires s.effects != []
    ensures Costs(Popped(s), c.end, 0)
  {
    Handled(Acknowledged(Popped(s), s.effects[0]), s.effects[0])
  }

  /** One round of the flush loop: an effect that was first in the queue and what applying it led to. */
  datatype Turn = Turn(before: State, after: State)

  datatype Flow = Flow(ok: bool, end: State, turns: seq<Turn>)

  /** `flush_effects`: effects are applied, oldest first, with dropped entities released in between. */
  function Flushed(s: State): (f: Flow)
    decreases Load(s)
  {
    var r := ReleasedAll(s);
    if r.effects == [] then Flow(true, ArenaReset(r), [])
    else
      var c := AppliedNext(r);
      var turn := Turn(r, c.end);
      if !c.ok then Flow(false, c.end, [turn])
      else
        var rest := Flushed(c.end);
        Flow(rest.ok, rest.end, [turn] + rest.turns)
  }

  /** `finish_update` */
  function Finishing(s: State): Flow {
    if s.flushing || s.pendingUpdates != 1 then Flow(true, Finished(s), [])
    else
      var f := Flushed(FlushStarted(s));
      if f.ok then f.(end := Finished(FlushStopped(f.end))) else f
  }

  /** `App::update` with this body. */
  function Updated(s: State, body: Script): Flow {
    Finishing(Ran(Started(s), body))
  }
}
