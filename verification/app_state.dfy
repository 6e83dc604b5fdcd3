/**
 The update and effect machine of `App` (crates/gpui/src/app.rs): what its state is, what holds in every
 reachable state, and what any code that runs inside an update leaves unchanged. The class that changes the
 state is in app.dfy.

 User code is a finite script. A subscriber or deferred callback is only known by its identity; what its
 next invocation does is the head of `reactions`, so a run may do anything that a terminating run could do.
 */
module AppState {
  import opened Options
  import opened Sequences

  type EntityId = nat
  type TypeId = nat
  type WindowId = nat
  type SubscriberId = nat

  // ----- Effects, subscribers and scripts -----

  /** A box in the event arena: it may be dereferenced while its epoch is the arena's. */
  datatype EventBox = EventBox(epoch: nat)

  datatype Deferred = Callback | Activate(id: SubscriberId)

  datatype Effect =
    | Notify(emitter: EntityId)
    | Emit(source: EntityId, eventType: TypeId, event: EventBox)
    | RefreshWindows
    | NotifyGlobalObservers(global: TypeId)
    | Defer(callback: Deferred)
    | EntityCreated(entity: EntityId, tid: TypeId, window: Option<WindowId>)
  {
    /** Queued at most once at a time. */
    predicate Deduplicated() {
      Notify? || NotifyGlobalObservers?
    }
  }

  /** One subscriber set of the application and one emitter in it. */
  datatype Key =
    | OnNotify(entity: EntityId)
    | OnEvent(entity: EntityId)
    | OnGlobal(global: TypeId)
    | OnNew(tid: TypeId)
    | OnRelease(entity: EntityId)
    | OnWindowClosed
  {
    /** Subscriptions of these sets start inert and are activated by a deferred effect. */
    predicate ActivatedLater() {
      OnNotify? || OnEvent? || OnGlobal?
    }
  }

  datatype Subscriber = Subscriber(id: SubscriberId, eventType: TypeId)

  datatype Op =
    | DoNotify(entity: EntityId)
    | DoNotifyGlobal(global: TypeId)
    | DoEmit(entity: EntityId, eventType: TypeId)
    | DoRefresh
    | DoDefer
    | DoSubscribe(key: Key, eventType: TypeId)
    | DoUnsubscribe(key: Key, id: SubscriberId)
    | DoNewEntity(entity: EntityId, tid: TypeId, build: seq<Op>)
    | DoDropEntity(entity: EntityId)
    | DoUpdate(body: seq<Op>)
    | DoUpdateWindow(window: WindowId, body: seq<Op>)
    | DoRemoveWindow(window: WindowId)
    | DoOpenWindow(succeeds: bool, create: seq<Op>, build: seq<Op>, draw: seq<Op>)

  type Script = seq<Op>

  datatype Reaction = Reaction(script: Script, keep: bool)

  function OpSize(op: Op): (n: nat)
    ensures n >= 1
  {
    match op
    case DoNewEntity(_, _, build) => 1 + ScriptSize(build)
    case DoUpdate(body) => 1 + ScriptSize(body)
    case DoUpdateWindow(_, body) => 1 + ScriptSize(body)
    case DoOpenWindow(_, create, build, draw) => 2 + ScriptSize(create) + ScriptSize(build) + ScriptSize(draw)
    case _ => 1
  }

  function ScriptSize(script: Script): nat {
    if script == [] then 0 else OpSize(script[0]) + ScriptSize(script[1..])
  }

  function ReactionsSize(reactions: seq<Reaction>): nat {
    if reactions == [] then 0 else 1 + ScriptSize(reactions[0].script) + ReactionsSize(reactions[1..])
  }

  // ----- State -----

  /** A window slot is empty while the window is being updated or opened. */
  datatype Slot = Vacant | Occupied

  /** What happened, for stating properties of whole runs. */
  datatype Event =
    | Requested(effect: Effect)
    | Applied(effect: Effect)
    | Invoked(key: Key, id: SubscriberId)
    | Dropped(id: SubscriberId)
    | WindowRan(window: WindowId)
    | WindowRefused(window: WindowId)
    | FlushBegan(depth: nat)
    | ArenaCleared(queued: nat)
    | FlushEnded
    | Panicked(window: WindowId)

  datatype State = State(
    pendingUpdates: nat,
    flushing: bool,
    effects: seq<Effect>,
    notifications: set<EntityId>,
    globalNotifications: set<TypeId>,
    arenaEpoch: nat,
    subscribers: map<Key, seq<Subscriber>>,
    nextSubscriber: SubscriberId,
    active: set<SubscriberId>,
    dropped: set<SubscriberId>,
    droppedEntities: seq<EntityId>,
    windows: map<WindowId, Slot>,
    handles: set<WindowId>,
    nextWindow: WindowId,
    stack: seq<WindowId>,
    removed: set<WindowId>,
    reactions: seq<Reaction>,
    // history
    pushed: seq<Effect>,
    applied: seq<Effect>,
    opening: set<WindowId>,
    log: seq<Event>
  )

  function Fuel(s: State): nat {
    ReactionsSize(s.reactions)
  }

  /** Work left for a flush: every invocation and every queued item is paid for. */
  function Load(s: State): nat {
    Fuel(s) + |s.effects| + |s.droppedEntities|
  }

  /** From `s` to `t` no more work was added than `cost` pays for. */
  predicate Costs(s: State, t: State, cost: nat) {
    Fuel(t) <= Fuel(s) && Load(t) <= Load(s) + cost
  }

  function Vacancies(windows: map<WindowId, Slot>): set<WindowId> {
    set w | w in windows && windows[w] == Vacant
  }

  /** The subscribers of `key` that were invoked, oldest first. */
  function RunsOf(log: seq<Event>, key: Key): seq<SubscriberId> {
    if log == [] then []
    else
      var last := log[|log| - 1];
      RunsOf(log[..|log| - 1], key) + (if last.Invoked? && last.key == key then [last.id] else [])
  }

  // ----- Invariants -----

  /** The pending sets are exactly the emitters that have a notification in the queue, queued once. */
  ghost predicate QueueMatches(queue: seq<Effect>, notifications: set<EntityId>, globals: set<TypeId>) {
    && (forall e :: e in notifications <==> Notify(e) in queue)
    && (forall g :: g in globals <==> NotifyGlobalObservers(g) in queue)
    && (forall i, j :: 0 <= i < j < |queue| && queue[i].Deduplicated() ==> queue[i] != queue[j])
  }

  ghost predicate EventsLive(queue: seq<Effect>, epoch: nat) {
    forall i :: 0 <= i < |queue| && queue[i].Emit? ==> queue[i].event.epoch == epoch
  }

  ghost predicate Pending(effect: Effect, notifications: set<EntityId>, globals: set<TypeId>) {
    match effect
    case Notify(e) => e in notifications
    case NotifyGlobalObservers(g) => g in globals
    case _ => false
  }

  /** The notification requested at `k` is applied strictly between `k` and `end`. */
  ghost predicate Served(log: seq<Event>, k: nat, end: nat)
    requires k < |log| && end <= |log| && log[k].Requested?
  {
    exists m :: k < m < end && log[m] == Applied(log[k].effect)
  }

  /** No request is lost: it is still pending or has been applied since, and always before a flush ends. */
  ghost predicate NothingLost(log: seq<Event>, notifications: set<EntityId>, globals: set<TypeId>) {
    && (forall k :: 0 <= k < |log| && log[k].Requested? ==>
          log[k].effect.Deduplicated()
          && (Pending(log[k].effect, notifications, globals) || Served(log, k, |log|)))
    && (forall k, f :: 0 <= k < f < |log| && log[k].Requested? && log[f].FlushEnded? ==> Served(log, k, f))
  }

  /** Flushes begin at the outermost update only, never nest, and are the only place where effects are
      applied; the event arena is cleared in a flush and with nothing queued. */
  ghost predicate Flushes(log: seq<Event>, flushing: bool) {
    if log == [] then !flushing
    else
      var front := log[..|log| - 1];
      match log[|log| - 1]
      case FlushBegan(depth) => flushing && depth == 1 && Flushes(front, false)
      case FlushEnded => !flushing && Flushes(front, true)
      case Applied(_) => flushing && Flushes(front, true)
      case ArenaCleared(queued) => flushing && queued == 0 && Flushes(front, true)
      case _ => Flushes(front, flushing)
  }

  /** A window is absent from its slot exactly while it is on the update stack or being opened. */
  ghost predicate WindowsConsistent(windows: map<WindowId, Slot>, handles: set<WindowId>, next: WindowId,
                                    stack: seq<WindowId>, opening: set<WindowId>)
  {
    && Distinct(stack)
    && (forall w :: w in stack ==> w in Vacancies(windows))
    && (forall w :: w in opening ==> w in Vacancies(windows))
    && (forall w :: w in Vacancies(windows) ==> w in stack || w in opening)
    && (forall w :: w in handles <==> w in windows && w !in opening)
    && (forall w :: w in windows ==> w < next)
  }

  ghost predicate Ascending(list: seq<Subscriber>) {
    forall i, j :: 0 <= i < j < |list| ==> list[i].id < list[j].id
  }

  ghost predicate SubscribersOrdered(subscribers: map<Key, seq<Subscriber>>, next: SubscriberId) {
    forall k :: k in subscribers ==>
      Ascending(subscribers[k])
      && forall i :: 0 <= i < |subscribers[k]| ==> subscribers[k][i].id < next
  }

  /** A cancelled subscriber is never invoked again; only release listeners, once their entity is being
      released, are past cancelling. */
  ghost predicate NothingAfterDrop(log: seq<Event>, dropped: set<SubscriberId>) {
    && (forall i :: 0 <= i < |log| && log[i].Dropped? ==> log[i].id in dropped)
    && (forall i, j :: 0 <= i < j < |log| && log[i].Dropped? && log[j].Invoked? && log[j].id == log[i].id ==>
          log[j].key.OnRelease?)
  }

  /** `popped` was taken off the queue but has not been accounted for yet. */
  ghost predicate InvWith(s: State, popped: seq<Effect>) {
    && QueueMatches(popped + s.effects, s.notifications, s.globalNotifications)
    && EventsLive(s.effects, s.arenaEpoch)
    && s.pushed == s.applied + s.effects
    && NothingLost(s.log, s.notifications, s.globalNotifications)
    && Flushes(s.log, s.flushing)
    && NothingAfterDrop(s.log, s.dropped)
    && WindowsConsistent(s.windows, s.handles, s.nextWindow, s.stack, s.opening)
    && SubscribersOrdered(s.subscribers, s.nextSubscriber)
    && (s.flushing ==> s.pendingUpdates >= 1)
  }

  ghost predicate Inv(s: State) {
    InvWith(s, [])
  }

  /** Outside all updates. Code that runs here may queue effects and drop entities, which then wait for the next
      outermost update. */
  ghost predicate Outside(s: State) {
    s.pendingUpdates == 0 && !s.flushing && s.stack == [] && s.opening == {}
  }

  /** At the end of an outermost update nothing is left to do. */
  ghost predicate Idle(s: State) {
    && Outside(s) && s.effects == [] && s.droppedEntities == []
    && s.notifications == {} && s.globalNotifications == {}
  }

  // ----- What code inside an update leaves alone -----

  ghost predicate FlushEvent(e: Event) {
    e.FlushBegan? || e.FlushEnded? || e.Applied? || e.ArenaCleared?
  }

  /** No flush event is added, and no subscribers run but those of the keys in `may`. */
  ghost predicate LogGrows(a: seq<Event>, b: seq<Event>, may: iset<Key>) {
    && a <= b
    && (forall i :: |a| <= i < |b| ==> !FlushEvent(b[i]))
    && (forall k: Key :: k !in may ==> RunsOf(b, k) == RunsOf(a, k))
  }

  /** Subscribers are old ones of the same key or got a new id. */
  ghost predicate SubscribersGrow(old_: map<Key, seq<Subscriber>>, new_: map<Key, seq<Subscriber>>, next: SubscriberId) {
    forall k :: k in new_ ==> forall i :: 0 <= i < |new_[k]| ==>
      new_[k][i].id >= next || (k in old_ && new_[k][i] in old_[k])
  }

  /** A window that was gone stays gone: ids are never used again. */
  ghost predicate NoReopening(old_: map<WindowId, Slot>, new_: map<WindowId, Slot>, next: WindowId) {
    forall w :: w in new_ ==> w in old_ || w >= next
  }

  /** From `a` to `b` only code inside an update ran, and of the subscribers it invoked those of the keys in
      `may` only. */
  ghost predicate Within(a: State, b: State, may: iset<Key>) {
    && b.pendingUpdates == a.pendingUpdates && b.flushing == a.flushing
    && b.arenaEpoch == a.arenaEpoch && b.applied == a.applied
    && a.effects <= b.effects
    && b.stack == a.stack && b.opening == a.opening
    && Vacancies(b.windows) == Vacancies(a.windows) && a.nextWindow <= b.nextWindow
    && NoReopening(a.windows, b.windows, a.nextWindow) && a.removed <= b.removed
    && a.active <= b.active && a.dropped <= b.dropped
    && a.nextSubscriber <= b.nextSubscriber
    && SubscribersGrow(a.subscribers, b.subscribers, a.nextSubscriber)
    && LogGrows(a.log, b.log, may)
  }

  /** Inside a script only the observers of closed windows are ever invoked: all others wait for a flush. */
  ghost const CLOSERS := iset{OnWindowClosed}

  ghost predicate Nested(a: State, b: State) {
    Within(a, b, CLOSERS)
  }

  lemma WithinSelf(a: State, may: iset<Key>)
    ensures Within(a, a, may)
  {
  }

  lemma LogGrowsTransitive(a: seq<Event>, b: seq<Event>, c: seq<Event>, may: iset<Key>)
    requires LogGrows(a, b, may) && LogGrows(b, c, may)
    ensures LogGrows(a, c, may)
  {
    forall i | |a| <= i < |c| ensures !FlushEvent(c[i]) {
      if i < |b| {
        assert c[i] == b[i];
      }
    }
  }

  lemma WithinTransitive(a: State, b: State, c: State, may: iset<Key>)
    requires Within(a, b, may) && Within(b, c, may)
    ensures Within(a, c, may)
  {
    LogGrowsTransitive(a.log, b.log, c.log, may);
    hide LogGrows, Vacancies;
  }

  lemma WithinWeaker(a: State, b: State, may: iset<Key>, more: iset<Key>)
    requires Within(a, b, may) && may <= more
    ensures Within(a, b, more)
  {
  }

  // ----- Steps -----

  function Logged(s: State, e: Event): (t: State)
    ensures Costs(s, t, 0)
  {
    s.(log := s.log + [e])
  }

  /** `push_effect`: a notification that is already pending is not queued again. */
  function Pushed(s: State, effect: Effect): (t: State)
    ensures Costs(s, t, 1)
  {
    var t := if effect.Deduplicated() then Logged(s, Requested(effect)) else s;
    match effect
    case Notify(e) =>
      if e in s.notifications then t
      else Queued(t.(notifications := s.notifications + {e}), effect)
    case NotifyGlobalObservers(g) =>
      if g in s.globalNotifications then t
      else Queued(t.(globalNotifications := s.globalNotifications + {g}), effect)
    case _ =>
      Queued(t, effect)
  }

  function Queued(s: State, effect: Effect): (t: State)
    ensures Costs(s, t, 1)
  {
    s.(effects := s.effects + [effect], pushed := s.pushed + [effect])
  }

  lemma RunsOfLogged(log: seq<Event>, e: Event, key: Key)
    ensures RunsOf(log + [e], key) == RunsOf(log, key) + (if e.Invoked? && e.key == key then [e.id] else [])
    ensures !(e.Invoked? && e.key == key) ==> RunsOf(log + [e], key) == RunsOf(log, key)
  {
    assert (log + [e])[..|log|] == log;
  }

  lemma ServedStays(log: seq<Event>, more: seq<Event>, k: nat, end: nat)
    requires k < |log| && end <= |log| && log[k].Requested? && Served(log, k, end)
    ensures Served(log + more, k, end)
  {
    var m :| k < m < end && log[m] == Applied(log[k].effect);
    assert (log + more)[m] == log[m];
  }

  /** An event that is neither a request nor the end of a flush loses nothing. */
  lemma NothingLostLogged(log: seq<Event>, ns: set<EntityId>, gs: set<TypeId>, e: Event)
    requires NothingLost(log, ns, gs) && !e.FlushEnded?
    requires e.Requested? ==> e.effect.Deduplicated() && Pending(e.effect, ns, gs)
    ensures NothingLost(log + [e], ns, gs)
  {
    var more := log + [e];
    forall k | 0 <= k < |more| && more[k].Requested?
      ensures more[k].effect.Deduplicated() && (Pending(more[k].effect, ns, gs) || Served(more, k, |more|))
    {
      if k < |log| && !Pending(log[k].effect, ns, gs) {
        ServedStays(log, [e], k, |log|);
        assert Served(more, k, |more|);
      }
    }
    forall k, f | 0 <= k < f < |more| && more[k].Requested? && more[f].FlushEnded? ensures Served(more, k, f) {
      ServedStays(log, [e], k, f);
    }
  }

  lemma FlushesLogged(log: seq<Event>, flushing: bool, e: Event)
    requires Flushes(log, flushing) && !FlushEvent(e)
    ensures Flushes(log + [e], flushing)
  {
    assert (log + [e])[..|log|] == log;
  }

  lemma LogGrowsLogged(log: seq<Event>, e: Event)
    requires !FlushEvent(e) && (e.Invoked? ==> e.key == OnWindowClosed)
    ensures LogGrows(log, log + [e], CLOSERS)
  {
    forall k: Key | k !in CLOSERS ensures RunsOf(log + [e], k) == RunsOf(log, k) {
      RunsOfLogged(log, e, k);
    }
  }

  lemma QueueMatchesPush(queue: seq<Effect>, ns: set<EntityId>, gs: set<TypeId>, effect: Effect)
    requires QueueMatches(queue, ns, gs)
    requires effect !in queue || !effect.Deduplicated()
    ensures QueueMatches(queue + [effect],
                         if effect.Notify? then ns + {effect.emitter} else ns,
                         if effect.NotifyGlobalObservers? then gs + {effect.global} else gs)
  {
    var longer := queue + [effect];
    assert forall e :: e in longer <==> e in queue || e == effect by {
      assert longer[|queue|] == effect;
    }
  }

  /** Neither cancelling nor an invocation of a subscriber that was not cancelled. */
  lemma NothingAfterDropLogged(log: seq<Event>, dropped: set<SubscriberId>, e: Event)
    requires NothingAfterDrop(log, dropped)
    requires e.Dropped? ==> e.id in dropped
    requires e.Invoked? ==> e.id !in dropped || e.key.OnRelease?
    ensures NothingAfterDrop(log + [e], dropped)
  {
  }

  /** Logging an event that is no flush event. */
  lemma LoggedKeeps(s: State, e: Event)
    requires Inv(s) && !FlushEvent(e)
    requires e.Requested? ==> e.effect.Deduplicated() && Pending(e.effect, s.notifications, s.globalNotifications)
    requires e.Invoked? ==> e.key == OnWindowClosed && e.id !in s.dropped
    requires e.Dropped? ==> e.id in s.dropped
    ensures Inv(Logged(s, e)) && Nested(s, Logged(s, e))
  {
    hide QueueMatches, NothingLost, NothingAfterDrop, Flushes, WindowsConsistent, SubscribersOrdered, LogGrows, SubscribersGrow, Vacancies;
    NothingLostLogged(s.log, s.notifications, s.globalNotifications, e);
    NothingAfterDropLogged(s.log, s.dropped, e);
    FlushesLogged(s.log, s.flushing, e);
    LogGrowsLogged(s.log, e);
    SubscribersSelf(s.subscribers, s.nextSubscriber);
  }

  /** Queueing an effect that is not deduplicated. */
  lemma QueuedKeeps(s: State, effect: Effect)
    requires Inv(s) && !effect.Deduplicated()
    requires effect.Emit? ==> effect.event.epoch == s.arenaEpoch
    ensures Inv(Queued(s, effect)) && Nested(s, Queued(s, effect))
  {
    hide QueueMatches, NothingLost, NothingAfterDrop, Flushes, WindowsConsistent, SubscribersOrdered, LogGrows, SubscribersGrow, Vacancies;
    assert [] + s.effects == s.effects && [] + (s.effects + [effect]) == s.effects + [effect];
    QueueMatchesPush(s.effects, s.notifications, s.globalNotifications, effect);
    EventsLivePush(s.effects, s.arenaEpoch, effect);
    WithinSelf(s, CLOSERS);
  }

  lemma PushedKeeps(s: State, effect: Effect)
    requires Inv(s) && !effect.Emit?
    ensures Inv(Pushed(s, effect)) && Nested(s, Pushed(s, effect))
  {
    hide Inv, Within;
    if !effect.Deduplicated() {
      QueuedKeeps(s, effect);
    } else if Pending(effect, s.notifications, s.globalNotifications) {
      LoggedKeeps(s, Requested(effect));
    } else {
      PushedFreshKeeps(s, effect);
    }
  }

  lemma PushedFreshKeeps(s: State, effect: Effect)
    requires Inv(s) && effect.Deduplicated() && !Pending(effect, s.notifications, s.globalNotifications)
    ensures Inv(Pushed(s, effect)) && Nested(s, Pushed(s, effect))
  {
    hide QueueMatches, NothingLost, NothingAfterDrop, Flushes, WindowsConsistent, SubscribersOrdered, LogGrows, SubscribersGrow, Vacancies, EventsLive, Pending;
    var t := Pushed(s, effect);
    assert [] + s.effects == s.effects && [] + t.effects == t.effects;
    NotQueued(s.effects, s.notifications, s.globalNotifications, effect);
    assert t.effects == s.effects + [effect];
    EventsLivePush(s.effects, s.arenaEpoch, effect);
    QueueMatchesPush(s.effects, s.notifications, s.globalNotifications, effect);
    NothingLostGrows(s.log, s.notifications, s.globalNotifications, t.notifications, t.globalNotifications);
    NothingLostLogged(s.log, t.notifications, t.globalNotifications, Requested(effect));
    NothingAfterDropLogged(s.log, s.dropped, Requested(effect));
    FlushesLogged(s.log, s.flushing, Requested(effect));
    LogGrowsLogged(s.log, Requested(effect));
    WithinSelf(s, CLOSERS);
  }

  lemma NotQueued(queue: seq<Effect>, ns: set<EntityId>, gs: set<TypeId>, effect: Effect)
    requires QueueMatches(queue, ns, gs) && effect.Deduplicated() && !Pending(effect, ns, gs)
    ensures effect !in queue
    ensures Pending(effect, if effect.Notify? then ns + {effect.emitter} else ns,
                    if effect.NotifyGlobalObservers? then gs + {effect.global} else gs)
    ensures effect.Notify? ==> effect.emitter !in ns
    ensures effect.NotifyGlobalObservers? ==> effect.global !in gs
  {
  }

  lemma EventsLivePush(queue: seq<Effect>, epoch: nat, effect: Effect)
    requires EventsLive(queue, epoch) && (effect.Emit? ==> effect.event.epoch == epoch)
    ensures EventsLive(queue + [effect], epoch)
  {
  }

  lemma SubscribersSelf(subscribers: map<Key, seq<Subscriber>>, next: SubscriberId)
    ensures SubscribersGrow(subscribers, subscribers, next)
  {
  }

  lemma NothingLostGrows(log: seq<Event>, ns: set<EntityId>, gs: set<TypeId>, ns': set<EntityId>, gs': set<TypeId>)
    requires NothingLost(log, ns, gs) && ns <= ns' && gs <= gs'
    ensures NothingLost(log, ns', gs')
  {
  }
}
