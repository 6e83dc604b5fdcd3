/**
 `App`: nested updates, the effect queue and its flush, subscriber callbacks, and windows that are checked
 out while they are updated (crates/gpui/src/app.rs, crates/gpui/src/subscription.rs).

 Every method is proved to compute the function of the same meaning in app_semantics.dfy; what that function
 keeps and promises is proved in app_laws.dfy and app_flush.dfy.
 */
module Apps {
  import opened Options
  import opened AppState
  import opened AppSteps
  import opened AppSemantics
  import opened AppLaws
  import opened AppFlush

  /** A new application. */
  function Initial(reactions: seq<Reaction>): State {
    State(0, false, [], {}, {}, 0, map[], 0, {}, {}, [], map[], {}, 0, [], {}, reactions, [], [], {}, [])
  }

  lemma InitialKeeps(reactions: seq<Reaction>)
    ensures Inv(Initial(reactions)) && Idle(Initial(reactions))
  {
  }

  lemma RefusedWindow(s: State, w: WindowId, body: Script)
    requires !Available(s, w)
    ensures UpdatedWindow(s, w, body) == Logged(s, WindowRefused(w))
  {
  }

  /** Finishing an update that is not the outermost one, or inside a flush, only counts down. */
  lemma FinishingNested(s: State)
    requires s.flushing || s.pendingUpdates != 1
    ensures Finishing(s) == Flow(true, Finished(s), [])
  {
  }

  lemma FlushedUnfolds(s: State)
    ensures var r := ReleasedAll(s);
            && (r.effects == [] ==> Flushed(s) == Flow(true, ArenaReset(r), []))
            && (r.effects != [] && AppliedNext(r).ok ==>
                  Flushed(s).ok == Flushed(AppliedNext(r).end).ok && Flushed(s).end == Flushed(AppliedNext(r).end).end)
            && (r.effects != [] && !AppliedNext(r).ok ==> !Flushed(s).ok && Flushed(s).end == AppliedNext(r).end)
            && (r.effects != [] ==> Load(AppliedNext(r).end) < Load(s))
  {
    hide ReleasedAll, AppliedNext, ArenaReset, ReactionsSize;
  }

  lemma FinishedKeeps(s: State)
    requires Inv(s) && !s.flushing && s.pendingUpdates >= 1
    ensures Inv(Finished(s))
  {
    hide QueueMatches, NothingLost, NothingAfterDrop, Flushes, WindowsConsistent, SubscribersOrdered, EventsLive;
  }

  /** The outermost `finish_update` flushes everything. */
  lemma FinishingKeeps(s: State)
    requires Inv(s) && s.pendingUpdates == 1 && !s.flushing && s.stack == [] && s.opening == {}
    ensures var f := Finishing(s);
            && (f.ok ==> Inv(f.end) && Idle(f.end) && s.log < f.end.log && f.end.log[|f.end.log| - 1] == FlushEnded
                         && f.end.arenaEpoch == s.arenaEpoch + 1)
            && (!f.ok ==> AbortedOnClosedWindow(s, f.end))
  {
    hide Inv, Flushed, AbortedOnClosedWindow, TurnLaw, InOrder;
    var t := FlushStarted(s);
    FlushStartedKeeps(s);
    FlushedKeeps(t);
    var f := Flushed(t);
    if f.ok {
      FlushStoppedKeeps(f.end);
      FinishedKeeps(FlushStopped(f.end));
    } else {
      AbortExtends(s, t, f.end);
    }
  }

  /** An outermost update ends with nothing queued, pending, checked out or left to release. */
  lemma UpdatedKeeps(s: State, body: Script)
    requires Inv(s) && Outside(s)
    ensures var f := Updated(s, body);
            && (f.ok ==> Inv(f.end) && Idle(f.end) && s.log < f.end.log && f.end.log[|f.end.log| - 1] == FlushEnded
                         && f.end.arenaEpoch == s.arenaEpoch + 1)
            && (!f.ok ==> AbortedOnClosedWindow(s, f.end))
  {
    hide Inv, Within, Ran, Finishing, AbortedOnClosedWindow;
    var t := Ran(Started(s), body);
    StartedKeeps(s);
    RanKeeps(Started(s), body);
    WithinFields(Started(s), t, CLOSERS);
    FinishingKeeps(t);
    if !Finishing(t).ok {
      AbortExtends(s, t, Finishing(t).end);
    }
  }

  class App {
    var pendingUpdates: nat
    var flushing: bool
    var effects: seq<Effect>
    var notifications: set<EntityId>
    var globalNotifications: set<TypeId>
    var arenaEpoch: nat
    var subscribers: map<Key, seq<Subscriber>>
    var nextSubscriber: SubscriberId
    var active: set<SubscriberId>
    var dropped: set<SubscriberId>
    var droppedEntities: seq<EntityId>
    var windows: map<WindowId, Slot>
    var handles: set<WindowId>
    var nextWindow: WindowId
    var stack: seq<WindowId>
    var removed: set<WindowId>
    var reactions: seq<Reaction>

    ghost var pushed: seq<Effect>
    ghost var applied: seq<Effect>
    ghost var opening: set<WindowId>
    ghost var log: seq<Event>

    ghost function S(): State
      reads this
    {
      State(pendingUpdates, flushing, effects, notifications, globalNotifications, arenaEpoch, subscribers,
            nextSubscriber, active, dropped, droppedEntities, windows, handles, nextWindow, stack, removed,
            reactions, pushed, applied, opening, log)
    }

    constructor (reactions: seq<Reaction>)
      ensures S() == Initial(reactions)
    {
      pendingUpdates, flushing := 0, false;
      effects, notifications, globalNotifications, arenaEpoch := [], {}, {}, 0;
      subscribers, nextSubscriber, active, dropped, droppedEntities := map[], 0, {}, {}, [];
      windows, handles, nextWindow, stack, removed := map[], {}, 0, [], {};
      this.reactions := reactions;
      pushed, applied, opening, log := [], [], {}, [];
    }

    // ----- The queue -----

    method PushEffect(effect: Effect)
      modifies this
      ensures S() == Pushed(old(S()), effect)
    {
      hide Costs, Queued;
      if effect.Deduplicated() {
        log := log + [Requested(effect)];
      }
      match effect {
        case Notify(e) =>
          if e in notifications {
            return;
          }
          notifications := notifications + {e};
        case NotifyGlobalObservers(g) =>
          if g in globalNotifications {
            return;
          }
          globalNotifications := globalNotifications + {g};
        case _ =>
      }
      QueueBack(effect);
    }

    /** `pending_effects.push_back`, as `emit` and `refresh_windows` do it. */
    method QueueBack(effect: Effect)
      modifies `effects, `pushed
      ensures S() == Queued(old(S()), effect)
    {
      effects := effects + [effect];
      pushed := pushed + [effect];
    }

    // ----- Subscriptions -----

    method Subscribe(key: Key, eventType: TypeId)
      modifies this
      ensures S() == Subscribed(old(S()), key, eventType)
    {
      hide Pushed, Costs;
      var id := nextSubscriber;
      var list := if key in subscribers then subscribers[key] else [];
      subscribers, nextSubscriber := subscribers[key := list + [Subscriber(id, eventType)]], id + 1;
      assert S() == Enlisted(old(S()), key, eventType);
      hide Enlisted;
      if key.ActivatedLater() {
        PushEffect(Defer(Activate(id)));
      } else {
        active := active + {id};
      }
    }

    method Unsubscribe(key: Key, id: SubscriberId)
      modifies this
      ensures S() == Unsubscribed(old(S()), key, id)
    {
      hide Costs;
      var table := subscribers;
      if key in table {
        var rest := Without(table[key], id);
        table := if rest == [] then table - {key} else table[key := rest];
      }
      dropped, subscribers, log := dropped + {id}, table, log + [Dropped(id)];
    }

    /** `SubscriberSet::retain`: takes the subscribers of `key` out, gives each its turn, and puts back those
        that stay, before the ones subscribed meanwhile. */
    method Retain(key: Key, eventType: Option<TypeId>, event: Option<EventBox>, window: Option<WindowId>)
      returns (ok: bool)
      requires Inv(S()) && pendingUpdates >= 1
      requires event.Some? ==> event.value.epoch == arenaEpoch
      requires key.OnNew? ==> FlushLevel(S())
      modifies this
      ensures var r := Retained(old(S()), key, eventType, window); ok == r.ok && S() == r.end
      decreases 0, Fuel(S()), if key.OnNew? then 9 else 3
    {
      hide Inv, Within, ReactionsSize, FlushLevel, RoundOver;
      ok := true;
      if key !in subscribers {
        return;
      }
      var taken := subscribers[key];
      TakenKeeps(S(), key);
      TakenFields(S(), key);
      subscribers := subscribers - {key};
      assert S() == Taken(old(S()), key);
      var kept;
      ok, kept := Turns(key, taken, eventType, event, window);
      if ok {
        var list := kept + (if key in subscribers then subscribers[key] else []);
        subscribers := if list == [] then subscribers - {key} else subscribers[key := list];
      }
    }

    /** Each subscriber in the list has its turn, unless one of the invocations fails. */
    method Turns(key: Key, taken: seq<Subscriber>, eventType: Option<TypeId>, event: Option<EventBox>,
                 window: Option<WindowId>)
      returns (ok: bool, kept: seq<Subscriber>)
      requires Inv(S()) && pendingUpdates >= 1
      requires event.Some? ==> event.value.epoch == arenaEpoch
      requires key.OnNew? ==> FlushLevel(S())
      modifies this
      ensures var r := RoundOver(old(S()), key, taken, eventType, window);
              ok == r.ok && S() == r.end && (ok ==> kept == r.kept)
      decreases 0, Fuel(S()), if key.OnNew? then 9 else 3, 0
    {
      hide Inv, Within, ReactionsSize, FlushLevel, RoundOver, Called, Callable, WantsToStay, KeptOf, RanAmong, Aborted;
      ghost var may := CLOSERS + iset{key};
      ghost var start := S();
      ghost var whole := RoundOver(start, key, taken, eventType, window);
      ok, kept := true, [];
      ghost var called: seq<SubscriberId> := [];
      WithinSelf(start, may);
      assert taken[0..] == taken;
      var i := 0;
      while i < |taken|
        invariant i <= |taken|
        invariant whole == Preceded(called, kept, RoundOver(S(), key, taken[i..], eventType, window))
        invariant Inv(S()) && Within(start, S(), may) && Fuel(S()) <= Fuel(start)
      {
        ghost var before := S();
        WithinFields(start, before, may);
        if key.OnNew? {
          FlushLevelStays(start, before, may);
        }
        assert taken[i..][0] == taken[i] && taken[i..][1..] == taken[i + 1..];
        RoundUnfolds(before, key, taken[i..], eventType, window);
        CallableNotDropped(before, taken[i], eventType);
        var keep, invoked;
        ok, keep, invoked := RetainOne(key, taken[i], eventType, event, window);
        if !ok {
          return;
        }
        if invoked {
          CalledKeeps(before, key, taken[i].id, window);
          WithinTransitive(start, before, S(), may);
        }
        PrecededTwice(called, if invoked then [taken[i].id] else [], kept, if keep then [taken[i]] else [],
                      RoundOver(S(), key, taken[i + 1..], eventType, window));
        called := called + (if invoked then [taken[i].id] else []);
        kept := kept + (if keep then [taken[i]] else []);
        i := i + 1;
      }
      assert taken[i..] == [];
      EmptyRound(S(), key, eventType, window);
      assert kept + [] == kept;
    }

    /** Inert subscribers and those of another event type stay without being invoked; cancelled ones go. */
    method RetainOne(key: Key, sub: Subscriber, eventType: Option<TypeId>, event: Option<EventBox>, window: Option<WindowId>)
      returns (ok: bool, keep: bool, invoked: bool)
      requires Inv(S()) && pendingUpdates >= 1
      requires event.Some? ==> event.value.epoch == arenaEpoch
      requires key.OnNew? ==> FlushLevel(S())
      modifies this
      ensures invoked <==> Callable(old(S()), sub, eventType)
      ensures Call(ok, S()) == if invoked then Called(old(S()), key, sub.id, window) else Call(true, old(S()))
      ensures ok ==> (if keep then [sub] else []) == KeptOf(old(S()), key, sub, eventType, S())
      decreases 0, Fuel(S()), if key.OnNew? then 8 else 2
    {
      hide Inv, ReactionsSize, FlushLevel, Called, WantsToStay;
      ok, keep, invoked := true, true, false;
      if sub.id !in active {
        return;
      }
      if sub.id in dropped {
        keep := false;
        return;
      }
      if eventType.None? || sub.eventType == eventType.value {
        invoked := true;
        ok, keep := CallSubscriber(key, sub.id, event, window);
        keep := keep && sub.id !in dropped;
      }
    }

    /** Invokes one subscriber, and says whether it wants to stay. */
    method CallSubscriber(key: Key, id: SubscriberId, event: Option<EventBox>, window: Option<WindowId>)
      returns (ok: bool, keep: bool)
      requires Inv(S()) && pendingUpdates >= 1 && (id !in dropped || key.OnRelease?)
      requires event.Some? ==> event.value.epoch == arenaEpoch
      requires key.OnNew? ==> FlushLevel(S())
      modifies this
      ensures Call(ok, S()) == Called(old(S()), key, id, window) && keep == (ok && WantsToStay(old(S()), key))
      decreases 0, Fuel(S()), if key.OnNew? then 7 else 1
    {
      hide Inv, Within, ReactionsSize, FlushLevel, UpdatedWindow, Reacted, RunsOf;
      InvocationKeeps(S(), key, id);
      WithinFields(S(), Logged(S(), Invoked(key, id)), CLOSERS + iset{key});
      if key.OnNew? && window.Some? {
        var w := window.value;
        var script := [];
        if w in windows && windows[w] == Occupied {
          log := log + [Invoked(key, id)];
          script, keep := TakeReaction();
        }
        if !Available(S(), w) {
          RefusedWindow(S(), w, script);
        }
        var ran := UpdateWindow(w, script);
        if !ran {
          log := log + [Panicked(w)];
          return false, false;
        }
        keep := true;
      } else {
        log := log + [Invoked(key, id)];
        keep := RunReaction();
        keep := keep || key.OnWindowClosed? || key.OnNew?;
      }
      ok := true;
    }

    /** What the next callback does, and whether it wants to stay subscribed. */
    method TakeReaction() returns (script: Script, keep: bool)
      requires Inv(S())
      modifies `reactions
      ensures S() == ReactionTaken(old(S())) && script == NextScript(old(S())) && Inv(S())
      ensures keep == (old(reactions) == [] || old(reactions)[0].keep)
    {
      hide Inv, Within, ReactionsSize;
      ReactionTakenKeeps(S());
      if reactions == [] {
        return [], true;
      }
      script, keep := reactions[0].script, reactions[0].keep;
      reactions := reactions[1..];
    }

    method RunReaction() returns (keep: bool)
      requires Inv(S()) && pendingUpdates >= 1
      modifies this
      ensures S() == Reacted(old(S())) && keep == (old(reactions) == [] || old(reactions)[0].keep)
      decreases 0, Fuel(S()), 0
    {
      hide Inv, Within, ReactionsSize, Ran;
      if reactions == [] {
        return true;
      }
      var script;
      script, keep := TakeReaction();
      RunScript(script);
    }

    // ----- User code -----

    method RunScript(script: Script)
      requires Inv(S()) && pendingUpdates >= 1
      modifies this
      ensures S() == Ran(old(S()), script)
      ensures Inv(S()) && Nested(old(S()), S())
      decreases 0, Fuel(S()) + ScriptSize(script), 3
    {
      hide Inv, Within, ReactionsSize, Did;
      RanKeeps(S(), script);
      if script != [] {
        RunOp(script[0]);
        WithinFields(old(S()), S(), CLOSERS);
        RunScript(script[1..]);
      }
    }

    method RunOp(op: Op)
      requires Inv(S()) && pendingUpdates >= 1
      modifies this
      ensures S() == Did(old(S()), op)
      ensures Inv(S()) && Nested(old(S()), S())
      decreases 0, Fuel(S()) + OpSize(op), 2
    {
      hide Inv, Within, ReactionsSize, Leaf, Ran, UpdatedWindow, Opened;
      DidKeeps(S(), op);
      match op
      case DoNewEntity(e, tid, build) =>
        NewEntity(e, tid, build);
      case DoUpdate(body) =>
        NestedUpdate(body);
      case DoUpdateWindow(w, body) =>
        var _ := UpdateWindow(w, body);
      case DoOpenWindow(succeeds, create, build, draw) =>
        OpenWindow(succeeds, create, build, draw);
      case _ =>
        RunLeaf(op);
    }

    method RunLeaf(op: Op)
      requires IsLeaf(op)
      modifies this
      ensures S() == Leaf(old(S()), op)
    {
      hide Pushed, Queued, Subscribed, Unsubscribed;
      match op
      case DoNotify(e) => PushEffect(Notify(e));
      case DoNotifyGlobal(g) => PushEffect(NotifyGlobalObservers(g));
      case DoEmit(e, eventType) => QueueBack(Emit(e, eventType, EventBox(arenaEpoch)));
      case DoRefresh => QueueBack(RefreshWindows);
      case DoDefer => PushEffect(Defer(Callback));
      case DoSubscribe(key, eventType) => Subscribe(key, eventType);
      case DoUnsubscribe(key, id) => Unsubscribe(key, id);
      case DoDropEntity(e) => droppedEntities := droppedEntities + [e];
      case DoRemoveWindow(w) =>
        if w in windows && windows[w] == Vacant {
          removed := removed + {w};
        }
    }

    /** `App::new` inside an update: the new entity remembers the innermost window being updated. */
    method NewEntity(e: EntityId, tid: TypeId, build: Script)
      requires Inv(S()) && pendingUpdates >= 1
      modifies this
      ensures S() == Finished(Announced(Ran(Started(old(S())), build), e, tid))
      decreases 0, Fuel(S()) + 1 + ScriptSize(build), 1
    {
      hide Inv, Within, ReactionsSize, Pushed, Ran, Finishing;
      StartedKeeps(S());
      StartUpdate();
      RunScript(build);
      ghost var built := S();
      WithinFields(Started(old(S())), built, CLOSERS);
      var window := if stack == [] then None else Some(stack[|stack| - 1]);
      PushEffect(EntityCreated(e, tid, window));
      AnnouncedKeeps(built, e, tid);
      WithinFields(built, S(), CLOSERS);
      FinishingNested(S());
      var _ := FinishUpdate();
    }

    // ----- Updates -----

    method StartUpdate()
      modifies `pendingUpdates
      ensures S() == Started(old(S()))
    {
      pendingUpdates := pendingUpdates + 1;
    }

    /** `App::update` inside another update is its body. */
    method NestedUpdate(body: Script)
      requires Inv(S()) && pendingUpdates >= 1
      modifies this
      ensures S() == Finished(Ran(Started(old(S())), body))
      decreases 0, Fuel(S()) + ScriptSize(body), 4
    {
      hide Inv, Within, ReactionsSize, Ran, Finishing;
      StartedKeeps(S());
      StartUpdate();
      RunScript(body);
      WithinFields(Started(old(S())), S(), CLOSERS);
      FinishingNested(S());
      var _ := FinishUpdate();
    }

    /** `App::update` outside all updates: the body, and then a flush of everything that is queued by then or
        meanwhile, by this update or by code that ran outside before it. */
    method Update(body: Script) returns (ok: bool)
      requires Inv(S()) && Outside(S())
      modifies this
      ensures var f := Updated(old(S()), body); ok == f.ok && S() == f.end
      ensures ok ==> Inv(S()) && Idle(S())
      ensures !ok ==> AbortedOnClosedWindow(old(S()), S())
    {
      hide Inv, Within, ReactionsSize, AbortedOnClosedWindow, Ran, Finishing;
      UpdatedKeeps(S(), body);
      StartedKeeps(S());
      StartUpdate();
      RunScript(body);
      WithinFields(Started(old(S())), S(), CLOSERS);
      ok := FinishUpdate();
    }

    /** `finish_update`: flushes exactly when this is the outermost update and no flush is running. */
    method FinishUpdate() returns (ok: bool)
      requires Inv(S()) && pendingUpdates >= 1
      requires pendingUpdates == 1 && !flushing ==> stack == [] && opening == {}
      modifies this
      ensures var f := Finishing(old(S())); ok == f.ok && S() == f.end
      decreases if pendingUpdates == 1 && !flushing then 1 else 0, Fuel(S()), 0
    {
      hide Inv, ReactionsSize, Flushed, TurnLaw, InOrder;
      ok := true;
      if !flushing && pendingUpdates == 1 {
        FlushStartedKeeps(S());
        log := log + [FlushBegan(pendingUpdates)];
        flushing := true;
        assert S() == FlushStarted(old(S()));
        FlushedKeeps(S());
        ok := FlushEffects();
        if !ok {
          return;
        }
        flushing := false;
        log := log + [FlushEnded];
      }
      pendingUpdates := pendingUpdates - 1;
    }

    /** Applies effects, oldest first, until none is left, then clears the event arena. */
    method FlushEffects() returns (ok: bool)
      requires Inv(S()) && FlushLevel(S())
      modifies this
      ensures var f := Flushed(old(S())); ok == f.ok && S() == f.end
      decreases 0, Load(S()), 10
    {
      hide Inv, Within, ReactionsSize, ReleasedAll, AppliedNext, DealtWith, Gone, AllTold;
      ghost var whole := Flushed(S());
      while true
        invariant Inv(S()) && FlushLevel(S()) && Load(S()) <= Load(old(S()))
        invariant Flushed(S()).ok == whole.ok && Flushed(S()).end == whole.end
        decreases Load(S())
      {
        ghost var before := S();
        FlushedUnfolds(before);
        ReleasedAllKeeps(before);
        ReleaseDroppedEntities();
        WithinFields(before, S(), RELEASERS);
        if effects == [] {
          log := log + [ArenaCleared(|effects|)];
          arenaEpoch := arenaEpoch + 1;
          return true;
        }
        AppliedNextKeeps(S());
        ok := ApplyNext();
        if !ok {
          return;
        }
      }
    }

    /** Takes the oldest effect off the queue and applies it. */
    method ApplyNext() returns (ok: bool)
      requires Inv(S()) && FlushLevel(S()) && effects != []
      modifies this
      ensures Call(ok, S()) == AppliedNext(old(S()))
      decreases 0, Load(S()), 9
    {
      hide Inv, ReactionsSize, Handled;
      ghost var full := S();
      var effect := effects[0];
      effects := effects[1..];
      applied, log := applied + [effect], log + [Applied(effect)];
      assert S() == Popped(full);
      ok := Apply(effect, full);
    }

    /** Applies the effect that was just popped off `full`. A notification stops being pending before its
        observers run, so that they can request it again. */
    method Apply(effect: Effect, ghost full: State) returns (ok: bool)
      requires Inv(full) && FlushLevel(full) && full.effects != [] && effect == full.effects[0]
      requires S() == Popped(full)
      modifies this
      ensures Call(ok, S()) == Handled(Acknowledged(Popped(full), effect), effect)
      decreases 0, Load(S()), 10
    {
      hide Inv, ReactionsSize, Retained, Reacted, RunsOf, FlushLevel, Popped;
      FlushDepth(full);
      PoppedKeeps(full);
      AcknowledgedKeeps(full);
      PoppedFields(full, OnWindowClosed);
      ok := true;
      match effect {
        case Notify(e) =>
          notifications := notifications - {e};
          ok := Retain(OnNotify(e), None, None, None);
        case Emit(e, eventType, event) =>
          ok := Retain(OnEvent(e), Some(eventType), Some(event), None);
        case RefreshWindows =>
        case NotifyGlobalObservers(g) =>
          globalNotifications := globalNotifications - {g};
          ok := Retain(OnGlobal(g), None, None, None);
        case Defer(callback) =>
          match callback {
            case Activate(id) =>
              active := active + {id};
            case Callback =>
              var _ := RunReaction();
          }
        case EntityCreated(e, tid, window) =>
          ok := Retain(OnNew(tid), None, None, window);
      }
    }

    /** Forgets the observers of entities that were dropped and invokes their release listeners, until no
        entity is left to release. */
    method ReleaseDroppedEntities()
      requires Inv(S()) && pendingUpdates >= 1
      modifies this
      ensures S() == ReleasedAll(old(S()))
      decreases 0, Load(S()), 9
    {
      hide Inv, Within, ReactionsSize, ReleasedEach, Gone, EachTold;
      ghost var whole := ReleasedAll(S());
      while droppedEntities != []
        invariant Inv(S()) && pendingUpdates >= 1 && ReleasedAll(S()) == whole
        invariant Fuel(S()) <= Fuel(old(S())) && Load(S()) <= Load(old(S()))
        decreases Load(S())
      {
        var entities := droppedEntities;
        EntitiesTaken(S());
        ghost var before := S();
        droppedEntities := [];
        ghost var taken := S();
        ReleasedEachKeeps(taken, entities);
        ReleaseEach(entities);
        WithinFields(taken, S(), RELEASERS);
      }
    }

    method ReleaseEach(entities: seq<EntityId>)
      requires Inv(S()) && pendingUpdates >= 1
      modifies this
      ensures S() == ReleasedEach(old(S()), entities)
      decreases 0, Fuel(S()), 6
    {
      hide Inv, Within, ReactionsSize, Released, Gone, ListenersTold;
      assert entities[0..] == entities;
      for i := 0 to |entities|
        invariant Inv(S()) && pendingUpdates >= 1 && Fuel(S()) <= Fuel(old(S()))
        invariant ReleasedEach(S(), entities[i..]) == ReleasedEach(old(S()), entities)
      {
        ghost var s := S();
        assert entities[i..][0] == entities[i] && entities[i..][1..] == entities[i + 1..];
        ReleasedKeeps(s, entities[i]);
        Release(entities[i]);
        WithinFields(s, S(), RELEASERS);
      }
    }

    /** Whoever observed the entity is forgotten; every active release listener is invoked, even one that an
        earlier one cancels. */
    method Release(e: EntityId)
      requires Inv(S()) && pendingUpdates >= 1
      modifies this
      ensures S() == Released(old(S()), e)
      decreases 0, Fuel(S()), 5
    {
      hide Inv, Within, ReactionsSize, Called, RanAmong, AllCalled, Gone;
      ForgottenKeeps(S(), e);
      var listeners := if OnRelease(e) in subscribers then subscribers[OnRelease(e)] else [];
      subscribers := subscribers - {OnNotify(e)} - {OnEvent(e)} - {OnRelease(e)};
      ghost var start := S();
      assert start == Forgotten(old(S()), e);
      WithinFields(old(S()), start, CLOSERS);
      assert listeners[0..] == listeners;
      for i := 0 to |listeners|
        invariant Inv(S()) && pendingUpdates >= 1 && Fuel(S()) <= Fuel(start)
        invariant ReleasedTo(S(), e, listeners[i..]).end == ReleasedTo(start, e, listeners).end
      {
        assert listeners[i..][0] == listeners[i] && listeners[i..][1..] == listeners[i + 1..];
        if listeners[i].id in active {
          ghost var s := S();
          CalledKeeps(s, OnRelease(e), listeners[i].id, None);
          var _, _ := CallSubscriber(OnRelease(e), listeners[i].id, None, None);
          WithinFields(s, S(), CLOSERS + iset{OnRelease(e)});
        }
      }
    }

    // ----- Windows -----

    /** `update_window_erased`: runs the callback exactly when the window is in its slot. */
    method UpdateWindow(w: WindowId, body: Script) returns (ran: bool)
      requires Inv(S()) && pendingUpdates >= 1
      modifies this
      ensures S() == UpdatedWindow(old(S()), w, body) && ran == Available(old(S()), w)
      decreases 0, Fuel(S()) + ScriptSize(body), 6
    {
      hide Inv, Within, ReactionsSize, ScriptSize, RanIn, Finishing;
      ghost var start := S();
      StartedKeeps(start);
      StartUpdate();
      ran := w in windows && windows[w] == Occupied;
      if ran {
        LoggedKeeps(S(), WindowRan(w));
        log := log + [WindowRan(w)];
        ghost var s := S();
        RanInKeeps(s, w, body);
        RunInWindow(w, body);
        WithinFields(s, S(), CLOSERS);
      } else {
        LoggedKeeps(S(), WindowRefused(w));
        log := log + [WindowRefused(w)];
      }
      FinishingNested(S());
      var _ := FinishUpdate();
    }

    /** The window is taken out of its slot and put on the stack for the callback. */
    method RunInWindow(w: WindowId, body: Script)
      requires Inv(S()) && pendingUpdates >= 1 && Available(S(), w)
      modifies this
      ensures S() == RanIn(old(S()), w, body)
      decreases 0, Fuel(S()) + ScriptSize(body), 5
    {
      hide Inv, Within, ReactionsSize, ScriptSize, Left, Ran;
      CheckedOutConsistent(S(), w);
      windows, stack := windows[w := Vacant], stack + [w];
      ghost var s := S();
      assert s == CheckedOut(old(S()), w);
      RunScript(body);
      WithinFields(s, S(), CLOSERS);
      Trail(w, old(S()));
    }

    /** The window comes off the stack. If it was marked it is removed, and the observers of closed windows
        are told; otherwise it goes back to its slot. */
    method Trail(w: WindowId, ghost before: State)
      requires Inv(before) && before.pendingUpdates >= 1 && Available(before, w)
      requires Inv(S()) && Nested(CheckedOut(before, w), S())
      modifies this
      ensures S() == Left(old(S()), w)
      decreases 0, Fuel(S()), 4
    {
      hide Inv, Within, ReactionsSize, Retained;
      WithinFields(CheckedOut(before, w), S(), CLOSERS);
      WindowWraps(before, S(), w);
      stack := stack[..|stack| - 1];
      if w in removed {
        handles, windows := handles - {w}, windows - {w};
        assert S() == Closed(old(S()), w);
        var _ := Retain(OnWindowClosed, None, None, None);
      } else {
        // The slot is still there.
        assert w in windows;
        windows := windows[w := Occupied];
      }
    }

    /** `open_window` inside an update. */
    method OpenWindow(succeeds: bool, create: Script, build: Script, draw: Script)
      requires Inv(S()) && pendingUpdates >= 1
      modifies this
      ensures S() == Finished(Opened(Started(old(S())), succeeds, create, build, draw))
      decreases 0, Fuel(S()) + 2 + ScriptSize(create) + ScriptSize(build) + ScriptSize(draw), 1
    {
      hide Inv, Within, ReactionsSize, ScriptSize, Opened, Finishing;
      StartedKeeps(S());
      StartUpdate();
      ghost var s := S();
      OpenedKeeps(s, succeeds, create, build, draw);
      OpenSlot(succeeds, create, build, draw);
      WithinFields(s, S(), CLOSERS);
      FinishingNested(S());
      var _ := FinishUpdate();
    }

    /** The new slot is empty until the window has been built and drawn, and is still there when the window is
        stored. */
    method OpenSlot(succeeds: bool, create: Script, build: Script, draw: Script)
      requires Inv(S()) && pendingUpdates >= 1
      modifies this
      ensures S() == Opened(old(S()), succeeds, create, build, draw)
      decreases 0, Fuel(S()) + 1 + ScriptSize(create) + ScriptSize(build) + ScriptSize(draw), 1
    {
      hide Inv, Within, ReactionsSize, ScriptSize, Ran, Built, SlotOpened, SlotFilled, SlotAbandoned;
      ghost var start := S();
      SlotOpenedKeeps(start);
      SlotOpenedFields(start);
      var id := InsertSlot();
      ghost var slot := S();
      RunScript(create);
      WithinFields(slot, S(), CLOSERS);
      if succeeds {
        ghost var created := S();
        BuiltKeeps(created, id, build, draw);
        BuildAndDraw(id, build, draw);
        WithinTransitive(slot, created, S(), CLOSERS);
        OpeningWraps(start, S());
        FillSlot(id);
      } else {
        RemoveSlot(id);
      }
    }

    method InsertSlot() returns (id: WindowId)
      modifies `windows, `nextWindow, `opening
      ensures id == old(nextWindow) && S() == SlotOpened(old(S()))
    {
      hide Costs;
      id := nextWindow;
      windows, nextWindow, opening := windows[id := Vacant], id + 1, opening + {id};
    }

    /** The window is stored; its slot must still be there. */
    method FillSlot(id: WindowId)
      requires id in windows
      modifies `windows, `handles, `opening
      ensures S() == SlotFilled(old(S()), id)
    {
      hide Costs;
      handles := handles + {id};
      windows, opening := windows[id := Occupied], opening - {id};
    }

    method RemoveSlot(id: WindowId)
      modifies `windows, `opening
      ensures S() == SlotAbandoned(old(S()), id)
    {
      hide Costs;
      windows, opening := windows - {id}, opening - {id};
    }

    /** Builds the root view with the new window on the stack, then draws it for the first time. */
    method BuildAndDraw(id: WindowId, build: Script, draw: Script)
      requires Inv(S()) && pendingUpdates >= 1 && id in opening && id !in stack
      modifies this
      ensures S() == Built(old(S()), id, build, draw)
      decreases 0, Fuel(S()) + 1 + ScriptSize(build) + ScriptSize(draw), 0
    {
      hide Inv, Within, ReactionsSize, ScriptSize, Ran, Pushed;
      ghost var created := S();
      BuildingKeeps(created, id);
      stack := stack + [id];
      assert S() == Building(created, id);
      RunScript(build);
      BuildingWraps(created, S(), id);
      stack := stack[..|stack| - 1];
      ghost var built := S();
      PushedKeeps(built, Defer(Callback));
      PushEffect(Defer(Callback));
      WithinTransitive(created, built, S(), CLOSERS);
      WithinFields(created, S(), CLOSERS);
      RunScript(draw);
    }
  }
}
