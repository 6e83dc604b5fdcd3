/** What a flush promises: the release of dropped entities, and the rounds in which effects are applied. */
module AppFlush {
  import opened Options
  import opened Sequences
  import opened AppState
  import opened AppSteps
  import opened AppSemantics
  import opened AppLaws

  // ----- Releasing dropped entities -----

  /** None of the subscribers that the entity had is left; any that it has now came later. */
  ghost predicate Gone(before: State, after: State, e: EntityId) {
    && Fresh(Listed(after.subscribers, OnNotify(e)), before.nextSubscriber)
    && Fresh(Listed(after.subscribers, OnEvent(e)), before.nextSubscriber)
    && Fresh(Listed(after.subscribers, OnRelease(e)), before.nextSubscriber)
  }

  lemma ForgottenKeeps(s: State, e: EntityId)
    requires Inv(s)
    ensures var t := Forgotten(s, e);
            Inv(t) && Nested(s, t) && Gone(s, t, e)
    ensures Ascending(Listed(s.subscribers, OnRelease(e)))
  {
    if OnRelease(e) in s.subscribers {
      TakenAscending(s, OnRelease(e));
    }
    hide Inv, Within, Ascending;
    var a := Taken(s, OnNotify(e));
    var b := Taken(a, OnEvent(e));
    TakenKeeps(s, OnNotify(e));
    TakenKeeps(a, OnEvent(e));
    TakenKeeps(b, OnRelease(e));
    WithinTransitive(s, a, b, CLOSERS);
    WithinTransitive(s, b, Taken(b, OnRelease(e)), CLOSERS);
  }

  lemma GoneStays(start: State, a: State, b: State, e: EntityId, may: iset<Key>)
    requires Gone(start, a, e) && Within(a, b, may) && start.nextSubscriber <= a.nextSubscriber
    ensures Gone(start, b, e)
  {
    hide Within, Fresh;
    FreshStays(a, b, OnNotify(e), start.nextSubscriber, may);
    FreshStays(a, b, OnEvent(e), start.nextSubscriber, may);
    FreshStays(a, b, OnRelease(e), start.nextSubscriber, may);
  }

  lemma GoneSince(start: State, a: State, b: State, e: EntityId)
    requires start.nextSubscriber <= a.nextSubscriber && Gone(a, b, e)
    ensures Gone(start, b, e)
  {
  }

  /** Every active release listener runs once, in order, even one that is cancelled by an earlier one. */
  lemma {:induction false} ReleasedToKeeps(s: State, e: EntityId, list: seq<Subscriber>)
    requires Inv(s) && s.pendingUpdates >= 1 && Ascending(list)
    ensures var r := ReleasedTo(s, e, list);
            && Inv(r.end) && Within(s, r.end, CLOSERS + iset{OnRelease(e)})
            && RanAmong(s.log, r.end.log, OnRelease(e), r.called)
            && AllCalled(list, r.called, s.active, {}, r.end.active, {}, None)
    decreases |list|
  {
    hide Inv, Within, Called, RanAmong, AllCalled, Ascending;
    var key, may := OnRelease(e), CLOSERS + iset{OnRelease(e)};
    if list == [] {
      WithinSelf(s, may);
      RanAmongNone(s.log, key);
      NoneListed(key, s.active, {}, None);
    } else {
      AscendingRest(list);
      if list[0].id in s.active {
        var c := Called(s, key, list[0].id, None).end;
        CalledKeeps(s, key, list[0].id, None);
        WithinFields(s, c, may);
        ReleasedToKeeps(c, e, list[1..]);
        var rest := ReleasedTo(c, e, list[1..]);
        WithinFields(c, rest.end, may);
        WithinTransitive(s, c, rest.end, may);
        RanAmongTransitive(s.log, c.log, rest.end.log, key, [list[0].id], rest.called);
        CalledFirst(list, rest.called, s.active, {}, c.active, {}, rest.end.active, {}, None);
      } else {
        ReleasedToKeeps(s, e, list[1..]);
        var rest := ReleasedTo(s, e, list[1..]);
        SkippedFirst(list, rest.called, s.active, {}, rest.end.active, {}, None);
      }
    }
  }

  /** The release listeners of the entity that are invoked. */
  function ReleaseCalled(s: State, e: EntityId): seq<SubscriberId> {
    ReleasedTo(Forgotten(s, e), e, Listed(s.subscribers, OnRelease(e))).called
  }

  /** When the entity is released from this state, each of its active release listeners runs once, in order. */
  ghost predicate ListenersTold(s: State, e: EntityId) {
    && RanAmong(s.log, Released(s, e).log, OnRelease(e), ReleaseCalled(s, e))
    && AllCalled(Listed(s.subscribers, OnRelease(e)), ReleaseCalled(s, e), s.active, {}, Released(s, e).active, {}, None)
  }

  /** So it is for every entity of the list, each released from the state that the one before it left. */
  ghost predicate EachTold(s: State, entities: seq<EntityId>)
    decreases |entities|
  {
    entities == [] || (ListenersTold(s, entities[0]) && EachTold(Released(s, entities[0]), entities[1..]))
  }

  /** And for every batch of dropped entities, until there is none left. */
  ghost predicate AllTold(s: State)
    decreases Load(s)
  {
    s.droppedEntities == []
    || (EachTold(s.(droppedEntities := []), s.droppedEntities)
        && AllTold(ReleasedEach(s.(droppedEntities := []), s.droppedEntities)))
  }

  /** Observers and listeners of a released entity are forgotten; exactly its active release listeners run. */
  lemma ReleasedKeeps(s: State, e: EntityId)
    requires Inv(s) && s.pendingUpdates >= 1
    ensures Inv(Released(s, e)) && Within(s, Released(s, e), RELEASERS) && Gone(s, Released(s, e), e)
    ensures ListenersTold(s, e)
  {
    hide Inv, Within, ReleasedTo, RanAmong, AllCalled, Ascending, Gone;
    var t := Forgotten(s, e);
    ForgottenKeeps(s, e);
    WithinFields(s, t, CLOSERS);
    ReleasedToKeeps(t, e, Listed(s.subscribers, OnRelease(e)));
    WithinWeaker(s, t, CLOSERS, RELEASERS);
    WithinWeaker(t, Released(s, e), CLOSERS + iset{OnRelease(e)}, RELEASERS);
    WithinTransitive(s, t, Released(s, e), RELEASERS);
    GoneStays(s, t, Released(s, e), e, RELEASERS);
  }

  lemma {:induction false} ReleasedEachKeeps(s: State, entities: seq<EntityId>)
    requires Inv(s) && s.pendingUpdates >= 1
    ensures Inv(ReleasedEach(s, entities)) && Within(s, ReleasedEach(s, entities), RELEASERS)
    ensures forall e :: e in entities ==> Gone(s, ReleasedEach(s, entities), e)
    ensures EachTold(s, entities)
    decreases |entities|
  {
    hide Inv, Within, Released, Gone, ListenersTold;
    WithinSelf(s, RELEASERS);
    if entities != [] {
      var m := Released(s, entities[0]);
      ReleasedKeeps(s, entities[0]);
      WithinFields(s, m, RELEASERS);
      ReleasedEachKeeps(m, entities[1..]);
      var t := ReleasedEach(m, entities[1..]);
      WithinTransitive(s, m, t, RELEASERS);
      forall e | e in entities ensures Gone(s, t, e) {
        if e == entities[0] {
          GoneStays(s, m, t, e, RELEASERS);
        } else {
          assert e in entities[1..];
          GoneSince(s, m, t, e);
        }
      }
    }
  }

  lemma EntitiesTaken(s: State)
    requires Inv(s)
    ensures var t := s.(droppedEntities := []);
            Inv(t) && Within(s, t, RELEASERS)
  {
    WithinSelf(s, RELEASERS);
    hide QueueMatches, NothingLost, NothingAfterDrop, Flushes, WindowsConsistent, SubscribersOrdered, SubscribersGrow,
         LogGrows, EventsLive, Vacancies, NoReopening;
  }

  /** Nothing but release listeners, and observers of windows that they close, runs between two effects. */
  lemma {:induction false} ReleasedAllKeeps(s: State)
    requires Inv(s) && s.pendingUpdates >= 1
    ensures Inv(ReleasedAll(s)) && Within(s, ReleasedAll(s), RELEASERS)
    ensures forall e :: e in s.droppedEntities ==> Gone(s, ReleasedAll(s), e)
    ensures AllTold(s)
    decreases Load(s)
  {
    hide Inv, Within, ReleasedEach, Gone, ReactionsSize, EachTold;
    WithinSelf(s, RELEASERS);
    if s.droppedEntities != [] {
      var t := s.(droppedEntities := []);
      EntitiesTaken(s);
      WithinFields(s, t, RELEASERS);
      ReleasedEachKeeps(t, s.droppedEntities);
      var u := ReleasedEach(t, s.droppedEntities);
      WithinFields(t, u, RELEASERS);
      WithinTransitive(s, t, u, RELEASERS);
      assert Load(u) < Load(s);
      ReleasedAllKeeps(u);
      WithinTransitive(s, u, ReleasedAll(u), RELEASERS);
      forall e | e in s.droppedEntities ensures Gone(s, ReleasedAll(u), e) {
        GoneSince(s, t, u, e);
        GoneStays(s, u, ReleasedAll(u), e, RELEASERS);
      }
    }
  }

  lemma PushedGrows(a: State, b: State, may: iset<Key>)
    requires Inv(a) && Inv(b) && Within(a, b, may)
    ensures a.pushed <= b.pushed && b.applied == a.applied
  {
    hide QueueMatches, NothingLost, NothingAfterDrop, Flushes, WindowsConsistent, SubscribersOrdered, SubscribersGrow,
         LogGrows, EventsLive, Vacancies, NoReopening;
  }

  // ----- Applying one effect -----

  /** The subscribers that are invoked for the effect that is first in the queue. */
  function CalledIn(s: State): seq<SubscriberId>
    requires s.effects != []
  {
    var e := s.effects[0];
    if KeyOf(e).None? then [] else Retained(Acknowledged(Popped(s), e), KeyOf(e).value, EventTypeOf(e), WindowOf(e)).called
  }

  /**
   The first effect of `before` has been dealt with. A notification has reached exactly the observers of its entity
   that were due, an event the listeners to its type at its source, with the event still alive, a global
   notification the observers of that global, and a new entity the observers of its type. A deferred callback has
   performed the next reaction, and an activated subscription is active.
   */
  ghost predicate DealtWith(before: State, after: State)
    requires before.effects != []
  {
    match before.effects[0]
    case Notify(e) => Delivered(before, after, OnNotify(e), None, CalledIn(before))
    case Emit(e, eventType, event) =>
      event.epoch == before.arenaEpoch && Delivered(before, after, OnEvent(e), Some(eventType), CalledIn(before))
    case NotifyGlobalObservers(g) => Delivered(before, after, OnGlobal(g), None, CalledIn(before))
    case EntityCreated(_, tid, _) => Delivered(before, after, OnNew(tid), None, CalledIn(before))
    case RefreshWindows => after == Popped(before)
    case Defer(Activate(id)) =>
      id in after.active && after == Popped(before).(active := before.active + {id})
    case Defer(Callback) =>
      if before.reactions == [] then after == Popped(before)
      else after == Ran(Popped(before).(reactions := before.reactions[1..]), before.reactions[0].script)
  }

  /** Popping an effect invokes nobody. */
  lemma PoppedFields(s: State, key: Key)
    requires s.effects != []
    ensures var t := Acknowledged(Popped(s), s.effects[0]);
            && RunsOf(t.log, key) == RunsOf(s.log, key) && s.log <= t.log && t.applied == s.applied + [s.effects[0]]
            && t.subscribers == s.subscribers && t.active == s.active && t.dropped == s.dropped
            && t.pendingUpdates == s.pendingUpdates && (FlushLevel(t) <==> FlushLevel(s)) && t.pushed == s.pushed
            && t.arenaEpoch == s.arenaEpoch && t.windows == s.windows
  {
    hide RunsOf;
    RunsOfLogged(s.log, Applied(s.effects[0]), key);
  }

  lemma AppliedNextKeeps(s: State)
    requires Inv(s) && FlushLevel(s) && s.effects != []
    ensures var c := AppliedNext(s);
            && (c.ok ==> Inv(c.end) && FlushLevel(c.end) && Within(Acknowledged(Popped(s), s.effects[0]), c.end, ANY)
                         && DealtWith(s, c.end))
            && (!c.ok ==> AbortedOnClosedWindow(s, c.end) && s.effects[0].EntityCreated?)
  {
    FlushDepth(s);
    PoppedKeeps(s);
    hide Inv, Within, Retained, Ran, Delivered, Aborted, Acknowledged, FlushLevel, AppliedNext, CalledIn, Popped,
         AbortedOnClosedWindow;
    match s.effects[0]
    case RefreshWindows => OtherKeeps(s);
    case Defer(_) => OtherKeeps(s);
    case _ => DeliveryKeeps(s, KeyOf(s.effects[0]).value);
  }

  /** The effect is for the subscribers of `key`. */
  lemma DeliveryKeeps(s: State, key: Key)
    requires Inv(s) && FlushLevel(s) && s.effects != [] && KeyOf(s.effects[0]) == Some(key)
    ensures var c := AppliedNext(s);
            && (c.ok ==> Inv(c.end) && FlushLevel(c.end) && Within(Acknowledged(Popped(s), s.effects[0]), c.end, ANY)
                         && Delivered(s, c.end, key, EventTypeOf(s.effects[0]), CalledIn(s)))
            && (!c.ok ==> AbortedOnClosedWindow(s, c.end) && s.effects[0].EntityCreated?)
  {
    hide Inv, Within, Retained, Delivered, Aborted, Acknowledged, FlushLevel, RunsOf, Answered, Newcomers, Popped;
    var e := s.effects[0];
    var t := Acknowledged(Popped(s), e);
    FlushDepth(s);
    AcknowledgedKeeps(s);
    PoppedFields(s, key);
    FlushDepth(t);
    RetainedKeeps(t, key, EventTypeOf(e), WindowOf(e));
    var r := Retained(t, key, EventTypeOf(e), WindowOf(e));
    if r.ok {
      WithinWeaker(t, r.end, CLOSERS + iset{key}, ANY);
      FlushLevelStays(t, r.end, ANY);
      DeliveredFrom(s, t, r.end, key, EventTypeOf(e), r.called);
    } else {
      AbortIn(s, t, r.end, WindowOf(e));
    }
  }

  lemma OtherKeeps(s: State)
    requires Inv(s) && FlushLevel(s) && s.effects != [] && (s.effects[0].RefreshWindows? || s.effects[0].Defer?)
    ensures var c := AppliedNext(s);
            && c.ok && Inv(c.end) && FlushLevel(c.end) && Within(Acknowledged(Popped(s), s.effects[0]), c.end, ANY)
            && DealtWith(s, c.end)
  {
    hide Inv, Within, Ran, FlushLevel;
    var e := s.effects[0];
    var t := Acknowledged(Popped(s), e);
    FlushDepth(s);
    AcknowledgedKeeps(s);
    PoppedFields(s, OnWindowClosed);
    WithinSelf(t, ANY);
    FlushDepth(t);
    OnlyPopped(s);
    match e
    case RefreshWindows =>
    case Defer(Activate(id)) =>
      ActivatedKeeps(t, id);
      WithinWeaker(t, Activated(t, id), CLOSERS, ANY);
      FlushLevelStays(t, Activated(t, id), ANY);
    case Defer(Callback) =>
      ReactedKeeps(t);
      WithinWeaker(t, Reacted(t), CLOSERS, ANY);
      FlushLevelStays(t, Reacted(t), ANY);
  }

  lemma AbortIn(a: State, b: State, c: State, window: Option<WindowId>)
    requires a.log <= b.log && (window.Some? ==> Aborted(b, c, window.value))
    ensures window.Some? ==> AbortedOnClosedWindow(a, c)
  {
    if window.Some? {
      AbortLater(a, b, c, window.value);
    }
  }

  lemma FlushDepth(s: State)
    requires FlushLevel(s)
    ensures s.pendingUpdates >= 1 && s.flushing
  {
  }

  lemma OnlyPopped(s: State)
    requires s.effects != [] && !s.effects[0].Deduplicated()
    ensures Acknowledged(Popped(s), s.effects[0]) == Popped(s)
  {
  }

  lemma DeliveredFrom(s: State, t: State, u: State, key: Key, eventType: Option<TypeId>, called: seq<SubscriberId>)
    requires RunsOf(t.log, key) == RunsOf(s.log, key)
    requires t.subscribers == s.subscribers && t.active == s.active && t.dropped == s.dropped
    requires Delivered(t, u, key, eventType, called)
    ensures Delivered(s, u, key, eventType, called)
  {
  }

  lemma SameCallable(s: State, t: State, sub: Subscriber)
    requires s.active == t.active && s.dropped == t.dropped
    ensures Callable(s, sub, None) == Callable(t, sub, None)
  {
  }

  /** An entity created in a window that is gone by now dooms the flush, if anybody is due to observe it. */
  lemma DoomedByClosedWindow(s: State)
    requires s.effects != [] && s.effects[0].EntityCreated? && s.effects[0].window.Some?
    requires s.effects[0].window.value !in s.windows
    ensures var list := Listed(s.subscribers, OnNew(s.effects[0].tid));
            AppliedNext(s).ok <==> forall j :: 0 <= j < |list| ==> !Callable(s, list[j], None)
  {
    hide RoundOver, Merged, Callable;
    var e := s.effects[0];
    var t, key := Popped(s), OnNew(e.tid);
    var list := Listed(s.subscribers, key);
    assert AppliedNext(s).ok == Retained(t, key, None, e.window).ok;
    ClosedWindowAborts(Taken(t, key), key, list, e.window.value);
    forall j | 0 <= j < |list| ensures Callable(Taken(t, key), list[j], None) == Callable(s, list[j], None) {
      SameCallable(s, Taken(t, key), list[j]);
    }
  }

  // ----- The rounds of a flush -----

  ghost predicate TurnLaw(turn: Turn, ok: bool) {
    && Inv(turn.before) && FlushLevel(turn.before) && turn.before.effects != []
    && AppliedNext(turn.before) == Call(ok, turn.after)
    && (ok ==> Inv(turn.after) && DealtWith(turn.before, turn.after))
  }

  /** The rounds follow one another, with nothing in between but the release of dropped entities, and the end
      is reached from the last of them. */
  ghost predicate Chained(s: State, turns: seq<Turn>, ok: bool, end: State)
    decreases |turns|
  {
    if turns == [] then ok && ReleasedAll(s).effects == [] && end == ArenaReset(ReleasedAll(s))
    else
      turns[0].before == ReleasedAll(s)
      && if !ok && |turns| == 1 then end == turns[0].after else Chained(turns[0].after, turns[1..], ok, end)
  }

  /** The rounds applied these effects, in this order. */
  ghost predicate InOrder(s: State, f: Flow) {
    && |f.end.applied| == |s.applied| + |f.turns| && s.applied <= f.end.applied && s.pushed <= f.end.pushed
    && forall i :: 0 <= i < |f.turns| ==>
         f.turns[i].before.effects != [] && f.turns[i].before.effects[0] == f.end.applied[|s.applied| + i]
  }

  ghost predicate Emptied(s: State, end: State) {
    && Inv(end) && FlushLevel(end) && end.effects == [] && end.droppedEntities == []
    && end.arenaEpoch == s.arenaEpoch + 1 && s.log <= end.log
  }

  lemma {:induction false} FlushedChained(s: State)
    ensures Chained(s, Flushed(s).turns, Flushed(s).ok, Flushed(s).end)
    ensures !Flushed(s).ok ==> Flushed(s).turns != []
    decreases Load(s)
  {
    hide ReleasedAll, AppliedNext, ArenaReset, Load;
    var r := ReleasedAll(s);
    if r.effects != [] {
      var c := AppliedNext(r);
      if c.ok {
        LessToDo(s);
        FlushedChained(c.end);
        assert Flushed(s).turns[1..] == Flushed(c.end).turns;
      }
    }
  }

  /** Round by round: the first starts from `s` after releases, each other one from the end of the one before,
      after releases, and the last one leads to the end. */
  lemma {:induction false} ChainedAt(s: State, turns: seq<Turn>, ok: bool, end: State, i: nat)
    requires Chained(s, turns, ok, end) && i <= |turns|
    ensures var from := if i == 0 then s else turns[i - 1].after;
            && (i < |turns| ==> turns[i].before == ReleasedAll(from))
            && (i == |turns| ==> if ok then ReleasedAll(from).effects == [] && end == ArenaReset(ReleasedAll(from))
                                 else i > 0 && end == from)
    decreases i
  {
    hide ReleasedAll, ArenaReset;
    if i > 0 && (ok || |turns| > 1) {
      ChainedAt(turns[0].after, turns[1..], ok, end, i - 1);
      assert i < |turns| ==> turns[1..][i - 1] == turns[i];
      assert i > 1 ==> turns[1..][i - 2] == turns[i - 1];
    }
  }

  lemma LessToDo(s: State)
    requires ReleasedAll(s).effects != []
    ensures Load(AppliedNext(ReleasedAll(s)).end) < Load(s)
  {
  }

  /** A flush ends with nothing queued, or is aborted; every round keeps the invariants and deals with its
      effect. */
  lemma {:induction false} FlushedKeeps(s: State)
    requires Inv(s) && FlushLevel(s)
    ensures var f := Flushed(s);
            && (f.ok ==> Emptied(s, f.end) && InOrder(s, f))
            && (!f.ok ==> AbortedOnClosedWindow(s, f.end))
            && forall i :: 0 <= i < |f.turns| ==> TurnLaw(f.turns[i], f.ok || i < |f.turns| - 1)
    decreases Load(s)
  {
    hide Inv, Within, ReleasedAll, AppliedNext, ArenaReset, AbortedOnClosedWindow, DealtWith, Load, AllTold, Gone;
    var r := ReleasedAll(s);
    FlushDepth(s);
    ReleasedAllKeeps(s);
    PushedGrows(s, r, RELEASERS);
    WithinFields(s, r, RELEASERS);
    FlushLevelStays(s, r, RELEASERS);
    if r.effects == [] {
      ArenaResetKeeps(r);
      ArenaResetFields(r);
      EmptyInOrder(s, r);
    } else {
      var c := AppliedNext(r);
      AppliedNextKeeps(r);
      if c.ok {
        LessToDo(s);
        FlushedKeeps(c.end);
        TurnFields(r);
        var rest, f := Flushed(c.end), Flushed(s);
        forall i | 0 <= i < |f.turns| ensures TurnLaw(f.turns[i], f.ok || i < |f.turns| - 1) {
          if i > 0 {
            assert f.turns[i] == rest.turns[i - 1];
          }
        }
        if f.ok {
          InOrderStep(s, r, c.end, rest);
        } else {
          AbortExtends(s, c.end, f.end);
        }
      } else {
        AbortExtends(s, r, c.end);
      }
    }
  }

  /** An effect is applied only as the first thing in some round, and the log tells when. */
  lemma {:induction false} AppliedInRound(s: State, m: nat)
    requires Inv(s) && FlushLevel(s) && Flushed(s).ok
    requires |s.log| <= m < |Flushed(s).end.log| && Flushed(s).end.log[m].Applied?
    ensures exists i :: 0 <= i < |Flushed(s).turns| && BeginsAt(Flushed(s).turns[i], m, Flushed(s).end.log[m].effect)
    decreases Load(s)
  {
    hide Inv, Within, ReleasedAll, AppliedNext, ArenaReset, DealtWith, Load, TurnLaw, InOrder, FlushLevel, Popped,
         AllTold, Gone;
    var r, f := ReleasedAll(s), Flushed(s);
    FlushDepth(s);
    ReleasedAllKeeps(s);
    WithinFields(s, r, RELEASERS);
    FlushLevelStays(s, r, RELEASERS);
    QuietLog(s, r, RELEASERS);
    if r.effects == [] {
      ArenaResetLog(r);
    } else {
      var c := AppliedNext(r);
      AppliedNextKeeps(r);
      TurnFields(r);
      FlushedKeeps(c.end);
      TurnLog(r);
      LessToDo(s);
      var rest := Flushed(c.end);
      if m >= |c.end.log| {
        AppliedInRound(c.end, m);
        var i :| 0 <= i < |rest.turns| && BeginsAt(rest.turns[i], m, f.end.log[m].effect);
        assert f.turns[i + 1] == rest.turns[i];
      } else {
        assert f.end.log[m] == c.end.log[m];
        assert m == |r.log|;
        assert BeginsAt(f.turns[0], m, f.end.log[m].effect);
      }
    }
  }

  /** The effect is first in the queue of this round, which begins with entry `m` of the log. */
  ghost predicate BeginsAt(turn: Turn, m: nat, effect: Effect) {
    |turn.before.log| == m && turn.before.effects != [] && turn.before.effects[0] == effect
  }

  /** Code inside an update applies no effect. */
  lemma QuietLog(a: State, b: State, may: iset<Key>)
    requires Within(a, b, may)
    ensures a.log <= b.log && forall i :: |a.log| <= i < |b.log| ==> !b.log[i].Applied?
  {
  }

  lemma ArenaResetLog(s: State)
    ensures ArenaReset(s).log == s.log + [ArenaCleared(|s.effects|)]
  {
  }

  lemma TurnLog(r: State)
    requires Inv(r) && FlushLevel(r) && r.effects != [] && AppliedNext(r).ok
    ensures var b := AppliedNext(r).end.log;
            && r.log + [Applied(r.effects[0])] <= b
            && forall i :: |r.log| < i < |b| ==> !b[i].Applied?
  {
    hide Inv, Within, AppliedNext, DealtWith, AbortedOnClosedWindow, FlushLevel;
    AppliedNextKeeps(r);
    var t := Acknowledged(Popped(r), r.effects[0]);
    assert t.log == r.log + [Applied(r.effects[0])];
    QuietLog(t, AppliedNext(r).end, ANY);
  }

  lemma ArenaResetFields(s: State)
    requires FlushLevel(s) && s.effects == []
    ensures var t := ArenaReset(s);
            && FlushLevel(t) && t.effects == [] && t.droppedEntities == s.droppedEntities && s.log <= t.log
            && t.arenaEpoch == s.arenaEpoch + 1 && t.applied == s.applied && t.pushed == s.pushed
  {
  }

  lemma EmptyInOrder(s: State, r: State)
    requires r.applied == s.applied && s.pushed <= r.pushed
    ensures InOrder(s, Flow(true, ArenaReset(r), []))
  {
  }

  lemma TurnFields(r: State)
    requires Inv(r) && FlushLevel(r) && r.effects != [] && AppliedNext(r).ok
    ensures var t := AppliedNext(r).end;
            t.applied == r.applied + [r.effects[0]] && r.pushed <= t.pushed && r.log <= t.log && t.arenaEpoch == r.arenaEpoch
  {
    hide Inv, Within, AppliedNext, DealtWith, AbortedOnClosedWindow, FlushLevel;
    AppliedNextKeeps(r);
    FlushDepth(r);
    AcknowledgedKeeps(r);
    PoppedFields(r, OnWindowClosed);
    var t := Acknowledged(Popped(r), r.effects[0]);
    WithinFields(t, AppliedNext(r).end, ANY);
    PushedGrows(t, AppliedNext(r).end, ANY);
  }

  lemma InOrderStep(s: State, r: State, t: State, rest: Flow)
    requires r.applied == s.applied && s.pushed <= r.pushed <= t.pushed && r.effects != []
    requires t.applied == r.applied + [r.effects[0]]
    requires InOrder(t, rest)
    ensures InOrder(s, Flow(rest.ok, rest.end, [Turn(r, t)] + rest.turns))
  {
    var f := Flow(rest.ok, rest.end, [Turn(r, t)] + rest.turns);
    forall i | 0 <= i < |f.turns|
      ensures f.turns[i].before.effects != [] && f.turns[i].before.effects[0] == f.end.applied[|s.applied| + i]
    {
      if i > 0 {
        assert f.turns[i] == rest.turns[i - 1];
        assert f.end.applied[|t.applied| + (i - 1)] == f.end.applied[|s.applied| + i];
      } else {
        assert t.applied[|s.applied|] == f.end.applied[|s.applied|];
      }
    }
  }

}
