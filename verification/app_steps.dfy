/** The single steps of the application machine and what each of them keeps. */
module AppSteps {
  import opened Options
  import opened AppState
  import opened Sequences

  // ----- Subscriptions -----

  function Listed(subscribers: map<Key, seq<Subscriber>>, key: Key): seq<Subscriber> {
    if key in subscribers then subscribers[key] else []
  }

  /** An empty list is removed from the table. */
  function Stored(subscribers: map<Key, seq<Subscriber>>, key: Key, list: seq<Subscriber>): map<Key, seq<Subscriber>> {
    if list == [] then subscribers - {key} else subscribers[key := list]
  }

  /** `SubscriberSet::insert`: the new subscriber is last and, for some keys, inert at first. */
  function Subscribed(s: State, key: Key, eventType: TypeId): (t: State)
    ensures Costs(s, t, 1)
  {
    if key.ActivatedLater() then Pushed(Enlisted(s, key, eventType), Defer(Activate(s.nextSubscriber)))
    else Activated(Enlisted(s, key, eventType), s.nextSubscriber)
  }

  function Enlisted(s: State, key: Key, eventType: TypeId): (t: State)
    ensures Costs(s, t, 0)
  {
    s.(subscribers := s.subscribers[key := Listed(s.subscribers, key) + [Subscriber(s.nextSubscriber, eventType)]],
       nextSubscriber := s.nextSubscriber + 1)
  }

  function Without(list: seq<Subscriber>, id: SubscriberId): (r: seq<Subscriber>)
    ensures forall x :: x in r <==> x in list && x.id != id
  {
    if list == [] then []
    else
      (if list[0].id == id then [] else [list[0]]) + Without(list[1..], id)
  }

  /** Dropping a `Subscription`. */
  function Unsubscribed(s: State, key: Key, id: SubscriberId): (t: State)
    ensures Costs(s, t, 0)
  {
    Logged(Withdrawn(s, key, id), Dropped(id))
  }

  function Withdrawn(s: State, key: Key, id: SubscriberId): (t: State)
    ensures Costs(s, t, 0)
  {
    s.(dropped := s.dropped + {id},
       subscribers := if key in s.subscribers then Stored(s.subscribers, key, Without(s.subscribers[key], id)) else s.subscribers)
  }

  lemma {:induction false} WithoutAscending(list: seq<Subscriber>, id: SubscriberId)
    requires Ascending(list)
    ensures Ascending(Without(list, id))
  {
    if list != [] {
      WithoutAscending(list[1..], id);
      forall x | x in Without(list[1..], id) ensures list[0].id < x.id {
        var i :| 0 <= i < |list[1..]| && list[1..][i] == x;
        assert list[i + 1] == x;
      }
    }
  }

  /** Replacing the subscriber table and marks by later ones. */
  lemma TableKeeps(s: State, t: State)
    requires Inv(s)
    requires t == s.(subscribers := t.subscribers, nextSubscriber := t.nextSubscriber, active := t.active, dropped := t.dropped)
    requires s.nextSubscriber <= t.nextSubscriber && s.active <= t.active && s.dropped <= t.dropped
    requires SubscribersOrdered(t.subscribers, t.nextSubscriber)
    requires SubscribersGrow(s.subscribers, t.subscribers, s.nextSubscriber)
    ensures Inv(t) && Nested(s, t)
  {
    WithinSelf(s, CLOSERS);
    assert NothingAfterDrop(s.log, t.dropped);
    hide QueueMatches, NothingLost, NothingAfterDrop, Flushes, WindowsConsistent, SubscribersOrdered, SubscribersGrow, LogGrows, EventsLive, Vacancies;
  }

  /** The new subscriber comes last under its key, with an id larger than any before, and no other list changes. */
  ghost predicate OneComes(before: map<Key, seq<Subscriber>>, after: map<Key, seq<Subscriber>>, key: Key,
                           sub: Subscriber)
  {
    && Listed(after, key) == Listed(before, key) + [sub]
    && (forall k: Key :: k != key ==> Listed(after, k) == Listed(before, k))
    && (forall k: Key, i :: 0 <= i < |Listed(before, k)| ==> Listed(before, k)[i].id < sub.id)
  }

  lemma SubscribedLast(s: State, key: Key, eventType: TypeId)
    requires Inv(s)
    ensures OneComes(s.subscribers, Subscribed(s, key, eventType).subscribers, key,
                     Subscriber(s.nextSubscriber, eventType))
    ensures Subscribed(s, key, eventType).nextSubscriber == s.nextSubscriber + 1
    ensures Subscribed(s, key, eventType).active
            == if key.OnNotify? || key.OnEvent? || key.OnGlobal? then s.active else s.active + {s.nextSubscriber}
  {
    assert SubscribersOrdered(s.subscribers, s.nextSubscriber);
    hide Inv;
    SubscribedTable(s, key, eventType);
  }

  lemma SubscribedTable(s: State, key: Key, eventType: TypeId)
    ensures var t := Subscribed(s, key, eventType);
            && t.subscribers == s.subscribers[key := Listed(s.subscribers, key) + [Subscriber(s.nextSubscriber, eventType)]]
            && t.nextSubscriber == s.nextSubscriber + 1
            && t.active == if key.ActivatedLater() then s.active else s.active + {s.nextSubscriber}
  {
    hide Costs;
  }

  lemma SubscribedKeeps(s: State, key: Key, eventType: TypeId)
    requires Inv(s)
    ensures Inv(Subscribed(s, key, eventType)) && Nested(s, Subscribed(s, key, eventType))
    ensures OneComes(s.subscribers, Subscribed(s, key, eventType).subscribers, key,
                     Subscriber(s.nextSubscriber, eventType))
  {
    SubscribedLast(s, key, eventType);
    hide Inv, InvWith, Within, Pushed, OneComes;
    var t := Enlisted(s, key, eventType);
    var u := if key.ActivatedLater() then t else t.(active := s.active + {s.nextSubscriber});
    SubscribeOrdered(s, key, eventType);
    TableKeeps(s, u);
    if key.ActivatedLater() {
      PushedKeeps(t, Defer(Activate(s.nextSubscriber)));
      WithinTransitive(s, t, Subscribed(s, key, eventType), CLOSERS);
    }
  }

  lemma SubscribeOrdered(s: State, key: Key, eventType: TypeId)
    requires Inv(s)
    ensures var subscribers := s.subscribers[key := Listed(s.subscribers, key) + [Subscriber(s.nextSubscriber, eventType)]];
            SubscribersOrdered(subscribers, s.nextSubscriber + 1)
            && SubscribersGrow(s.subscribers, subscribers, s.nextSubscriber)
  {
    assert SubscribersOrdered(s.subscribers, s.nextSubscriber);
  }

  /** The subscribers listed afterwards are those listed before, under each key, but for this one. */
  ghost predicate OnlyGoes(before: map<Key, seq<Subscriber>>, after: map<Key, seq<Subscriber>>, key: Key,
                           id: SubscriberId)
  {
    forall k: Key, sub :: sub in Listed(after, k) <==> sub in Listed(before, k) && !(k == key && sub.id == id)
  }

  /** Only this subscriber goes; all others stay listed, in their order. */
  lemma UnsubscribedKeeps(s: State, key: Key, id: SubscriberId)
    requires Inv(s)
    ensures Inv(Unsubscribed(s, key, id)) && Nested(s, Unsubscribed(s, key, id))
    ensures OnlyGoes(s.subscribers, Unsubscribed(s, key, id).subscribers, key, id)
    ensures id in Unsubscribed(s, key, id).dropped && Unsubscribed(s, key, id).log == s.log + [Dropped(id)]
  {
    OneGoes(s, key, id);
    hide Inv, Within, OnlyGoes;
    var t := Withdrawn(s, key, id);
    WithdrawnKeeps(s, key, id);
    LoggedKeeps(t, Dropped(id));
    WithinTransitive(s, t, Unsubscribed(s, key, id), CLOSERS);
  }

  lemma WithdrawnKeeps(s: State, key: Key, id: SubscriberId)
    requires Inv(s)
    ensures Inv(Withdrawn(s, key, id)) && Nested(s, Withdrawn(s, key, id))
  {
    assert SubscribersOrdered(s.subscribers, s.nextSubscriber);
    hide Inv, Within;
    if key in s.subscribers {
      WithdrawnOrdered(s.subscribers, s.nextSubscriber, key, id);
    } else {
      SubscribersSelf(s.subscribers, s.nextSubscriber);
    }
    TableKeeps(s, Withdrawn(s, key, id));
  }

  lemma WithdrawnOrdered(subscribers: map<Key, seq<Subscriber>>, n: SubscriberId, key: Key, id: SubscriberId)
    requires SubscribersOrdered(subscribers, n) && key in subscribers
    ensures var rest := Stored(subscribers, key, Without(subscribers[key], id));
            SubscribersOrdered(rest, n) && SubscribersGrow(subscribers, rest, n)
  {
    var list, rest := subscribers[key], Without(subscribers[key], id);
    WithoutAscending(list, id);
    forall i | 0 <= i < |rest| ensures rest[i] in list && rest[i].id < n {
      assert rest[i] in rest;
      var j :| 0 <= j < |list| && list[j] == rest[i];
    }
  }

  lemma OneGoes(s: State, key: Key, id: SubscriberId)
    ensures OnlyGoes(s.subscribers, Unsubscribed(s, key, id).subscribers, key, id)
  {
    var after := Unsubscribed(s, key, id).subscribers;
    assert Listed(after, key) == Without(Listed(s.subscribers, key), id);
    forall k: Key | k != key ensures Listed(after, k) == Listed(s.subscribers, k) {
    }
  }

  function Activated(s: State, id: SubscriberId): (t: State)
    ensures Costs(s, t, 0)
  {
    s.(active := s.active + {id})
  }

  lemma ActivatedKeeps(s: State, id: SubscriberId)
    requires Inv(s)
    ensures Inv(Activated(s, id)) && Nested(s, Activated(s, id))
  {
    SubscribersSelf(s.subscribers, s.nextSubscriber);
    TableKeeps(s, Activated(s, id));
  }

  /** The subscribers of `key` are taken out while they are invoked. */
  function Taken(s: State, key: Key): (t: State)
    ensures Costs(s, t, 0)
  {
    s.(subscribers := s.subscribers - {key})
  }

  lemma TakenKeeps(s: State, key: Key)
    requires Inv(s)
    ensures Inv(Taken(s, key)) && Nested(s, Taken(s, key))
  {
    TableKeeps(s, Taken(s, key));
  }

  /** Those that are kept go back, followed by the ones subscribed meanwhile. */
  function Merged(s: State, key: Key, kept: seq<Subscriber>): (t: State)
    ensures Costs(s, t, 0)
  {
    s.(subscribers := Stored(s.subscribers, key, kept + Listed(s.subscribers, key)))
  }

  /** Every id in the list is at least `n`. */
  ghost predicate Fresh(list: seq<Subscriber>, n: SubscriberId) {
    forall i :: 0 <= i < |list| ==> list[i].id >= n
  }

  /** `kept` is part of `list`, in the same order. */
  ghost predicate Kept(kept: seq<Subscriber>, list: seq<Subscriber>) {
    Ascending(kept) && forall i :: 0 <= i < |kept| ==> kept[i] in list
  }

  lemma FreshStays(a: State, b: State, key: Key, n: SubscriberId, may: iset<Key>)
    requires Within(a, b, may) && Fresh(Listed(a.subscribers, key), n) && n <= a.nextSubscriber
    ensures Fresh(Listed(b.subscribers, key), n)
  {
    hide LogGrows, Vacancies;
  }

  lemma MergedKeeps(start: State, s: State, key: Key, kept: seq<Subscriber>, may: iset<Key>)
    requires Inv(start) && Inv(s) && Within(start, s, may)
    requires key in start.subscribers && Kept(kept, start.subscribers[key])
    requires Fresh(Listed(s.subscribers, key), start.nextSubscriber)
    ensures Inv(Merged(s, key, kept)) && Within(start, Merged(s, key, kept), may)
  {
    hide QueueMatches, NothingLost, NothingAfterDrop, Flushes, WindowsConsistent, SubscribersOrdered, SubscribersGrow, LogGrows, EventsLive, Vacancies;
    assert SubscribersOrdered(start.subscribers, start.nextSubscriber);
    MergeOrdered(start.subscribers, start.nextSubscriber, s.subscribers, s.nextSubscriber, key, kept);
  }

  lemma MergeOrdered(before: map<Key, seq<Subscriber>>, m: SubscriberId, after: map<Key, seq<Subscriber>>, n: SubscriberId,
                     key: Key, kept: seq<Subscriber>)
    requires SubscribersOrdered(before, m) && SubscribersOrdered(after, n) && m <= n
    requires SubscribersGrow(before, after, m)
    requires key in before && Kept(kept, before[key]) && Fresh(Listed(after, key), m)
    ensures var merged := Stored(after, key, kept + Listed(after, key));
            SubscribersOrdered(merged, n) && SubscribersGrow(before, merged, m)
  {
    var list := kept + Listed(after, key);
    forall i | 0 <= i < |kept| ensures kept[i].id < m {
      var j :| 0 <= j < |before[key]| && before[key][j] == kept[i];
    }
    assert Ascending(list);
  }

  // ----- Updates and windows -----

  function Finished(s: State): (t: State)
    ensures Costs(s, t, 0)
  {
    s.(pendingUpdates := if s.pendingUpdates == 0 then 0 else s.pendingUpdates - 1)
  }

  function Started(s: State): (t: State)
    ensures Costs(s, t, 0)
  {
    s.(pendingUpdates := s.pendingUpdates + 1)
  }

  /** A nested update only counts up and down. */
  lemma UpdateWraps(s: State, t: State)
    requires Inv(s) && s.pendingUpdates >= 1 && Inv(t) && Nested(Started(s), t)
    ensures Inv(Started(s))
    ensures t.pendingUpdates >= 2
    ensures Inv(Finished(t)) && Nested(s, Finished(t))
  {
    hide QueueMatches, NothingLost, NothingAfterDrop, Flushes, WindowsConsistent, SubscribersOrdered, SubscribersGrow, LogGrows, EventsLive, Vacancies;
  }

  lemma StartedKeeps(s: State)
    requires Inv(s)
    ensures Inv(Started(s)) && Started(s).pendingUpdates == s.pendingUpdates + 1
  {
  }

  /** A window leaves its slot for the update stack. */
  function CheckedOut(s: State, w: WindowId): (t: State)
    ensures Costs(s, t, 0)
  {
    s.(windows := s.windows[w := Vacant], stack := s.stack + [w])
  }

  /** The innermost window comes off the stack. */
  function Unstacked(s: State): (t: State)
    ensures Costs(s, t, 0)
  {
    s.(stack := if s.stack == [] then [] else s.stack[..|s.stack| - 1])
  }

  function Returned(s: State, w: WindowId): (t: State)
    ensures Costs(s, t, 0)
  {
    Unstacked(s).(windows := s.windows[w := Occupied])
  }

  function Closed(s: State, w: WindowId): (t: State)
    ensures Costs(s, t, 0)
  {
    Unstacked(s).(windows := s.windows - {w}, handles := s.handles - {w})
  }

  lemma CheckedOutConsistent(s: State, w: WindowId)
    requires Inv(s) && w in s.windows && s.windows[w] == Occupied
    ensures Inv(CheckedOut(s, w))
    ensures Vacancies(CheckedOut(s, w).windows) == Vacancies(s.windows) + {w}
  {
    var t := CheckedOut(s, w);
    assert w !in Vacancies(s.windows);
    assert WindowsConsistent(t.windows, t.handles, t.nextWindow, t.stack, t.opening);
    hide QueueMatches, NothingLost, NothingAfterDrop, Flushes, WindowsConsistent, SubscribersOrdered, EventsLive, Vacancies;
  }

  predicate SameSlot(a: State, b: State, v: WindowId) {
    && (v in a.windows <==> v in b.windows) && (v in a.windows ==> b.windows[v] == a.windows[v])
    && (v in a.handles <==> v in b.handles)
  }

  /** The window is open and in its slot, and nothing has changed for any other. */
  ghost predicate InSlot(before: State, after: State, w: WindowId) {
    && w in after.windows && after.windows[w] == Occupied && w in after.handles
    && forall v :: v != w ==> SameSlot(before, after, v)
  }

  /** The window does not exist any more, and nothing has changed for any other. */
  ghost predicate NoSlot(before: State, after: State, w: WindowId) {
    w !in after.windows && w !in after.handles && forall v :: v != w ==> SameSlot(before, after, v)
  }

  lemma ReturnedInSlot(t: State, w: WindowId)
    requires w in t.handles
    ensures InSlot(t, Returned(t, w), w) && NoSlot(t, Closed(t, w), w)
  {
  }

  lemma FilledInSlot(t: State, w: WindowId)
    requires w !in t.handles
    ensures InSlot(t, SlotFilled(t, w), w) && NoSlot(t, SlotAbandoned(t, w), w)
  {
  }

  /** After the callback the stack is as the caller left it, the slot still exists and is empty, and
      putting the window back or removing it restores everything else. */
  lemma WindowWraps(s: State, t: State, w: WindowId)
    requires Inv(s) && w in s.windows && s.windows[w] == Occupied
    requires Inv(t) && Nested(CheckedOut(s, w), t)
    ensures |t.stack| > 0 && w in t.windows && t.windows[w] == Vacant
    ensures Inv(Returned(t, w)) && Nested(s, Returned(t, w))
    ensures Inv(Closed(t, w)) && Nested(s, Closed(t, w))
    ensures InSlot(t, Returned(t, w), w) && NoSlot(t, Closed(t, w), w)
  {
    HandleKnown(s, t, w);
    ReturnedInSlot(t, w);
    hide Inv, Within, InSlot, NoSlot, Returned, Closed;
    WindowRestores(s, t, w);
  }

  lemma WindowRestores(s: State, t: State, w: WindowId)
    requires Inv(s) && w in s.windows && s.windows[w] == Occupied
    requires Inv(t) && Nested(CheckedOut(s, w), t)
    ensures |t.stack| > 0 && w in t.windows && t.windows[w] == Vacant
    ensures Inv(Returned(t, w)) && Nested(s, Returned(t, w))
    ensures Inv(Closed(t, w)) && Nested(s, Closed(t, w))
  {
    hide QueueMatches, NothingLost, NothingAfterDrop, Flushes, WindowsConsistent, SubscribersOrdered, SubscribersGrow, LogGrows, EventsLive, Vacancies;
    CheckedOutConsistent(s, w);
    OccupiedIsFree(s, w);
    assert t.stack[..|t.stack| - 1] == s.stack;
    StackTopLeaves(t.windows, t.handles, t.nextWindow, s.stack, t.opening, w);
    assert Vacancies(s.windows) + {w} - {w} == Vacancies(s.windows);
  }

  lemma HandleKnown(s: State, t: State, w: WindowId)
    requires Inv(s) && w in s.windows && s.windows[w] == Occupied
    requires Inv(t) && Nested(CheckedOut(s, w), t)
    ensures w in t.handles
  {
    OccupiedIsFree(s, w);
    CheckedOutConsistent(s, w);
    assert WindowsConsistent(t.windows, t.handles, t.nextWindow, t.stack, t.opening);
    assert w in Vacancies(t.windows);
    hide QueueMatches, NothingLost, NothingAfterDrop, Flushes, SubscribersOrdered, SubscribersGrow, LogGrows, EventsLive;
  }

  lemma OccupiedIsFree(s: State, w: WindowId)
    requires Inv(s) && w in s.windows && s.windows[w] == Occupied
    ensures w !in Vacancies(s.windows) && w !in s.opening && w !in s.stack
  {
    assert WindowsConsistent(s.windows, s.handles, s.nextWindow, s.stack, s.opening);
  }

  lemma StackTopLeaves(windows: map<WindowId, Slot>, handles: set<WindowId>, next: WindowId,
                       stack: seq<WindowId>, opening: set<WindowId>, w: WindowId)
    requires WindowsConsistent(windows, handles, next, stack + [w], opening) && w !in opening
    ensures w in windows && windows[w] == Vacant
    ensures WindowsConsistent(windows[w := Occupied], handles, next, stack, opening)
    ensures WindowsConsistent(windows - {w}, handles - {w}, next, stack, opening)
    ensures Vacancies(windows[w := Occupied]) == Vacancies(windows) - {w} == Vacancies(windows - {w})
  {
    var top := stack + [w];
    assert top[|stack|] == w;
    forall i | 0 <= i < |stack| ensures stack[i] != w && stack[i] in Vacancies(windows) {
      assert top[i] == stack[i];
    }
    assert Distinct(stack) by {
      assert forall i :: 0 <= i < |stack| ==> top[i] == stack[i];
    }
  }

  /** A new, empty slot. */
  function SlotOpened(s: State): (t: State)
    ensures Costs(s, t, 0)
  {
    s.(windows := s.windows[s.nextWindow := Vacant], opening := s.opening + {s.nextWindow}, nextWindow := s.nextWindow + 1)
  }

  function SlotFilled(s: State, w: WindowId): (t: State)
    ensures Costs(s, t, 0)
  {
    s.(windows := s.windows[w := Occupied], opening := s.opening - {w}, handles := s.handles + {w})
  }

  function SlotAbandoned(s: State, w: WindowId): (t: State)
    ensures Costs(s, t, 0)
  {
    s.(windows := s.windows - {w}, opening := s.opening - {w})
  }

  lemma SlotOpenedKeeps(s: State)
    requires Inv(s)
    ensures Inv(SlotOpened(s)) && s.nextWindow !in s.stack && s.nextWindow !in s.opening
    ensures Vacancies(SlotOpened(s).windows) == Vacancies(s.windows) + {s.nextWindow}
    ensures s.nextWindow !in Vacancies(s.windows)
  {
    var t := SlotOpened(s);
    assert WindowsConsistent(t.windows, t.handles, t.nextWindow, t.stack, t.opening);
    hide QueueMatches, NothingLost, NothingAfterDrop, Flushes, WindowsConsistent, SubscribersOrdered, EventsLive, Vacancies;
  }

  /** However the opening ends, only the new window's slot is affected, and it is still there to fill. */
  lemma OpeningWraps(s: State, t: State)
    requires Inv(s) && Inv(t) && Nested(SlotOpened(s), t)
    ensures var w := s.nextWindow;
            && w in t.windows && t.windows[w] == Vacant
            && Inv(SlotFilled(t, w)) && Nested(s, SlotFilled(t, w))
            && Inv(SlotAbandoned(t, w)) && Nested(s, SlotAbandoned(t, w))
            && InSlot(t, SlotFilled(t, w), w) && NoSlot(t, SlotAbandoned(t, w), w)
  {
    NoHandleYet(s, t);
    FilledInSlot(t, s.nextWindow);
    hide InSlot, NoSlot;
    hide QueueMatches, NothingLost, NothingAfterDrop, Flushes, WindowsConsistent, SubscribersOrdered, SubscribersGrow, LogGrows, EventsLive, Vacancies;
    var w := s.nextWindow;
    SlotOpenedKeeps(s);
    assert s.opening + {w} - {w} == s.opening;
    assert Vacancies(s.windows) + {w} - {w} == Vacancies(s.windows);
    SlotCloses(t.windows, t.handles, t.nextWindow, t.stack, t.opening, w);
  }

  lemma NoHandleYet(s: State, t: State)
    requires Inv(s) && Inv(t) && Nested(SlotOpened(s), t)
    ensures s.nextWindow !in t.handles
  {
    assert WindowsConsistent(t.windows, t.handles, t.nextWindow, t.stack, t.opening);
    assert s.nextWindow in t.opening;
    hide QueueMatches, NothingLost, NothingAfterDrop, Flushes, SubscribersOrdered, SubscribersGrow, LogGrows, EventsLive;
  }

  lemma SlotCloses(windows: map<WindowId, Slot>, handles: set<WindowId>, next: WindowId,
                   stack: seq<WindowId>, opening: set<WindowId>, w: WindowId)
    requires WindowsConsistent(windows, handles, next, stack, opening) && w in opening && w !in stack
    ensures w in windows && windows[w] == Vacant
    ensures WindowsConsistent(windows[w := Occupied], handles + {w}, next, stack, opening - {w})
    ensures WindowsConsistent(windows - {w}, handles, next, stack, opening - {w})
    ensures Vacancies(windows[w := Occupied]) == Vacancies(windows) - {w} == Vacancies(windows - {w})
  {
    assert w in Vacancies(windows);
  }

  /** While its root view is built the new window is on the stack as well. */
  function Building(s: State, w: WindowId): (t: State)
    ensures Costs(s, t, 0)
  {
    s.(stack := s.stack + [w])
  }

  lemma BuildingWraps(s: State, t: State, w: WindowId)
    requires Inv(s) && w in s.opening && w !in s.stack
    requires Inv(t) && Nested(Building(s, w), t)
    ensures Inv(Building(s, w))
    ensures |t.stack| > 0
    ensures Inv(Unstacked(t)) && Nested(s, Unstacked(t))
  {
    var u := Unstacked(t);
    assert u.stack == s.stack;
    assert WindowsConsistent(u.windows, u.handles, u.nextWindow, u.stack, u.opening);
    hide QueueMatches, NothingLost, NothingAfterDrop, Flushes, WindowsConsistent, SubscribersOrdered, SubscribersGrow, LogGrows, EventsLive, Vacancies;
  }

  lemma BuildingKeeps(s: State, w: WindowId)
    requires Inv(s) && w in s.opening && w !in s.stack
    ensures Inv(Building(s, w))
  {
    var t := Building(s, w);
    assert WindowsConsistent(t.windows, t.handles, t.nextWindow, t.stack, t.opening);
    hide QueueMatches, NothingLost, NothingAfterDrop, Flushes, WindowsConsistent, SubscribersOrdered, EventsLive, Vacancies;
  }

  // ----- Small steps -----

  lemma EntityDroppedKeeps(s: State, e: EntityId)
    requires Inv(s)
    ensures var t := s.(droppedEntities := s.droppedEntities + [e]);
            Inv(t) && Nested(s, t)
  {
    WithinSelf(s, CLOSERS);
    hide QueueMatches, NothingLost, NothingAfterDrop, Flushes, WindowsConsistent, SubscribersOrdered, SubscribersGrow, LogGrows, EventsLive, Vacancies;
  }

  lemma RemovedMarkKeeps(s: State, removed: set<WindowId>)
    requires Inv(s) && s.removed <= removed
    ensures var t := s.(removed := removed);
            Inv(t) && Nested(s, t)
  {
    WithinSelf(s, CLOSERS);
    hide QueueMatches, NothingLost, NothingAfterDrop, Flushes, WindowsConsistent, SubscribersOrdered, SubscribersGrow, LogGrows, EventsLive, Vacancies;
  }

  /** What the next callback does; nothing once there are no reactions left. */
  function NextScript(s: State): Script {
    if s.reactions == [] then [] else s.reactions[0].script
  }

  /** Taking the next reaction pays for running its script. */
  function ReactionTaken(s: State): (t: State)
    ensures Costs(s, t, 0)
    ensures Fuel(t) + ScriptSize(NextScript(s)) <= Fuel(s) && Load(t) + ScriptSize(NextScript(s)) <= Load(s)
    ensures s.reactions != [] ==> Fuel(t) + ScriptSize(NextScript(s)) < Fuel(s)
  {
    if s.reactions == [] then s else s.(reactions := s.reactions[1..])
  }

  lemma ReactionTakenKeeps(s: State)
    requires Inv(s)
    ensures Inv(ReactionTaken(s)) && Nested(s, ReactionTaken(s))
  {
    WithinSelf(s, CLOSERS);
    hide QueueMatches, NothingLost, NothingAfterDrop, Flushes, WindowsConsistent, SubscribersOrdered, SubscribersGrow, LogGrows, EventsLive, Vacancies;
  }

  /** An invocation of a subscriber of `key` is recorded. */
  lemma InvocationKeeps(s: State, key: Key, id: SubscriberId)
    requires Inv(s) && (id !in s.dropped || key.OnRelease?)
    ensures var t := Logged(s, Invoked(key, id));
            && Inv(t) && Within(s, t, CLOSERS + iset{key})
            && RunsOf(t.log, key) == RunsOf(s.log, key) + [id]
  {
    var e := Invoked(key, id);
    NothingLostLogged(s.log, s.notifications, s.globalNotifications, e);
    NothingAfterDropLogged(s.log, s.dropped, e);
    FlushesLogged(s.log, s.flushing, e);
    forall k: Key ensures k !in CLOSERS + iset{key} ==> RunsOf(s.log + [e], k) == RunsOf(s.log, k) {
      RunsOfLogged(s.log, e, k);
    }
    RunsOfLogged(s.log, e, key);
    WithinSelf(s, CLOSERS);
    hide QueueMatches, NothingLost, NothingAfterDrop, Flushes, WindowsConsistent, SubscribersOrdered, SubscribersGrow, EventsLive, Vacancies;
  }

  // ----- Flushing -----

  /** At the level of the flush loop no window is checked out, so every open window is in its slot. */
  ghost predicate FlushLevel(s: State) {
    s.flushing && s.pendingUpdates == 1 && s.stack == [] && s.opening == {}
  }

  lemma FlushLevelWindows(s: State)
    requires Inv(s) && s.stack == [] && s.opening == {}
    ensures forall w :: w in s.windows ==> s.windows[w] == Occupied
    ensures s.handles == s.windows.Keys
  {
    assert WindowsConsistent(s.windows, s.handles, s.nextWindow, s.stack, s.opening);
    forall w | w in s.windows ensures s.windows[w] == Occupied {
      assert w !in Vacancies(s.windows);
    }
  }

  function FlushStarted(s: State): (t: State)
    ensures Costs(s, t, 0)
  {
    Logged(s, FlushBegan(s.pendingUpdates)).(flushing := true)
  }

  lemma FlushStartedKeeps(s: State)
    requires Inv(s) && !s.flushing && s.pendingUpdates == 1
    ensures Inv(FlushStarted(s))
  {
    hide QueueMatches, NothingLost, NothingAfterDrop, Flushes, WindowsConsistent, SubscribersOrdered, EventsLive;
    NothingLostLogged(s.log, s.notifications, s.globalNotifications, FlushBegan(1));
    NothingAfterDropLogged(s.log, s.dropped, FlushBegan(1));
    FlushBegins(s.log);
  }

  lemma FlushBegins(log: seq<Event>)
    requires Flushes(log, false)
    ensures Flushes(log + [FlushBegan(1)], true)
  {
    assert (log + [FlushBegan(1)])[..|log|] == log;
  }

  /** The oldest effect leaves the queue. */
  function Popped(s: State): (t: State)
    requires s.effects != []
    ensures Fuel(t) == Fuel(s) && Load(t) + 1 == Load(s)
  {
    Logged(s, Applied(s.effects[0])).(effects := s.effects[1..], applied := s.applied + [s.effects[0]])
  }

  lemma PoppedKeeps(s: State)
    requires Inv(s) && s.flushing && s.effects != []
    ensures InvWith(Popped(s), [s.effects[0]])
    ensures !s.effects[0].Deduplicated() ==> Inv(Popped(s))
    ensures s.effects[0].Emit? ==> s.effects[0].event.epoch == s.arenaEpoch
  {
    hide QueueMatches, NothingLost, NothingAfterDrop, Flushes, WindowsConsistent, SubscribersOrdered, EventsLive;
    var t, e := Popped(s), Applied(s.effects[0]);
    NothingLostLogged(s.log, s.notifications, s.globalNotifications, e);
    NothingAfterDropLogged(s.log, s.dropped, e);
    FlushesInside(s.log, e);
    PopSplits(s.effects, s.applied);
    QueueMatchesTail(s.effects, s.notifications, s.globalNotifications);
    EventsLiveTail(s.effects, s.arenaEpoch);
  }

  lemma FlushesInside(log: seq<Event>, e: Event)
    requires Flushes(log, true) && (e.Applied? || e == ArenaCleared(0))
    ensures Flushes(log + [e], true)
  {
    assert (log + [e])[..|log|] == log;
  }

  lemma PopSplits(queue: seq<Effect>, applied: seq<Effect>)
    requires queue != []
    ensures [queue[0]] + queue[1..] == queue == [] + queue && [] + queue[1..] == queue[1..]
    ensures applied + [queue[0]] + queue[1..] == applied + queue
  {
  }

  lemma EventsLiveTail(queue: seq<Effect>, epoch: nat)
    requires EventsLive(queue, epoch) && queue != []
    ensures EventsLive(queue[1..], epoch)
    ensures queue[0].Emit? ==> queue[0].event.epoch == epoch
  {
  }

  lemma QueueMatchesTail(queue: seq<Effect>, ns: set<EntityId>, gs: set<TypeId>)
    requires QueueMatches(queue, ns, gs) && queue != []
    ensures QueueMatches(queue[1..], if queue[0].Notify? then ns - {queue[0].emitter} else ns,
                         if queue[0].NotifyGlobalObservers? then gs - {queue[0].global} else gs)
  {
    forall x | x in queue && x != queue[0] ensures x in queue[1..] {
      var i :| 0 <= i < |queue| && queue[i] == x;
      assert queue[1..][i - 1] == x;
    }
  }

  /** Forgets that the popped notification was pending. */
  function Acknowledged(s: State, effect: Effect): (t: State)
    ensures Costs(s, t, 0)
  {
    match effect
    case Notify(e) => s.(notifications := s.notifications - {e})
    case NotifyGlobalObservers(g) => s.(globalNotifications := s.globalNotifications - {g})
    case _ => s
  }

  /** Every request for the popped notification was made before it was applied. */
  lemma AcknowledgedKeeps(s: State)
    requires Inv(s) && s.flushing && s.effects != []
    ensures Inv(Acknowledged(Popped(s), s.effects[0]))
  {
    var effect := s.effects[0];
    var p := Popped(s);
    var t := Acknowledged(p, effect);
    PoppedKeeps(s);
    if effect.Deduplicated() {
      hide QueueMatches, NothingLost, NothingAfterDrop, Flushes, WindowsConsistent, SubscribersOrdered, EventsLive;
      PopSplits(s.effects, s.applied);
      QueueMatchesTail(s.effects, s.notifications, s.globalNotifications);
      AppliedServes(s.log, s.notifications, s.globalNotifications, effect);
    }
  }

  lemma AppliedServes(log: seq<Event>, ns: set<EntityId>, gs: set<TypeId>, effect: Effect)
    requires NothingLost(log, ns, gs)
    ensures NothingLost(log + [Applied(effect)], if effect.Notify? then ns - {effect.emitter} else ns,
                        if effect.NotifyGlobalObservers? then gs - {effect.global} else gs)
  {
    var more := log + [Applied(effect)];
    NothingLostLogged(log, ns, gs, Applied(effect));
    forall k | 0 <= k < |more| && more[k].Requested? && more[k].effect == effect ensures Served(more, k, |more|) {
      assert more[|log|] == Applied(effect);
    }
  }

  /** The queue is empty: the event arena is cleared. */
  function ArenaReset(s: State): (t: State)
    ensures Costs(s, t, 0)
  {
    Logged(s, ArenaCleared(|s.effects|)).(arenaEpoch := s.arenaEpoch + 1)
  }

  lemma ArenaResetKeeps(s: State)
    requires Inv(s) && s.flushing && s.effects == []
    ensures Inv(ArenaReset(s))
  {
    hide QueueMatches, NothingLost, NothingAfterDrop, Flushes, WindowsConsistent, SubscribersOrdered;
    NothingLostLogged(s.log, s.notifications, s.globalNotifications, ArenaCleared(0));
    NothingAfterDropLogged(s.log, s.dropped, ArenaCleared(0));
    FlushesInside(s.log, ArenaCleared(0));
  }

  function FlushStopped(s: State): (t: State)
    ensures Costs(s, t, 0)
  {
    Logged(s, FlushEnded).(flushing := false)
  }

  lemma FlushStoppedKeeps(s: State)
    requires Inv(s) && s.flushing && s.effects == []
    ensures Inv(FlushStopped(s))
    ensures s.notifications == {} && s.globalNotifications == {}
  {
    NothingPending(s);
    NothingAfterDropLogged(s.log, s.dropped, FlushEnded);
    hide QueueMatches, NothingLost, NothingAfterDrop, WindowsConsistent, SubscribersOrdered;
    assert (s.log + [FlushEnded])[..|s.log|] == s.log;
    AllServed(s.log);
  }

  lemma NothingPending(s: State)
    requires Inv(s) && s.effects == []
    ensures s.notifications == {} && s.globalNotifications == {}
  {
    assert [] + s.effects == [];
    assert forall e :: e in s.notifications ==> Notify(e) in [] + s.effects;
    assert forall g :: g in s.globalNotifications ==> NotifyGlobalObservers(g) in [] + s.effects;
  }

  lemma AllServed(log: seq<Event>)
    requires NothingLost(log, {}, {})
    ensures NothingLost(log + [FlushEnded], {}, {})
  {
    var more := log + [FlushEnded];
    forall k | 0 <= k < |more| && more[k].Requested? ensures more[k].effect.Deduplicated() && Served(more, k, |log|) && Served(more, k, |more|) {
      assert Served(log, k, |log|);
      ServedStays(log, [FlushEnded], k, |log|);
    }
    forall k, f | 0 <= k < f < |more| && more[k].Requested? && more[f].FlushEnded? ensures Served(more, k, f) {
      if f < |log| {
        ServedStays(log, [FlushEnded], k, f);
      }
    }
  }
}
