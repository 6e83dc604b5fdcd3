/** What user code, callbacks, window updates and flushes keep, however deeply they are nested. */
module AppLaws {
  import opened Options
  import opened Sequences
  import opened AppState
  import opened AppSteps
  import opened AppSemantics

  /** Any subscriber may have been invoked. */
  ghost const ANY := iset k: Key | true

  /** Release listeners, and observers of the windows that they close. */
  ghost const RELEASERS := iset k: Key | k.OnRelease? || k == OnWindowClosed

  // ----- What a round of invocations promises -----

  /** The flush was aborted because the window an entity was created in is gone; it is never because the
      window is merely checked out, since nothing is on the update stack then. */
  ghost predicate Aborted(before: State, after: State, w: WindowId) {
    && before.log <= after.log && |before.log| < |after.log|
    && after.log[|after.log| - 1] == Panicked(w)
    && w !in after.windows && after.stack == []
  }

  ghost predicate AbortedOnClosedWindow(before: State, after: State) {
    exists w :: Aborted(before, after, w)
  }

  lemma AbortExtends(a: State, b: State, c: State)
    requires a.log <= b.log && AbortedOnClosedWindow(b, c)
    ensures AbortedOnClosedWindow(a, c)
  {
    var w :| Aborted(b, c, w);
    assert Aborted(a, c, w);
  }

  /** The invocations of `called` are in the log, in this order; between them only observers of closed windows
      may be invoked again, when windows are closed while such observers run. */
  ghost predicate RanAmong(a: seq<Event>, b: seq<Event>, key: Key, called: seq<SubscriberId>) {
    && RunsOf(a, key) <= RunsOf(b, key)
    && Subsequence(called, RunsOf(b, key)[|RunsOf(a, key)|..])
    && (key != OnWindowClosed ==> RunsOf(b, key) == RunsOf(a, key) + called)
  }

  lemma RanAmongNone(log: seq<Event>, key: Key)
    ensures RanAmong(log, log, key, [])
  {
  }

  lemma RanAmongTransitive(a: seq<Event>, b: seq<Event>, c: seq<Event>, key: Key, m: seq<SubscriberId>,
                           n: seq<SubscriberId>)
    requires RanAmong(a, b, key, m) && RanAmong(b, c, key, n)
    ensures RanAmong(a, c, key, m + n)
  {
    hide RunsOf;
    SubsequenceJoin(RunsOf(a, key), RunsOf(b, key), RunsOf(c, key), m, n);
    if key != OnWindowClosed {
      Associative(RunsOf(a, key), m, n);
    }
  }

  /** A subscriber that was not cancelled before, has been activated and wants this event. */
  ghost predicate CalledFrom(list: seq<Subscriber>, id: SubscriberId, dropped: set<SubscriberId>,
                             active: set<SubscriberId>, eventType: Option<TypeId>)
  {
    exists j :: 0 <= j < |list| && list[j].id == id && id !in dropped && Due(list[j], active, eventType)
  }

  /** The callback of this subscriber is due when its key is notified. */
  ghost predicate Due(sub: Subscriber, active: set<SubscriberId>, eventType: Option<TypeId>) {
    sub.id in active && (eventType.None? || sub.eventType == eventType.value)
  }

  /** `called` are subscribers of the list in subscription order, each once. None had been cancelled when the
      invocations began (`dropped`), and every one that was due then (`active`) is among them unless it has been
      cancelled by their end (`later`). */
  ghost predicate AllCalled(list: seq<Subscriber>, called: seq<SubscriberId>, active: set<SubscriberId>,
                            dropped: set<SubscriberId>, activeLater: set<SubscriberId>, later: set<SubscriberId>,
                            eventType: Option<TypeId>)
  {
    && (forall i, j :: 0 <= i < j < |called| ==> called[i] < called[j])
    && (forall i :: 0 <= i < |called| ==> CalledFrom(list, called[i], dropped, activeLater, eventType))
    && (forall j :: 0 <= j < |list| && Due(list[j], active, eventType) && list[j].id !in later ==>
          list[j].id in called)
  }

  /** Whoever was not invoked, or is never asked, stays unless it has been cancelled. */
  ghost predicate OthersStay(key: Key, list: seq<Subscriber>, called: seq<SubscriberId>, later: set<SubscriberId>,
                             kept: seq<Subscriber>)
  {
    forall j :: 0 <= j < |list| && list[j].id !in later && (list[j].id !in called || key.OnNew? || key.OnWindowClosed?)
                ==> list[j] in kept
  }

  ghost predicate RoundLaw(s: State, key: Key, list: seq<Subscriber>, eventType: Option<TypeId>, r: Round) {
    && Inv(r.end) && Within(s, r.end, CLOSERS + iset{key})
    && RanAmong(s.log, r.end.log, key, r.called)
    && AllCalled(list, r.called, s.active, s.dropped, r.end.active, r.end.dropped, eventType)
    && Kept(r.kept, list)
    && OthersStay(key, list, r.called, r.end.dropped, r.kept)
  }

  /** Between the two states exactly the due subscribers of `key` ran, in subscription order, each once; those
      that were not invoked are still subscribed. */
  ghost predicate Delivered(before: State, after: State, key: Key, eventType: Option<TypeId>,
                            called: seq<SubscriberId>)
  {
    var list := Listed(before.subscribers, key);
    && RanAmong(before.log, after.log, key, called)
    && AllCalled(list, called, before.active, before.dropped, after.active, after.dropped, eventType)
    && OthersStay(key, list, called, after.dropped, Listed(after.subscribers, key))
  }

  // ----- Lists -----

  lemma CalledFromLater(list: seq<Subscriber>, id: SubscriberId, dropped: set<SubscriberId>, more: set<SubscriberId>,
                        active: set<SubscriberId>, eventType: Option<TypeId>)
    requires list != [] && CalledFrom(list[1..], id, more, active, eventType) && dropped <= more
    ensures CalledFrom(list, id, dropped, active, eventType)
    ensures Ascending(list) ==> list[0].id < id
  {
    var j :| 0 <= j < |list[1..]| && list[1..][j].id == id && id !in more && Due(list[1..][j], active, eventType);
    assert list[j + 1] == list[1..][j];
  }

  lemma AscendingRest(list: seq<Subscriber>)
    requires Ascending(list) && list != []
    ensures Ascending(list[1..])
  {
  }

  /** The first subscriber was passed over. */
  lemma SkippedFirst(list: seq<Subscriber>, called: seq<SubscriberId>, active: set<SubscriberId>,
                     dropped: set<SubscriberId>, activeLater: set<SubscriberId>, later: set<SubscriberId>,
                     eventType: Option<TypeId>)
    requires list != [] && AllCalled(list[1..], called, active, dropped, activeLater, later, eventType)
    requires Due(list[0], active, eventType) ==> list[0].id in later
    ensures AllCalled(list, called, active, dropped, activeLater, later, eventType)
  {
    hide CalledFrom;
    forall i | 0 <= i < |called| ensures CalledFrom(list, called[i], dropped, activeLater, eventType) {
      CalledFromLater(list, called[i], dropped, dropped, activeLater, eventType);
    }
    assert forall j :: 0 < j < |list| ==> list[j] == list[1..][j - 1];
  }

  /** The first subscriber was invoked, and then the others had their turns. */
  lemma CalledFirst(list: seq<Subscriber>, called: seq<SubscriberId>, active: set<SubscriberId>,
                    dropped: set<SubscriberId>, activeThen: set<SubscriberId>, droppedThen: set<SubscriberId>,
                    activeLater: set<SubscriberId>, later: set<SubscriberId>, eventType: Option<TypeId>)
    requires list != [] && Ascending(list)
    requires AllCalled(list[1..], called, activeThen, droppedThen, activeLater, later, eventType)
    requires Due(list[0], active, eventType) && list[0].id !in dropped
    requires active <= activeThen <= activeLater && dropped <= droppedThen
    ensures AllCalled(list, [list[0].id] + called, active, dropped, activeLater, later, eventType)
  {
    var all := [list[0].id] + called;
    forall i | 0 <= i < |called|
      ensures CalledFrom(list, called[i], dropped, activeLater, eventType) && list[0].id < called[i]
    {
      CalledFromLater(list, called[i], dropped, droppedThen, activeLater, eventType);
    }
    assert CalledFrom(list, all[0], dropped, activeLater, eventType);
    hide CalledFrom;
    forall j | 0 <= j < |list| && Due(list[j], active, eventType) && list[j].id !in later ensures list[j].id in all {
      if j > 0 {
        assert list[j] == list[1..][j - 1];
        assert list[j].id in called;
      }
    }
  }

  lemma KeptFirst(list: seq<Subscriber>, kept: seq<Subscriber>, first: seq<Subscriber>)
    requires list != [] && Ascending(list) && Kept(kept, list[1..]) && (first == [] || first == [list[0]])
    ensures Kept(first + kept, list)
  {
    forall i | 0 <= i < |kept| ensures kept[i] in list && list[0].id < kept[i].id {
      var j :| 0 <= j < |list[1..]| && list[1..][j] == kept[i];
      assert list[j + 1] == kept[i];
    }
  }

  lemma OthersStayFirst(key: Key, list: seq<Subscriber>, first: seq<SubscriberId>, called: seq<SubscriberId>,
                        later: set<SubscriberId>, firstKept: seq<Subscriber>, kept: seq<Subscriber>)
    requires list != [] && OthersStay(key, list[1..], called, later, kept)
    requires list[0].id !in later && (first == [] || key.OnNew? || key.OnWindowClosed?) ==> firstKept == [list[0]]
    requires first == [] || first == [list[0].id]
    ensures OthersStay(key, list, first + called, later, firstKept + kept)
  {
    forall j | 0 <= j < |list| && list[j].id !in later
               && (list[j].id !in first + called || key.OnNew? || key.OnWindowClosed?)
      ensures list[j] in firstKept + kept
    {
      if j > 0 {
        assert list[j] == list[1..][j - 1];
      } else if first != [] {
        assert (first + called)[0] == list[0].id;
      }
    }
  }

  // ----- What holds of the fields after any code inside an update -----

  lemma WithinFields(a: State, b: State, may: iset<Key>)
    requires Within(a, b, may)
    ensures b.pendingUpdates == a.pendingUpdates && b.flushing == a.flushing && b.arenaEpoch == a.arenaEpoch
    ensures b.stack == a.stack && b.opening == a.opening && a.log <= b.log
    ensures a.active <= b.active && a.dropped <= b.dropped && a.removed <= b.removed
    ensures a.nextSubscriber <= b.nextSubscriber && b.applied == a.applied && a.effects <= b.effects
  {
  }

  lemma NestedRuns(a: State, b: State, key: Key)
    requires Nested(a, b) && key != OnWindowClosed
    ensures RunsOf(b.log, key) == RunsOf(a.log, key)
  {
    assert LogGrows(a.log, b.log, CLOSERS) && key !in CLOSERS;
  }

  lemma {:induction false} RunsOfPrefix(a: seq<Event>, b: seq<Event>, key: Key)
    requires a <= b
    ensures RunsOf(a, key) <= RunsOf(b, key)
  {
    if |a| == |b| {
      assert a == b;
    } else {
      RunsOfPrefix(a, b[..|b| - 1], key);
    }
  }

  lemma FlushLevelStays(a: State, b: State, may: iset<Key>)
    requires FlushLevel(a) && Within(a, b, may)
    ensures FlushLevel(b)
  {
  }

  // ----- User code -----

  lemma LeafKeeps(s: State, op: Op)
    requires Inv(s) && IsLeaf(op)
    ensures Inv(Leaf(s, op)) && Nested(s, Leaf(s, op))
  {
    hide Inv, Within, Pushed, Queued, Subscribed, Unsubscribed;
    match op {
      case DoNotify(e) => PushedKeeps(s, Notify(e));
      case DoNotifyGlobal(g) => PushedKeeps(s, NotifyGlobalObservers(g));
      case DoEmit(e, eventType) => QueuedKeeps(s, Emit(e, eventType, EventBox(s.arenaEpoch)));
      case DoRefresh => QueuedKeeps(s, RefreshWindows);
      case DoDefer => PushedKeeps(s, Defer(Callback));
      case DoSubscribe(key, eventType) => SubscribedKeeps(s, key, eventType);
      case DoUnsubscribe(key, id) => UnsubscribedKeeps(s, key, id);
      case DoDropEntity(e) => EntityDroppedKeeps(s, e);
      case DoRemoveWindow(w) =>
        WithinSelf(s, CLOSERS);
        RemovedMarkKeeps(s, s.removed + {w});
    }
  }

  /** A script keeps every invariant, and leaves alone what the code around it relies on. */
  lemma {:induction false} RanKeeps(s: State, script: Script)
    requires Inv(s) && s.pendingUpdates >= 1
    ensures Inv(Ran(s, script)) && Nested(s, Ran(s, script))
    decreases Fuel(s) + ScriptSize(script), 3, 0
  {
    hide Inv, Within, Did, ReactionsSize;
    WithinSelf(s, CLOSERS);
    if script != [] {
      var m := Did(s, script[0]);
      DidKeeps(s, script[0]);
      WithinFields(s, m, CLOSERS);
      RanKeeps(m, script[1..]);
      WithinTransitive(s, m, Ran(m, script[1..]), CLOSERS);
    }
  }

  lemma {:induction false} DidKeeps(s: State, op: Op)
    requires Inv(s) && s.pendingUpdates >= 1
    ensures Inv(Did(s, op)) && Nested(s, Did(s, op))
    decreases Fuel(s) + OpSize(op), 2, 0
  {
    hide Inv, Within, Ran, ReactionsSize, Started, Finished, UpdatedWindow, Opened, Announced, Leaf;
    StartedKeeps(s);
    match op
    case DoUpdate(body) =>
      RanKeeps(Started(s), body);
      UpdateWraps(s, Ran(Started(s), body));
    case DoNewEntity(e, tid, build) =>
      var x := Ran(Started(s), build);
      RanKeeps(Started(s), build);
      AnnouncedKeeps(x, e, tid);
      WithinTransitive(Started(s), x, Announced(x, e, tid), CLOSERS);
      UpdateWraps(s, Announced(x, e, tid));
    case DoUpdateWindow(w, body) =>
      UpdatedWindowKeeps(s, w, body);
    case DoOpenWindow(succeeds, create, build, draw) =>
      OpenedKeeps(Started(s), succeeds, create, build, draw);
      UpdateWraps(s, Opened(Started(s), succeeds, create, build, draw));
    case _ =>
      LeafKeeps(s, op);
  }

  lemma AnnouncedKeeps(s: State, e: EntityId, tid: TypeId)
    requires Inv(s)
    ensures Inv(Announced(s, e, tid)) && Nested(s, Announced(s, e, tid))
  {
    hide Inv, Within, Pushed;
    PushedKeeps(s, EntityCreated(e, tid, InnermostWindow(s)));
  }

  // ----- Windows -----

  /** A window in its slot is updated, and afterwards it is in its slot again unless it has been marked; then it is
      gone. Any other window is refused, and nothing else happens. */
  ghost predicate UpdatedExactly(s: State, t: State, w: WindowId) {
    if w in s.windows && s.windows[w] == Occupied then
      && s.log + [WindowRan(w)] <= t.log
      && (w !in t.removed ==> w in t.windows && t.windows[w] == Occupied && w in t.handles)
      && (w in t.removed ==> w !in t.windows)
    else t == s.(log := s.log + [WindowRefused(w)])
  }

  lemma {:induction false} UpdatedWindowKeeps(s: State, w: WindowId, body: Script)
    requires Inv(s) && s.pendingUpdates >= 1
    ensures Inv(UpdatedWindow(s, w, body)) && Nested(s, UpdatedWindow(s, w, body))
    ensures UpdatedExactly(s, UpdatedWindow(s, w, body), w)
    decreases Fuel(s) + ScriptSize(body), 6, 0
  {
    hide Inv, Within, ReactionsSize, ScriptSize, RanIn;
    if Available(s, w) {
      var t := Logged(Started(s), WindowRan(w));
      StartedKeeps(s);
      LoggedKeeps(Started(s), WindowRan(w));
      RanInKeeps(t, w, body);
      WithinFields(t, RanIn(t, w, body), CLOSERS);
      WithinTransitive(Started(s), t, RanIn(t, w, body), CLOSERS);
      UpdateWraps(s, RanIn(t, w, body));
    } else {
      LoggedKeeps(s, WindowRefused(w));
    }
  }

  /** However the callback uses the window, afterwards exactly this window is back in its slot or closed. */
  lemma {:induction false} RanInKeeps(s: State, w: WindowId, body: Script)
    requires Inv(s) && s.pendingUpdates >= 1 && Available(s, w)
    ensures Inv(RanIn(s, w, body)) && Nested(s, RanIn(s, w, body))
    ensures var x, t := Ran(CheckedOut(s, w), body), RanIn(s, w, body);
            && (w !in x.removed ==> InSlot(x, t, w) && t.removed == x.removed)
            && (w in x.removed ==> w !in t.windows && w in t.removed)
    decreases Fuel(s) + ScriptSize(body), 5, 0
  {
    hide Inv, Within, ReactionsSize, ScriptSize, Left, Ran, InSlot, NoSlot;
    var c := CheckedOut(s, w);
    CheckedOutConsistent(s, w);
    RanKeeps(c, body);
    WithinFields(c, Ran(c, body), CLOSERS);
    LeftKeeps(s, Ran(c, body), w);
  }

  lemma {:induction false} LeftKeeps(s: State, t: State, w: WindowId)
    requires Inv(s) && s.pendingUpdates >= 1 && Available(s, w)
    requires Inv(t) && Nested(CheckedOut(s, w), t)
    ensures Inv(Left(t, w)) && Nested(s, Left(t, w))
    ensures w in t.windows && t.windows[w] == Vacant
    ensures w in t.removed ==> Delivered(Closed(t, w), Left(t, w), OnWindowClosed, None, ClosersCalled(t, w))
    ensures w in t.removed ==> NoSlot(t, Closed(t, w), w) && w !in Left(t, w).windows && w in Left(t, w).removed
    ensures w !in t.removed ==> InSlot(t, Left(t, w), w) && Left(t, w).removed == t.removed
    decreases Fuel(t), 4, 0
  {
    hide Inv, Within, ReactionsSize, Delivered, InSlot, NoSlot, Answered;
    WindowWraps(s, t, w);
    if w in t.removed {
      WithinFields(CheckedOut(s, w), t, CLOSERS);
      var c := Closed(t, w);
      assert Fuel(c) <= Fuel(t);
      RetainedKeeps(c, OnWindowClosed, None, None);
      assert CLOSERS + iset{OnWindowClosed} == CLOSERS;
      WithinTransitive(s, c, Left(t, w), CLOSERS);
      WithinFields(c, Left(t, w), CLOSERS);
      StaysClosed(t, Left(t, w), w);
    }
  }

  /** The observers that are told when the window is closed. */
  function ClosersCalled(t: State, w: WindowId): seq<SubscriberId> {
    Retained(Closed(t, w), OnWindowClosed, None, None).called
  }

  lemma StaysClosed(t: State, s: State, w: WindowId)
    requires Inv(t) && w in t.windows
    requires Nested(Closed(t, w), s)
    ensures w !in s.windows
  {
    assert WindowsConsistent(t.windows, t.handles, t.nextWindow, t.stack, t.opening);
    hide LogGrows, SubscribersGrow, Vacancies;
  }

  lemma {:induction false} OpenedKeeps(s: State, succeeds: bool, create: Script, build: Script, draw: Script)
    requires Inv(s) && s.pendingUpdates >= 1
    ensures var t := Opened(s, succeeds, create, build, draw);
            && Inv(t) && Nested(s, t)
            && (succeeds ==> s.nextWindow in t.windows && t.windows[s.nextWindow] == Occupied && s.nextWindow in t.handles)
            && (!succeeds ==> s.nextWindow !in t.windows && s.nextWindow !in t.handles)
            && s.nextWindow !in s.windows
    decreases Fuel(s) + 1 + ScriptSize(create) + ScriptSize(build) + ScriptSize(draw), 1, 0
  {
    hide Inv, Within, ReactionsSize, ScriptSize, Ran, Built, SlotOpened, SlotFilled, SlotAbandoned;
    var slot := SlotOpened(s);
    var created := Ran(slot, create);
    SlotOpenedKeeps(s);
    NewSlot(s);
    SlotOpenedFields(s);
    RanKeeps(slot, create);
    WithinFields(slot, created, CLOSERS);
    if succeeds {
      var w := s.nextWindow;
      BuiltKeeps(created, w, build, draw);
      WithinTransitive(slot, created, Built(created, w, build, draw), CLOSERS);
      OpeningWraps(s, Built(created, w, build, draw));
    } else {
      OpeningWraps(s, created);
    }
  }

  lemma NewSlot(s: State)
    requires Inv(s)
    ensures s.nextWindow !in s.windows
  {
    assert WindowsConsistent(s.windows, s.handles, s.nextWindow, s.stack, s.opening);
  }

  lemma SlotOpenedFields(s: State)
    ensures var t := SlotOpened(s);
            t.pendingUpdates == s.pendingUpdates && t.stack == s.stack && t.opening == s.opening + {s.nextWindow}
  {
  }

  lemma {:induction false} BuiltKeeps(s: State, w: WindowId, build: Script, draw: Script)
    requires Inv(s) && s.pendingUpdates >= 1 && w in s.opening && w !in s.stack
    ensures Inv(Built(s, w, build, draw)) && Nested(s, Built(s, w, build, draw))
    decreases Fuel(s) + 1 + ScriptSize(build) + ScriptSize(draw), 0, 0
  {
    hide Inv, Within, ReactionsSize, ScriptSize, Ran, Pushed;
    BuildingKeeps(s, w);
    var x := Ran(Building(s, w), build);
    RanKeeps(Building(s, w), build);
    BuildingWraps(s, x, w);
    var y, z := Unstacked(x), Pushed(Unstacked(x), Defer(Callback));
    PushedKeeps(y, Defer(Callback));
    WithinTransitive(s, y, z, CLOSERS);
    WithinFields(s, z, CLOSERS);
    RanKeeps(z, draw);
    WithinTransitive(s, z, Ran(z, draw), CLOSERS);
  }

  // ----- Callbacks -----

  lemma {:induction false} ReactedKeeps(s: State)
    requires Inv(s) && s.pendingUpdates >= 1
    ensures Inv(Reacted(s)) && Nested(s, Reacted(s))
    decreases Fuel(s), 0, 0
  {
    hide Inv, Within, ReactionsSize, Ran;
    WithinSelf(s, CLOSERS);
    if s.reactions != [] {
      var t := ReactionTaken(s);
      ReactionTakenKeeps(s);
      WithinFields(s, t, CLOSERS);
      RanKeeps(t, NextScript(s));
      WithinTransitive(s, t, Ran(t, NextScript(s)), CLOSERS);
    }
  }

  /** One invocation. It fails exactly if a listener for new entities is due in a window that has been closed. */
  lemma {:induction false} CalledKeeps(s: State, key: Key, id: SubscriberId, window: Option<WindowId>)
    requires Inv(s) && s.pendingUpdates >= 1 && (id !in s.dropped || key.OnRelease?)
    requires key.OnNew? ==> FlushLevel(s)
    ensures var c := Called(s, key, id, window);
            && (c.ok <==> !(key.OnNew? && window.Some? && window.value !in s.windows))
            && (c.ok ==> Inv(c.end) && Within(s, c.end, CLOSERS + iset{key}) && RanAmong(s.log, c.end.log, key, [id]))
            && (c.ok ==> s.log + [Invoked(key, id)] <= c.end.log)
            && (c.ok && key.OnNew? && window.Some? ==> s.log + [Invoked(key, id)] + [WindowRan(window.value)] <= c.end.log)
            && (!c.ok ==> Aborted(s, c.end, window.value))
    decreases Fuel(s), if key.OnNew? then 7 else 1, 0
  {
    hide Inv, Within, ReactionsSize, Reacted, UpdatedWindow, RunsOf, RanAmong, FlushLevel;
    var t := Logged(s, Invoked(key, id));
    InvocationKeeps(s, key, id);
    WithinFields(s, t, CLOSERS + iset{key});
    if key.OnNew? && window.Some? {
      OpenIsAvailable(s, window.value);
      if Available(s, window.value) {
        var u := ReactionTaken(t);
        ReactionTakenKeeps(t);
        WithinFields(t, u, CLOSERS);
        UpdatedWindowKeeps(u, window.value, NextScript(t));
        WithinTransitive(t, u, UpdatedWindow(u, window.value, NextScript(t)), CLOSERS);
        InvocationDone(s, t, UpdatedWindow(u, window.value, NextScript(t)), key, id);
      }
    } else {
      ReactedKeeps(t);
      WithinFields(t, Reacted(t), CLOSERS);
      InvocationDone(s, t, Reacted(t), key, id);
    }
  }

  lemma OpenIsAvailable(s: State, w: WindowId)
    requires Inv(s) && FlushLevel(s)
    ensures Available(s, w) <==> w in s.windows
    ensures s.stack == []
  {
    FlushLevelWindows(s);
  }

  lemma InvocationDone(s: State, t: State, u: State, key: Key, id: SubscriberId)
    requires Within(s, t, CLOSERS + iset{key}) && Nested(t, u)
    requires RunsOf(t.log, key) == RunsOf(s.log, key) + [id]
    ensures Within(s, u, CLOSERS + iset{key}) && RanAmong(s.log, u.log, key, [id])
  {
    WithinFields(t, u, CLOSERS);
    RunsOfPrefix(t.log, u.log, key);
    if key != OnWindowClosed {
      NestedRuns(t, u, key);
    }
    hide Within, RunsOf;
    WithinWeaker(t, u, CLOSERS, CLOSERS + iset{key});
    WithinTransitive(s, t, u, CLOSERS + iset{key});
    SubsequenceFirst(RunsOf(s.log, key), id, RunsOf(u.log, key));
  }

  /** A round of invocations: everyone due has exactly one turn, in subscription order. */
  lemma {:induction false} RoundKeeps(s: State, key: Key, list: seq<Subscriber>, eventType: Option<TypeId>,
                                      window: Option<WindowId>)
    requires Inv(s) && s.pendingUpdates >= 1 && Ascending(list)
    requires key.OnNew? ==> FlushLevel(s)
    ensures var r := RoundOver(s, key, list, eventType, window);
            && (r.ok ==> RoundLaw(s, key, list, eventType, r))
            && (r.ok ==> Answered(s, key, list, eventType, window, r.called, r.kept))
            && (!r.ok ==> key.OnNew? && window.Some? && Aborted(s, r.end, window.value))
    decreases Fuel(s), if key.OnNew? then 8 else 2, |list|
  {
    if RoundOver(s, key, list, eventType, window).ok {
      AnsweredStay(s, key, list, eventType, window);
    }
    hide Answered, Inv, Within, ReactionsSize, Called, RanAmong, AllCalled, OthersStay, Kept, Ascending, FlushLevel, Aborted;
    if list == [] {
      NothingToDo(s, key, eventType);
    } else {
      AscendingRest(list);
      if !Callable(s, list[0], eventType) {
        RoundKeeps(s, key, list[1..], eventType, window);
        SkipLaw(s, key, list, eventType, window);
      } else {
        var c := Called(s, key, list[0].id, window);
        CalledKeeps(s, key, list[0].id, window);
        if c.ok {
          WithinFields(s, c.end, CLOSERS + iset{key});
          if key.OnNew? {
            FlushLevelStays(s, c.end, CLOSERS + iset{key});
          }
          RoundKeeps(c.end, key, list[1..], eventType, window);
          var rest := RoundOver(c.end, key, list[1..], eventType, window);
          if rest.ok {
            CallLaw(s, c.end, key, list, eventType, rest, WantsToStay(s, key));
          } else {
            AbortLater(s, c.end, rest.end, window.value);
          }
        }
      }
    }
  }

  lemma AbortLater(a: State, b: State, c: State, w: WindowId)
    requires a.log <= b.log && Aborted(b, c, w)
    ensures Aborted(a, c, w)
  {
  }

  lemma NothingToDo(s: State, key: Key, eventType: Option<TypeId>)
    requires Inv(s)
    ensures RoundLaw(s, key, [], eventType, Round(true, s, [], []))
  {
    hide Inv;
    WithinSelf(s, CLOSERS + iset{key});
    RanAmongNone(s.log, key);
  }

  lemma SkipLaw(s: State, key: Key, list: seq<Subscriber>, eventType: Option<TypeId>, window: Option<WindowId>)
    requires list != [] && Ascending(list) && !Callable(s, list[0], eventType)
    requires var rest := RoundOver(s, key, list[1..], eventType, window);
             rest.ok ==> RoundLaw(s, key, list[1..], eventType, rest)
    ensures var r := RoundOver(s, key, list, eventType, window);
            r.ok ==> RoundLaw(s, key, list, eventType, r)
  {
    hide Inv, Within, Called, RanAmong, AllCalled, OthersStay, Kept, Ascending;
    var rest := RoundOver(s, key, list[1..], eventType, window);
    if rest.ok {
      WithinFields(s, rest.end, CLOSERS + iset{key});
      var kept := if list[0].id in s.active && list[0].id in s.dropped then [] else [list[0]];
      SkippedFirst(list, rest.called, s.active, s.dropped, rest.end.active, rest.end.dropped, eventType);
      KeptFirst(list, rest.kept, kept);
      OthersStayFirst(key, list, [], rest.called, rest.end.dropped, kept, rest.kept);
      assert [] + rest.called == rest.called;
    }
  }

  lemma CallLaw(s: State, c: State, key: Key, list: seq<Subscriber>, eventType: Option<TypeId>, rest: Round, wants: bool)
    requires list != [] && Ascending(list) && Callable(s, list[0], eventType) && rest.ok
    requires Within(s, c, CLOSERS + iset{key}) && RanAmong(s.log, c.log, key, [list[0].id])
    requires RoundLaw(c, key, list[1..], eventType, rest)
    requires key.OnNew? || key.OnWindowClosed? ==> wants
    ensures var kept := if wants && list[0].id !in c.dropped then [list[0]] else [];
            RoundLaw(s, key, list, eventType, Preceded([list[0].id], kept, rest))
  {
    hide Inv, Within, Called, RanAmong, AllCalled, OthersStay, Kept, Ascending;
    var kept := if wants && list[0].id !in c.dropped then [list[0]] else [];
    var may := CLOSERS + iset{key};
    WithinFields(s, c, may);
    WithinFields(c, rest.end, may);
    WithinTransitive(s, c, rest.end, may);
    RanAmongTransitive(s.log, c.log, rest.end.log, key, [list[0].id], rest.called);
    CalledFirst(list, rest.called, s.active, s.dropped, c.active, c.dropped, rest.end.active, rest.end.dropped, eventType);
    KeptFirst(list, rest.kept, kept);
    OthersStayFirst(key, list, [list[0].id], rest.called, rest.end.dropped, kept, rest.kept);
  }

  /** `retain`: a whole round, with the subscribers out of the table meanwhile. */
  lemma {:induction false} RetainedKeeps(s: State, key: Key, eventType: Option<TypeId>, window: Option<WindowId>)
    requires Inv(s) && s.pendingUpdates >= 1
    requires key.OnNew? ==> FlushLevel(s)
    ensures var r := Retained(s, key, eventType, window);
            && (r.ok ==> Inv(r.end) && Within(s, r.end, CLOSERS + iset{key}) && Delivered(s, r.end, key, eventType, r.called))
            && (r.ok ==> Answered(Taken(s, key), key, Listed(s.subscribers, key), eventType, window, r.called,
                                  Listed(r.end.subscribers, key)))
            && (r.ok ==> Newcomers(s, key, eventType, window, r))
            && (!r.ok ==> key.OnNew? && window.Some? && Aborted(s, r.end, window.value))
    decreases Fuel(s), if key.OnNew? then 9 else 3, 0
  {
    hide Inv, Within, ReactionsSize, RanAmong, AllCalled, OthersStay, Kept, Ascending, FlushLevel, Aborted, RoundOver,
         Answered, Newcomers;
    var may := CLOSERS + iset{key};
    if key !in s.subscribers {
      NobodyAnswers(s, key, eventType, window);
      WithinSelf(s, may);
      RanAmongNone(s.log, key);
      NoneListed(key, s.active, s.dropped, eventType);
    } else {
      var t := Taken(s, key);
      TakenKeeps(s, key);
      TakenAscending(s, key);
      TakenFields(s, key);
      RoundKeeps(t, key, s.subscribers[key], eventType, window);
      var r := RoundOver(t, key, s.subscribers[key], eventType, window);
      if r.ok {
        WithinWeaker(s, t, CLOSERS, may);
        WithinTransitive(s, t, r.end, may);
        FreshStays(t, r.end, key, s.nextSubscriber, may);
        MergedKeeps(s, r.end, key, r.kept, may);
        MergedLists(r.end, key, r.kept, s.subscribers[key], r.called);
        MergedAnswers(s, r.end, key, eventType, window, r.called, r.kept);
        MergedNewcomers(s, key, eventType, window);
      } else {
        AbortLater(s, t, r.end, window.value);
      }
    }
  }

  /**
   Who stays of those that were invoked: at the end of its turn the subscriber has not been cancelled and, in sets
   that ask, it answered that it stays. Its answer is part of the reaction that was next when its turn came.
   */
  ghost predicate Answered(s: State, key: Key, list: seq<Subscriber>, eventType: Option<TypeId>, window: Option<WindowId>,
                           called: seq<SubscriberId>, after: seq<Subscriber>)
  {
    forall j :: 0 <= j < |list| && list[j].id in called ==>
      (list[j] in after <==> StaysAfterTurn(s, key, list, j, eventType, window))
  }

  ghost predicate StaysAfterTurn(s: State, key: Key, list: seq<Subscriber>, j: nat, eventType: Option<TypeId>,
                                 window: Option<WindowId>)
    requires j < |list|
  {
    var at, then_ := UpTo(s, key, list, j, eventType, window).end, UpTo(s, key, list, j + 1, eventType, window).end;
    && list[j].id !in then_.dropped
    && (key.OnWindowClosed? || key.OnNew? || at.reactions == [] || at.reactions[0].keep)
  }

  /** Those who subscribed during the round are listed behind the ones that stay, all of them and in their order. */
  ghost predicate Newcomers(s: State, key: Key, eventType: Option<TypeId>, window: Option<WindowId>, r: Round) {
    var during := RoundOver(Taken(s, key), key, Listed(s.subscribers, key), eventType, window).end;
    && Listed(r.end.subscribers, key) == r.kept + (if key in s.subscribers then Listed(during.subscribers, key) else [])
    && (forall x :: x in r.kept ==> x in Listed(s.subscribers, key))
  }

  lemma NobodyAnswers(s: State, key: Key, eventType: Option<TypeId>, window: Option<WindowId>)
    requires key !in s.subscribers
    ensures Answered(Taken(s, key), key, Listed(s.subscribers, key), eventType, window, [], Listed(s.subscribers, key))
    ensures Newcomers(s, key, eventType, window, Round(true, s, [], []))
  {
    hide RoundOver, UpTo;
  }

  lemma MergedAnswers(s: State, end: State, key: Key, eventType: Option<TypeId>, window: Option<WindowId>,
                      called: seq<SubscriberId>, kept: seq<Subscriber>)
    requires Inv(s) && key in s.subscribers && Fresh(Listed(end.subscribers, key), s.nextSubscriber)
    requires Answered(Taken(s, key), key, s.subscribers[key], eventType, window, called, kept)
    ensures Answered(Taken(s, key), key, s.subscribers[key], eventType, window, called,
                     Listed(Merged(end, key, kept).subscribers, key))
  {
    assert SubscribersOrdered(s.subscribers, s.nextSubscriber);
    hide StaysAfterTurn, Inv;
    var list, after := s.subscribers[key], Listed(Merged(end, key, kept).subscribers, key);
    assert after == kept + Listed(end.subscribers, key);
    forall j | 0 <= j < |list| ensures list[j] in after <==> list[j] in kept {
      assert list[j].id < s.nextSubscriber;
    }
  }

  lemma MergedNewcomers(s: State, key: Key, eventType: Option<TypeId>, window: Option<WindowId>)
    requires key in s.subscribers && Retained(s, key, eventType, window).ok
    requires var r := Retained(s, key, eventType, window); Kept(r.kept, s.subscribers[key])
    ensures Newcomers(s, key, eventType, window, Retained(s, key, eventType, window))
  {
    hide RoundOver;
    var r := RoundOver(Taken(s, key), key, s.subscribers[key], eventType, window);
    assert Listed(Merged(r.end, key, r.kept).subscribers, key) == r.kept + Listed(r.end.subscribers, key);
    var kept := Retained(s, key, eventType, window).kept;
    forall x | x in kept ensures x in s.subscribers[key] {
      var i :| 0 <= i < |kept| && kept[i] == x;
    }
  }

  /** Nobody is kept in the turn of another. */
  lemma {:induction false} KeptListed(s: State, key: Key, list: seq<Subscriber>, eventType: Option<TypeId>,
                                      window: Option<WindowId>, x: Subscriber)
    requires x !in list
    ensures x !in RoundOver(s, key, list, eventType, window).kept
    decreases |list|
  {
    if list != [] {
      assert list[0] in list && forall y :: y in list[1..] ==> y in list;
      RoundUnfolds(s, key, list, eventType, window);
      KeptListed(s, key, list[1..], eventType, window, x);
      KeptListed(Called(s, key, list[0].id, window).end, key, list[1..], eventType, window, x);
      KeptOfOne(s, key, list[0], eventType, s);
      KeptOfOne(s, key, list[0], eventType, Called(s, key, list[0].id, window).end);
      hide RoundOver, KeptOf, Called, Callable;
    }
  }

  lemma KeptOfOne(s: State, key: Key, sub: Subscriber, eventType: Option<TypeId>, end: State)
    ensures KeptOf(s, key, sub, eventType, end) == [] || KeptOf(s, key, sub, eventType, end) == [sub]
  {
  }

  lemma AnsweredStay(s: State, key: Key, list: seq<Subscriber>, eventType: Option<TypeId>, window: Option<WindowId>)
    requires Ascending(list) && RoundOver(s, key, list, eventType, window).ok
    ensures var r := RoundOver(s, key, list, eventType, window);
            Answered(s, key, list, eventType, window, r.called, r.kept)
  {
    hide RoundOver, StaysAfterTurn, UpTo;
    var r := RoundOver(s, key, list, eventType, window);
    forall j | 0 <= j < |list| && list[j].id in r.called
      ensures list[j] in r.kept <==> StaysAfterTurn(s, key, list, j, eventType, window)
    {
      StaysIfAnswered(s, key, list, j, eventType, window);
    }
  }

  lemma StaysIfAnswered(s: State, key: Key, list: seq<Subscriber>, j: nat, eventType: Option<TypeId>,
                        window: Option<WindowId>)
    requires Ascending(list) && j < |list| && RoundOver(s, key, list, eventType, window).ok
    requires list[j].id in RoundOver(s, key, list, eventType, window).called
    ensures list[j] in RoundOver(s, key, list, eventType, window).kept
            <==> StaysAfterTurn(s, key, list, j, eventType, window)
  {
    hide RoundOver, Called, UpTo, KeptOf;
    InvokedAtItsTurn(s, key, list, j, eventType, window);
    PartsOfRound(s, key, list, j, eventType, window);
    PartsOfRound(s, key, list, j + 1, eventType, window);
    NextTurn(s, key, list, j, eventType, window);
    var x := list[j];
    KeptBefore(s, key, list, j, eventType, window);
    KeptListed(UpTo(s, key, list, j + 1, eventType, window).end, key, list[j + 1..], eventType, window, x);
    AnswerOfTurn(UpTo(s, key, list, j, eventType, window).end, key, x, eventType,
                 UpTo(s, key, list, j + 1, eventType, window).end);
  }

  lemma KeptBefore(s: State, key: Key, list: seq<Subscriber>, j: nat, eventType: Option<TypeId>, window: Option<WindowId>)
    requires Ascending(list) && j < |list|
    ensures list[j] !in UpTo(s, key, list, j, eventType, window).kept
  {
    hide RoundOver;
    KeptListed(s, key, list[..j], eventType, window, list[j]);
  }

  lemma AnswerOfTurn(s: State, key: Key, sub: Subscriber, eventType: Option<TypeId>, end: State)
    requires Callable(s, sub, eventType)
    ensures sub in KeptOf(s, key, sub, eventType, end)
            <==> sub.id !in end.dropped
                 && (key.OnWindowClosed? || key.OnNew? || s.reactions == [] || s.reactions[0].keep)
  {
  }

  lemma NoneListed(key: Key, active: set<SubscriberId>, dropped: set<SubscriberId>, eventType: Option<TypeId>)
    ensures AllCalled([], [], active, dropped, active, dropped, eventType) && OthersStay(key, [], [], dropped, [])
  {
  }

  lemma TakenAscending(s: State, key: Key)
    requires Inv(s) && key in s.subscribers
    ensures Ascending(s.subscribers[key])
  {
    assert SubscribersOrdered(s.subscribers, s.nextSubscriber);
  }

  lemma TakenFields(s: State, key: Key)
    ensures var t := Taken(s, key);
            && t.log == s.log && t.active == s.active && t.dropped == s.dropped && t.pendingUpdates == s.pendingUpdates
            && t.nextSubscriber == s.nextSubscriber && (FlushLevel(t) <==> FlushLevel(s))
            && Fresh(Listed(t.subscribers, key), s.nextSubscriber)
  {
  }

  lemma MergedLists(s: State, key: Key, kept: seq<Subscriber>, list: seq<Subscriber>, called: seq<SubscriberId>)
    requires OthersStay(key, list, called, s.dropped, kept)
    ensures var t := Merged(s, key, kept);
            t.log == s.log && t.active == s.active && t.dropped == s.dropped
            && OthersStay(key, list, called, t.dropped, Listed(t.subscribers, key))
  {
    var t := Merged(s, key, kept);
    assert Listed(t.subscribers, key) == kept + Listed(s.subscribers, key);
  }

  // ----- Every subscriber at its turn -----

  lemma PrecededTwice(a: seq<SubscriberId>, b: seq<SubscriberId>, x: seq<Subscriber>, y: seq<Subscriber>, r: Round)
    ensures Preceded(a, x, Preceded(b, y, r)) == Preceded(a + b, x + y, r)
  {
    Associative(a, b, r.called);
    Associative(x, y, r.kept);
  }

  function Then(first: Round, rest: Round): Round {
    if first.ok then Preceded(first.called, first.kept, rest) else first
  }

  lemma ThenTwice(a: Round, b: Round, c: Round)
    ensures Then(a, Then(b, c)) == Then(Then(a, b), c)
  {
    PrecededTwice(a.called, b.called, a.kept, b.kept, c);
  }

  /** Who stays of the first subscriber's turn that led to `end`. */
  function KeptOf(s: State, key: Key, sub: Subscriber, eventType: Option<TypeId>, end: State): seq<Subscriber> {
    if Callable(s, sub, eventType) then (if WantsToStay(s, key) && sub.id !in end.dropped then [sub] else [])
    else (if sub.id in s.active && sub.id in s.dropped then [] else [sub])
  }

  lemma RoundUnfolds(s: State, key: Key, list: seq<Subscriber>, eventType: Option<TypeId>, window: Option<WindowId>)
    requires list != []
    ensures var c, sub := Called(s, key, list[0].id, window), list[0];
            RoundOver(s, key, list, eventType, window)
            == if !Callable(s, sub, eventType)
               then Preceded([], KeptOf(s, key, sub, eventType, s), RoundOver(s, key, list[1..], eventType, window))
               else if !c.ok then Round(false, c.end, [], [])
               else Preceded([sub.id], KeptOf(s, key, sub, eventType, c.end), RoundOver(c.end, key, list[1..], eventType, window))
  {
    hide Called, Callable, WantsToStay, Preceded;
  }

  lemma RoundStep(s: State, key: Key, list: seq<Subscriber>, eventType: Option<TypeId>, window: Option<WindowId>)
    requires list != []
    ensures var first := RoundOver(s, key, [list[0]], eventType, window);
            RoundOver(s, key, list, eventType, window)
            == Then(first, RoundOver(first.end, key, list[1..], eventType, window))
  {
    hide Called, Callable, RoundOver, KeptOf;
    assert [list[0]][1..] == [];
    EmptyRound(s, key, eventType, window);
    EmptyRound(Called(s, key, list[0].id, window).end, key, eventType, window);
    RoundUnfolds(s, key, list, eventType, window);
    RoundUnfolds(s, key, [list[0]], eventType, window);
  }

  /** A round over a list begins with a round over any first part of it. */
  lemma {:induction false} RoundBegins(s: State, key: Key, list: seq<Subscriber>, n: nat, eventType: Option<TypeId>,
                                       window: Option<WindowId>)
    requires n <= |list|
    ensures var first := RoundOver(s, key, list[..n], eventType, window);
            RoundOver(s, key, list, eventType, window)
            == Then(first, RoundOver(first.end, key, list[n..], eventType, window))
    decreases n
  {
    hide RoundOver, Then;
    if n == 0 {
      assert list[..0] == [] && list[0..] == list;
      EmptyRound(s, key, eventType, window);
      NothingFirst(s, RoundOver(s, key, list, eventType, window));
    } else {
      var front := list[..n];
      assert front[0] == list[0] && front[1..] == list[1..][..n - 1] && list[1..][n - 1..] == list[n..];
      RoundStep(s, key, list, eventType, window);
      RoundStep(s, key, front, eventType, window);
      var first := RoundOver(s, key, [list[0]], eventType, window);
      RoundBegins(first.end, key, list[1..], n - 1, eventType, window);
      var second := RoundOver(first.end, key, front[1..], eventType, window);
      ThenTwice(first, second, RoundOver(second.end, key, list[n..], eventType, window));
      EndOfThen(first, second);
      AbortedThen(first, second, RoundOver(second.end, key, list[n..], eventType, window),
                  RoundOver(Then(first, second).end, key, list[n..], eventType, window));
    }
  }

  lemma NothingFirst(s: State, r: Round)
    ensures Then(Round(true, s, [], []), r) == r
  {
  }

  lemma EndOfThen(a: Round, b: Round)
    ensures a.ok ==> Then(a, b).end == b.end
  {
  }

  lemma AbortedThen(a: Round, b: Round, x: Round, y: Round)
    ensures !a.ok ==> Then(Then(a, b), x) == Then(Then(a, b), y)
  {
  }

  /** The round up to the turn of subscriber `j`. */
  function UpTo(s: State, key: Key, list: seq<Subscriber>, j: nat, eventType: Option<TypeId>, window: Option<WindowId>)
    : Round
    requires j <= |list|
  {
    RoundOver(s, key, list[..j], eventType, window)
  }

  lemma EmptyRound(s: State, key: Key, eventType: Option<TypeId>, window: Option<WindowId>)
    ensures RoundOver(s, key, [], eventType, window) == Round(true, s, [], [])
  {
  }

  lemma OneTurn(s: State, key: Key, sub: Subscriber, eventType: Option<TypeId>, window: Option<WindowId>)
    ensures var r := RoundOver(s, key, [sub], eventType, window);
            && r.called == (if Callable(s, sub, eventType) && r.ok then [sub.id] else [])
            && r.end == (if Callable(s, sub, eventType) then Called(s, key, sub.id, window).end else s)
            && (r.ok <==> !Callable(s, sub, eventType) || Called(s, key, sub.id, window).ok)
            && (r.ok ==> r.kept == KeptOf(s, key, sub, eventType, r.end))
  {
    hide Called, WantsToStay, Callable;
    assert [sub][1..] == [];
    EmptyRound(s, key, eventType, window);
    EmptyRound(Called(s, key, sub.id, window).end, key, eventType, window);
  }

  /** One more turn. */
  lemma NextTurn(s: State, key: Key, list: seq<Subscriber>, j: nat, eventType: Option<TypeId>, window: Option<WindowId>)
    requires j < |list| && UpTo(s, key, list, j, eventType, window).ok
    ensures var r, after := UpTo(s, key, list, j, eventType, window), UpTo(s, key, list, j + 1, eventType, window);
            && (after.ok <==> !Callable(r.end, list[j], eventType) || Called(r.end, key, list[j].id, window).ok)
            && after.end == (if Callable(r.end, list[j], eventType) then Called(r.end, key, list[j].id, window).end else r.end)
            && after.called == r.called + (if Callable(r.end, list[j], eventType) && after.ok then [list[j].id] else [])
            && (after.ok ==> after.kept == r.kept + KeptOf(r.end, key, list[j], eventType, after.end))
  {
    hide Called, Callable, RoundOver, WantsToStay, KeptOf;
    var longer := list[..j + 1];
    assert longer[..j] == list[..j] && longer[j..] == [list[j]];
    RoundBegins(s, key, longer, j, eventType, window);
    OneTurn(UpTo(s, key, list, j, eventType, window).end, key, list[j], eventType, window);
  }

  /** A round that is completed has been completed up to every turn, and nobody is invoked in the turn of
      another. */
  lemma PartsOfRound(s: State, key: Key, list: seq<Subscriber>, j: nat, eventType: Option<TypeId>, window: Option<WindowId>)
    requires j <= |list| && RoundOver(s, key, list, eventType, window).ok
    ensures var r := UpTo(s, key, list, j, eventType, window);
            && r.ok
            && RoundOver(s, key, list, eventType, window).called
               == r.called + RoundOver(r.end, key, list[j..], eventType, window).called
            && RoundOver(s, key, list, eventType, window).kept
               == r.kept + RoundOver(r.end, key, list[j..], eventType, window).kept
            && RoundOver(r.end, key, list[j..], eventType, window).ok
  {
    hide Called, Callable, RoundOver, WantsToStay;
    RoundBegins(s, key, list, j, eventType, window);
  }

  /** Only subscribers of the list are invoked. */
  lemma {:induction false} CalledListed(s: State, key: Key, list: seq<Subscriber>, eventType: Option<TypeId>,
                                        window: Option<WindowId>, id: SubscriberId)
    requires forall i :: 0 <= i < |list| ==> list[i].id != id
    ensures id !in RoundOver(s, key, list, eventType, window).called
    decreases |list|
  {
    hide Called, Callable, WantsToStay;
    if list != [] {
      assert forall i :: 0 <= i < |list[1..]| ==> list[1..][i] == list[i + 1];
      CalledListed(s, key, list[1..], eventType, window, id);
      CalledListed(Called(s, key, list[0].id, window).end, key, list[1..], eventType, window, id);
    }
  }

  /**
   In a round that is completed, subscriber `j` is invoked if and only if at its own turn it is active, has not
   been cancelled by then and wants the event. Cancelling it later changes nothing.
   */
  lemma InvokedAtItsTurn(s: State, key: Key, list: seq<Subscriber>, j: nat, eventType: Option<TypeId>,
                         window: Option<WindowId>)
    requires Ascending(list) && j < |list|
    requires RoundOver(s, key, list, eventType, window).ok
    ensures list[j].id in RoundOver(s, key, list, eventType, window).called
            <==> Callable(UpTo(s, key, list, j, eventType, window).end, list[j], eventType)
    ensures UpTo(s, key, list, j + 1, eventType, window).end
            == var at := UpTo(s, key, list, j, eventType, window).end;
               if Callable(at, list[j], eventType) then Called(at, key, list[j].id, window).end else at
  {
    hide Called, Callable, RoundOver, WantsToStay, UpTo;
    PartsOfRound(s, key, list, j, eventType, window);
    PartsOfRound(s, key, list, j + 1, eventType, window);
    NextTurn(s, key, list, j, eventType, window);
    var id := list[j].id;
    NotBefore(s, key, list, j, eventType, window);
    CalledListed(UpTo(s, key, list, j + 1, eventType, window).end, key, list[j + 1..], eventType, window, id);
  }

  lemma NotBefore(s: State, key: Key, list: seq<Subscriber>, j: nat, eventType: Option<TypeId>, window: Option<WindowId>)
    requires Ascending(list) && j < |list|
    ensures list[j].id !in UpTo(s, key, list, j, eventType, window).called
  {
    hide RoundOver;
    CalledListed(s, key, list[..j], eventType, window, list[j].id);
  }

  /** It is the turn of subscriber `j`, which is due, but the window it is to run in has been closed. */
  predicate StuckAt(s: State, key: Key, list: seq<Subscriber>, j: nat, eventType: Option<TypeId>, window: Option<WindowId>)
    requires j < |list|
  {
    var r := UpTo(s, key, list, j, eventType, window);
    r.ok && key.OnNew? && window.Some? && Callable(r.end, list[j], eventType) && window.value !in r.end.windows
  }

  /** A round is aborted exactly if somebody's turn finds the window closed. */
  lemma {:induction false} AbortedUpTo(s: State, key: Key, list: seq<Subscriber>, n: nat, eventType: Option<TypeId>,
                                       window: Option<WindowId>)
    requires Inv(s) && s.pendingUpdates >= 1 && Ascending(list) && (key.OnNew? ==> FlushLevel(s)) && n <= |list|
    ensures !UpTo(s, key, list, n, eventType, window).ok <==>
            exists j :: 0 <= j < n && StuckAt(s, key, list, j, eventType, window)
    decreases n
  {
    hide Inv, Called, Callable, RoundOver, Aborted, WantsToStay, FlushLevel, Within, Ascending, RoundLaw;
    if n == 0 {
      assert list[..0] == [];
      EmptyRound(s, key, eventType, window);
    } else {
      AbortedUpTo(s, key, list, n - 1, eventType, window);
      var r := UpTo(s, key, list, n - 1, eventType, window);
      if r.ok {
        NextTurn(s, key, list, n - 1, eventType, window);
        UpToKeeps(s, key, list, n - 1, eventType, window);
        if Callable(r.end, list[n - 1], eventType) {
          CallableNotDropped(r.end, list[n - 1], eventType);
          CalledKeeps(r.end, key, list[n - 1].id, window);
          assert StuckAt(s, key, list, n - 1, eventType, window) <==> !UpTo(s, key, list, n, eventType, window).ok;
        }
      } else {
        var longer := list[..n];
        assert longer[..n - 1] == list[..n - 1];
        RoundBegins(s, key, longer, n - 1, eventType, window);
      }
    }
  }

  lemma CallableNotDropped(s: State, sub: Subscriber, eventType: Option<TypeId>)
    ensures Callable(s, sub, eventType) ==> sub.id !in s.dropped
  {
  }

  lemma UpToKeeps(s: State, key: Key, list: seq<Subscriber>, j: nat, eventType: Option<TypeId>, window: Option<WindowId>)
    requires Inv(s) && s.pendingUpdates >= 1 && Ascending(list) && (key.OnNew? ==> FlushLevel(s)) && j <= |list|
    requires UpTo(s, key, list, j, eventType, window).ok
    ensures var t := UpTo(s, key, list, j, eventType, window).end;
            Inv(t) && t.pendingUpdates >= 1 && (key.OnNew? ==> FlushLevel(t))
  {
    hide Inv, RoundOver, Aborted, Within, RanAmong, AllCalled, OthersStay, Kept, FlushLevel;
    RoundKeeps(s, key, list[..j], eventType, window);
    var t := UpTo(s, key, list, j, eventType, window).end;
    WithinFields(s, t, CLOSERS + iset{key});
    if key.OnNew? {
      FlushLevelStays(s, t, CLOSERS + iset{key});
    }
  }

  /** `retain` is aborted exactly if the window is closed when somebody is due to run in it: it may have been
      closed before, or by an earlier one of these very invocations. */
  lemma RetainAbortedExactly(s: State, key: Key, eventType: Option<TypeId>, window: Option<WindowId>)
    requires Inv(s) && s.pendingUpdates >= 1 && (key.OnNew? ==> FlushLevel(s))
    ensures var list := Listed(s.subscribers, key);
            !Retained(s, key, eventType, window).ok <==>
            exists j :: 0 <= j < |list| && StuckAt(Taken(s, key), key, list, j, eventType, window)
  {
    hide Inv, RoundOver, UpTo, StuckAt, FlushLevel, Ascending;
    if key in s.subscribers {
      TakenKeeps(s, key);
      TakenAscending(s, key);
      TakenFields(s, key);
      var list := s.subscribers[key];
      AbortedUpTo(Taken(s, key), key, list, |list|, eventType, window);
      WholeRound(Taken(s, key), key, list, eventType, window);
    }
  }

  lemma WholeRound(s: State, key: Key, list: seq<Subscriber>, eventType: Option<TypeId>, window: Option<WindowId>)
    ensures UpTo(s, key, list, |list|, eventType, window) == RoundOver(s, key, list, eventType, window)
  {
    hide RoundOver;
    assert list[..|list|] == list;
  }

  /** In particular if the window is closed from the beginning and anybody is due: what a caller can see. */
  lemma {:induction false} ClosedWindowAborts(s: State, key: Key, list: seq<Subscriber>, window: WindowId)
    requires key.OnNew? && window !in s.windows
    ensures RoundOver(s, key, list, None, Some(window)).ok <==>
            forall j :: 0 <= j < |list| ==> !Callable(s, list[j], None)
    decreases |list|
  {
    hide Callable;
    if list != [] && !Callable(s, list[0], None) {
      ClosedWindowAborts(s, key, list[1..], window);
      assert forall j :: 0 < j < |list| ==> list[j] == list[1..][j - 1];
    }
  }
}
