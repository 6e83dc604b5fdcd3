/**
 Which windows show which entities (crates/gpui/src/app.rs): the tables behind `App::notify`, changed when a
 window is rendered, when an entity is released and when a window is removed.
 */
module Tracking {
  type EntityId = nat
  type WindowId = nat
  type Invalidator = nat

  datatype Tables = Tables(
    tracked: map<WindowId, set<EntityId>>,
    invalidators: map<EntityId, map<WindowId, Invalidator>>,
    current: map<EntityId, WindowId>
  )

  function Windows(t: Tables, e: EntityId): map<WindowId, Invalidator> {
    if e in t.invalidators then t.invalidators[e] else map[]
  }

  function Entities(t: Tables, w: WindowId): set<EntityId> {
    if w in t.tracked then t.tracked[w] else {}
  }

  /** A window that is to be invalidated for an entity does show that entity. */
  ghost predicate Inv(t: Tables) {
    forall e, w :: w in Windows(t, e) ==> e in Entities(t, w)
  }

  // ----- The operations as functions -----

  /** `w` no longer invalidates for the given entities. */
  function Without(inv: map<EntityId, map<WindowId, Invalidator>>, entities: set<EntityId>, w: WindowId)
    : map<EntityId, map<WindowId, Invalidator>>
  {
    map e | e in inv :: if e in entities then inv[e] - {w} else inv[e]
  }

  /** `w` invalidates for the given entities. */
  function With(inv: map<EntityId, map<WindowId, Invalidator>>, entities: set<EntityId>, w: WindowId, v: Invalidator)
    : map<EntityId, map<WindowId, Invalidator>>
  {
    map e | e in inv.Keys + entities ::
      if e in entities then (if e in inv then inv[e] else map[])[w := v] else inv[e]
  }

  function ShownIn(current: map<EntityId, WindowId>, entities: set<EntityId>, w: WindowId): map<EntityId, WindowId> {
    map e | e in current.Keys + entities :: if e in entities then w else current[e]
  }

  function NotShownIn(current: map<EntityId, WindowId>, entities: set<EntityId>, w: WindowId): map<EntityId, WindowId> {
    map e | e in current && !(e in entities && current[e] == w) :: current[e]
  }

  function Recorded(t: Tables, w: WindowId, v: Invalidator, entities: set<EntityId>): Tables {
    Tables(t.tracked[w := entities],
           With(Without(t.invalidators, Entities(t, w), w), entities, w, v),
           ShownIn(t.current, entities, w))
  }

  function Released(t: Tables, e: EntityId): Tables {
    t.(invalidators := t.invalidators - {e}, current := t.current - {e})
  }

  function WindowRemoved(t: Tables, w: WindowId): Tables {
    if w !in t.tracked then t
    else
      Tables(t.tracked - {w}, Without(t.invalidators, t.tracked[w], w), NotShownIn(t.current, t.tracked[w], w))
  }

  function Notified(t: Tables, e: EntityId): Tables {
    t.(invalidators := t.invalidators[e := Windows(t, e)])
  }

  function Created(t: Tables, e: EntityId, w: WindowId): Tables {
    t.(current := t.current[e := w])
  }

  datatype Op =
    | Record(window: WindowId, invalidator: Invalidator, entities: set<EntityId>)
    | Release(entity: EntityId)
    | RemoveWindow(window: WindowId)
    | Notify(entity: EntityId)
    | Create(entity: EntityId, window: WindowId)

  function Step(t: Tables, op: Op): Tables {
    match op
    case Record(w, v, entities) => Recorded(t, w, v, entities)
    case Release(e) => Released(t, e)
    case RemoveWindow(w) => WindowRemoved(t, w)
    case Notify(e) => Notified(t, e)
    case Create(e, w) => Created(t, e, w)
  }

  function RunOps(ops: seq<Op>): Tables {
    if ops == [] then Tables(map[], map[], map[])
    else Step(RunOps(ops[..|ops| - 1]), ops[|ops| - 1])
  }

  // ----- What holds after every run -----

  lemma StepKeeps(t: Tables, op: Op)
    requires Inv(t)
    ensures Inv(Step(t, op))
  {
    var u := Step(t, op);
    forall e, w | w in Windows(u, e) ensures e in Entities(u, w) {
      assert w in Windows(t, e) ==> e in Entities(t, w);
    }
  }

  lemma {:induction false} RunKeeps(ops: seq<Op>)
    ensures Inv(RunOps(ops))
  {
    if ops != [] {
      RunKeeps(ops[..|ops| - 1]);
      StepKeeps(RunOps(ops[..|ops| - 1]), ops[|ops| - 1]);
    }
  }

  /** After any run, once a window has recorded what it shows, the two tables agree about it in both directions. */
  lemma RecordedExactly(ops: seq<Op>, w: WindowId, v: Invalidator, entities: set<EntityId>)
    ensures var t := RunOps(ops + [Record(w, v, entities)]);
            (forall e :: w in Windows(t, e) <==> e in Entities(t, w))
            && Entities(t, w) == entities && forall e :: e in entities ==> Windows(t, e)[w] == v
  {
    var t := RunOps(ops);
    RunKeeps(ops);
    assert (ops + [Record(w, v, entities)])[..|ops|] == ops;
    forall e ensures w in Windows(Recorded(t, w, v, entities), e) <==> e in entities {
      assert w in Windows(t, e) ==> e in Entities(t, w);
    }
  }

  /** After any run, once a window is removed no table of invalidators mentions it. */
  lemma RemovedCompletely(ops: seq<Op>, w: WindowId)
    ensures var t := RunOps(ops + [RemoveWindow(w)]);
            w !in t.tracked && forall e :: w !in Windows(t, e)
  {
    var t := RunOps(ops);
    RunKeeps(ops);
    assert (ops + [RemoveWindow(w)])[..|ops|] == ops;
    forall e ensures w !in Windows(WindowRemoved(t, w), e) {
      assert w in Windows(t, e) ==> e in Entities(t, w);
    }
  }

  /** A window that another one's rendering or removal does not concern keeps its entries. */
  lemma OthersUntouched(t: Tables, op: Op, w: WindowId, e: EntityId)
    requires op.Record? || op.RemoveWindow?
    requires op.window != w
    ensures Entities(Step(t, op), w) == Entities(t, w)
    ensures w in Windows(Step(t, op), e) <==> w in Windows(t, e)
    ensures w in Windows(t, e) ==> Windows(Step(t, op), e)[w] == Windows(t, e)[w]
  {
  }

  // ----- What each operation does to each entry -----

  /** Telling the windows that show an entity forgets none of them. */
  lemma NotifyForgetsNothing(t: Tables, e: EntityId, x: EntityId, w: WindowId)
    ensures Windows(Step(t, Notify(e)), x) == Windows(t, x)
    ensures Entities(Step(t, Notify(e)), w) == Entities(t, w) && Step(t, Notify(e)).current == t.current
  {
  }

  /** A released entity is shown nowhere and has no current window; all others stay as they are. */
  lemma ReleaseForgetsOne(t: Tables, e: EntityId, x: EntityId)
    ensures Windows(Step(t, Release(e)), e) == map[] && e !in Step(t, Release(e)).current
    ensures x != e ==> Windows(Step(t, Release(e)), x) == Windows(t, x)
    ensures x != e ==> (x in Step(t, Release(e)).current <==> x in t.current)
                       && (x in t.current ==> Step(t, Release(e)).current[x] == t.current[x])
  {
  }

  /** The current window of an entity is the one that showed it last, or the one it was created in. */
  lemma CurrentWindow(t: Tables, op: Op, e: EntityId)
    ensures var c := Step(t, op).current;
            match op
            case Record(w, _, entities) => if e in entities then e in c && c[e] == w else SameEntry(t.current, c, e)
            case Create(x, w) => if e == x then e in c && c[e] == w else SameEntry(t.current, c, e)
            case Release(x) => if e == x then e !in c else SameEntry(t.current, c, e)
            case RemoveWindow(w) =>
              if e in Entities(t, w) && e in t.current && t.current[e] == w then e !in c else SameEntry(t.current, c, e)
            case Notify(_) => SameEntry(t.current, c, e)
  {
  }

  predicate SameEntry(a: map<EntityId, WindowId>, b: map<EntityId, WindowId>, e: EntityId) {
    (e in a <==> e in b) && (e in a ==> a[e] == b[e])
  }

  // ----- One entity at a time -----

  lemma WithoutOne(inv: map<EntityId, map<WindowId, Invalidator>>, done: set<EntityId>, w: WindowId, e: EntityId)
    requires e !in done
    ensures var m := Without(inv, done, w);
            Without(inv, done + {e}, w) == (if e in m then m[e := m[e] - {w}] else m)
  {
  }

  lemma WithOne(inv: map<EntityId, map<WindowId, Invalidator>>, done: set<EntityId>, w: WindowId, v: Invalidator, e: EntityId)
    requires e !in done
    ensures var m := With(inv, done, w, v);
            With(inv, done + {e}, w, v) == m[e := (if e in m then m[e] else map[])[w := v]]
  {
  }

  lemma ShownInOne(current: map<EntityId, WindowId>, done: set<EntityId>, w: WindowId, e: EntityId)
    ensures ShownIn(current, done + {e}, w) == ShownIn(current, done, w)[e := w]
  {
  }

  lemma NotShownInOne(current: map<EntityId, WindowId>, done: set<EntityId>, w: WindowId, e: EntityId)
    ensures var m := NotShownIn(current, done, w);
            NotShownIn(current, done + {e}, w) == (if e in m && m[e] == w then m - {e} else m)
  {
  }

  lemma NothingDone(t: Tables, w: WindowId, v: Invalidator)
    ensures Without(t.invalidators, {}, w) == t.invalidators
    ensures With(t.invalidators, {}, w, v) == t.invalidators
    ensures ShownIn(t.current, {}, w) == t.current && NotShownIn(t.current, {}, w) == t.current
  {
  }

  // ----- The application's fields -----

  class EntityWindows {
    var tracked: map<WindowId, set<EntityId>>
    var invalidators: map<EntityId, map<WindowId, Invalidator>>
    var current: map<EntityId, WindowId>

    ghost function T(): Tables
      reads this
    {
      Tables(tracked, invalidators, current)
    }

    constructor ()
      ensures T() == RunOps([])
    {
      tracked, invalidators, current := map[], map[], map[];
    }

    /** `record_entities_accessed`, called after window `w` was rendered. */
    method RecordEntitiesAccessed(w: WindowId, invalidator: Invalidator, entities: set<EntityId>)
      modifies this
      ensures T() == Recorded(old(T()), w, invalidator, entities)
    {
      hide Without, With, ShownIn;
      ghost var before := T();
      var previous := if w in tracked then tracked[w] else {};
      Forget(previous, w);
      ghost var forgotten := T();
      NothingDone(forgotten, w, invalidator);
      var todo := entities;
      ghost var done := {};
      while todo != {}
        invariant done !! todo && done + todo == entities
        invariant tracked == before.tracked
        invariant invalidators == With(forgotten.invalidators, done, w, invalidator)
        invariant current == ShownIn(before.current, done, w)
      {
        var e :| e in todo;
        WithOne(forgotten.invalidators, done, w, invalidator, e);
        ShownInOne(before.current, done, w, e);
        var windows := if e in invalidators then invalidators[e] else map[];
        invalidators := invalidators[e := windows[w := invalidator]];
        current := current[e := w];
        todo, done := todo - {e}, done + {e};
      }
      tracked := tracked[w := entities];
      assert done == entities;
    }

    /** Removes `w` from the invalidators of the given entities. */
    method Forget(entities: set<EntityId>, w: WindowId)
      modifies `invalidators
      ensures invalidators == Without(old(invalidators), entities, w)
    {
      hide Without;
      ghost var before := T();
      NothingDone(before, w, 0);
      var todo := entities;
      ghost var done := {};
      while todo != {}
        invariant done !! todo && done + todo == entities
        invariant invalidators == Without(before.invalidators, done, w)
      {
        var e :| e in todo;
        WithoutOne(before.invalidators, done, w, e);
        if e in invalidators {
          invalidators := invalidators[e := invalidators[e] - {w}];
        }
        todo, done := todo - {e}, done + {e};
      }
      assert done == entities;
    }

    method ReleaseEntity(e: EntityId)
      modifies this
      ensures T() == Released(old(T()), e)
    {
      invalidators := invalidators - {e};
      current := current - {e};
    }

    /** The part of `update_window_erased` that runs when the window was marked as removed. */
    method RemoveTrackedWindow(w: WindowId)
      modifies this
      ensures T() == WindowRemoved(old(T()), w)
    {
      if w !in tracked {
        return;
      }
      hide Without, NotShownIn;
      ghost var before := T();
      var entities := tracked[w];
      tracked := tracked - {w};
      NothingDone(before, w, 0);
      var todo := entities;
      ghost var done := {};
      while todo != {}
        invariant done !! todo && done + todo == entities
        invariant tracked == before.tracked - {w}
        invariant invalidators == Without(before.invalidators, done, w)
        invariant current == NotShownIn(before.current, done, w)
      {
        var e :| e in todo;
        WithoutOne(before.invalidators, done, w, e);
        NotShownInOne(before.current, done, w, e);
        if e in invalidators {
          invalidators := invalidators[e := invalidators[e] - {w}];
        }
        if e in current && current[e] == w {
          current := current - {e};
        }
        todo, done := todo - {e}, done + {e};
      }
      assert done == entities;
    }

    /** `notify`: the invalidators of the windows that show the entity now. The filter through `tracked`
        never discards one; when there is none the notification is queued directly. */
    method Notify(e: EntityId) returns (live: map<WindowId, Invalidator>, queued: bool)
      requires Inv(T())
      modifies this
      ensures T() == Notified(old(T()), e)
      ensures live == Windows(old(T()), e)
      ensures queued <==> forall w :: w !in Windows(old(T()), e)
    {
      var windows := if e in invalidators then invalidators[e] else map[];
      live := map w | w in windows && w in tracked && e in tracked[w] :: windows[w];
      assert forall w :: w in windows ==> e in Entities(T(), w) by {
        assert windows == Windows(T(), e);
      }
      assert live == windows;
      queued := live == map[];
      assert queued <==> live.Keys == {};
      invalidators := invalidators[e := windows];
    }

    method EntityCreated(e: EntityId, w: WindowId)
      modifies this
      ensures T() == Created(old(T()), e, w)
    {
      current := current[e := w];
    }
  }
}
