/**
 Cached asset loads (crates/gpui/src/asset_cache.rs) and the table that holds them (crates/gpui/src/app.rs).

 A load is started by the first access to its key. A background worker computes its result; a foreground task
 then publishes it and notifies the views that had found nothing. An entry may be evicted at any time, and
 the key may be loaded again while tasks of the evicted entry are still around.
 */
module AssetCache {
  import opened Options

  type Key = nat
  type View = nat
  type Value = nat
  type LoadId = nat

  datatype LoadState = Loading(views: set<View>) | Loaded(value: Value)

  /** `CachedLoad::get` */
  function Result(s: LoadState): Option<Value> {
    match s
    case Loading(_) => None
    case Loaded(v) => Some(v)
  }

  /** `CachedLoad::use_by`: a view that finds nothing is remembered. */
  function UsedBy(s: LoadState, view: View): LoadState {
    match s
    case Loading(views) => Loading(views + {view})
    case Loaded(_) => s
  }

  // ----- One entry, as an object -----

  class CachedLoad {
    var state: LoadState
    ghost const id: LoadId

    constructor (ghost id: LoadId)
      ensures state == Loading({}) && this.id == id
    {
      state := Loading({});
      this.id := id;
    }

    method Get() returns (r: Option<Value>)
      ensures r == Result(state)
    {
      match state
      case Loading(_) => r := None;
      case Loaded(v) => r := Some(v);
    }

    method UseBy(view: View) returns (r: Option<Value>)
      modifies this
      ensures state == UsedBy(old(state), view) && r == Result(old(state))
    {
      match state {
        case Loading(views) =>
          state := Loading(views + {view});
          r := None;
        case Loaded(v) =>
          r := Some(v);
      }
    }

    /** The foreground task: publishes the result and notifies every waiting view once. */
    method Publish(value: Value) returns (notified: seq<View>)
      requires state.Loading?
      modifies this
      ensures state == Loaded(value)
      ensures forall v :: v in old(state).views <==> v in notified
      ensures forall i, j :: 0 <= i < j < |notified| ==> notified[i] != notified[j]
    {
      var views := state.views;
      state := Loaded(value);
      notified := [];
      var todo := views;
      while todo != {}
        invariant todo <= views
        invariant forall v :: v in views - todo <==> v in notified
        invariant forall i, j :: 0 <= i < j < |notified| ==> notified[i] != notified[j]
      {
        var v :| v in todo;
        assert v !in notified;
        notified := notified + [v];
        todo := todo - {v};
      }
    }
  }

  class AssetTable {
    var loading: map<Key, CachedLoad>

    constructor ()
      ensures loading == map[]
    {
      loading := map[];
    }

    /** `asset_entry`: an existing entry is returned as it is, whatever its state. */
    method AssetEntry(key: Key, ghost id: LoadId) returns (entry: CachedLoad, started: bool)
      modifies this
      ensures started <==> key !in old(loading)
      ensures loading == old(loading)[key := entry]
      ensures !started ==> entry == old(loading)[key]
      ensures started ==> fresh(entry) && entry.state == Loading({}) && entry.id == id
    {
      started := key !in loading;
      if started {
        entry := new CachedLoad(id);
        loading := loading[key := entry];
      }
      entry := loading[key];
    }

    method RemoveAsset(key: Key)
      modifies this
      ensures loading == old(loading) - {key}
    {
      loading := loading - {key};
    }
  }

  // ----- The protocol -----

  /** What the tasks of a load have done. */
  datatype Task = Working | Finished(value: Value) | Done

  datatype Step =
    | Use(key: Key, view: View)
    | Fetch(key: Key)
    | WorkerFinishes(load: LoadId, value: Value)
    | ForegroundRuns(load: LoadId)
    | Evict(key: Key)

  datatype Event =
    | Started(load: LoadId, key: Key)
    | FoundNothing(load: LoadId, view: View)
    | Found(load: LoadId, value: Value)
    | Computed(load: LoadId, value: Value)
    | Published(load: LoadId, value: Value, notified: set<View>)
    | Evicted(key: Key)

  /** `table` and `entries` are what the application holds; `tasks` are what the executors hold. */
  datatype State = State(
    table: map<Key, LoadId>,
    entries: map<LoadId, LoadState>,
    tasks: map<LoadId, Task>,
    next: LoadId,
    log: seq<Event>
  )

  const INITIAL := State(map[], map[], map[], 0, [])

  /** `asset_entry`: starts a load unless the key has an entry. */
  function Entered(s: State, key: Key): State {
    if key in s.table then s
    else State(s.table[key := s.next], s.entries[s.next := Loading({})], s.tasks[s.next := Working], s.next + 1,
               s.log + [Started(s.next, key)])
  }

  /** `use_by` on the entry of a load: a view that finds nothing is noted. */
  function Used(s: State, id: LoadId, view: View): State {
    if id !in s.entries then s
    else
      s.(entries := s.entries[id := UsedBy(s.entries[id], view)],
         log := s.log + [match s.entries[id]
                         case Loading(_) => FoundNothing(id, view)
                         case Loaded(v) => Found(id, v)])
  }

  function Fetched(s: State, id: LoadId): State {
    if id in s.entries && s.entries[id].Loaded? then s.(log := s.log + [Found(id, s.entries[id].value)]) else s
  }

  /** The foreground half of a load's task runs. */
  function Foreground(s: State, id: LoadId): State {
    if id !in s.tasks || !s.tasks[id].Finished? then s
    else
      var t := s.(tasks := s.tasks[id := Done]);
      var value := s.tasks[id].value;
      if id !in s.entries || s.entries[id].Loaded? then t  // the entry is gone: its weak reference is dead
      else
        t.(entries := s.entries[id := Loaded(value)], log := s.log + [Published(id, value, s.entries[id].views)])
  }

  function Next(s: State, step: Step): State {
    match step
    case Use(key, view) => Used(Entered(s, key), Entered(s, key).table[key], view)
    case Fetch(key) => Fetched(Entered(s, key), Entered(s, key).table[key])
    case WorkerFinishes(id, value) =>
      if id in s.tasks && s.tasks[id].Working?
      then s.(tasks := s.tasks[id := Finished(value)], log := s.log + [Computed(id, value)]) else s
    case ForegroundRuns(id) => Foreground(s, id)
    case Evict(key) =>
      if key !in s.table then s
      else s.(table := s.table - {key}, entries := s.entries - {s.table[key]}, log := s.log + [Evicted(key)])
  }

  function RunSteps(steps: seq<Step>): State {
    if steps == [] then INITIAL
    else Next(RunSteps(steps[..|steps| - 1]), steps[|steps| - 1])
  }

  // ----- What holds in every interleaving -----

  ghost predicate PublishedBefore(log: seq<Event>, end: nat, id: LoadId)
    requires end <= |log|
  {
    exists k :: 0 <= k < end && log[k].Published? && log[k].load == id
  }

  ghost predicate Waited(log: seq<Event>, end: nat, id: LoadId, view: View)
    requires end <= |log|
  {
    exists k :: 0 <= k < end && log[k] == FoundNothing(id, view)
  }

  ghost predicate EvictedBetween(log: seq<Event>, i: nat, j: nat, key: Key)
    requires j <= |log|
  {
    exists k :: i < k < j && log[k] == Evicted(key)
  }

  /** The table, the live entries and their tasks. */
  ghost predicate TableInv(table: map<Key, LoadId>, entries: map<LoadId, LoadState>, tasks: map<LoadId, Task>, next: LoadId) {
    && (forall k :: k in table ==> table[k] in entries)
    && (forall k, m :: k in table && m in table && table[k] == table[m] ==> k == m)
    && (forall id :: id in entries ==> id in table.Values)
    && (forall id :: id in entries ==> id in tasks)
    && (forall id :: id in tasks ==> id < next)
  }

  /** A load's state is explained by the log: a loaded value is its own worker's and was published; a
      waiting view is one that found nothing. */
  ghost predicate EntryInv(entries: map<LoadId, LoadState>, tasks: map<LoadId, Task>, log: seq<Event>) {
    && (forall id :: id in tasks && tasks[id].Finished? ==> Computed(id, tasks[id].value) in log)
    && (forall id :: id in tasks && !tasks[id].Done? ==> !PublishedBefore(log, |log|, id))
    && (forall id :: id in entries && entries[id].Loaded? ==> id in tasks && tasks[id].Done?)
    && (forall id :: id in entries ==> (entries[id].Loaded? <==> PublishedBefore(log, |log|, id)))
    && (forall id, v :: id in entries && entries[id].Loading? ==>
          (v in entries[id].views <==> Waited(log, |log|, id, v)))
    && (forall k :: 0 <= k < |log| && (log[k].Published? || log[k].FoundNothing?) ==> log[k].load in tasks)
    && (forall k :: 0 <= k < |log| && log[k].Published? && log[k].load in entries ==>
          entries[log[k].load] == Loaded(log[k].value))
  }

  /** The promises about single log entries. */
  ghost predicate EventInv(log: seq<Event>, k: nat)
    requires k < |log|
  {
    match log[k]
    case Published(id, value, notified) =>
      && Computed(id, value) in log[..k]
      && !PublishedBefore(log, k, id)
      && (forall v :: v in notified <==> Waited(log, k, id, v))
    case FoundNothing(id, _) => !PublishedBefore(log, k, id)
    case Found(id, value) => exists m :: 0 <= m < k && log[m].Published? && log[m].load == id && log[m].value == value
    case Started(id, key) => forall i :: 0 <= i < k && log[i].Started? && log[i].key == key ==> EvictedBetween(log, i, k, key)
    case _ => true
  }

  ghost predicate LogInv(log: seq<Event>) {
    forall k :: 0 <= k < |log| ==> EventInv(log, k)
  }

  /** A key without an entry has been evicted since it was last loaded. */
  ghost predicate KeyInv(table: map<Key, LoadId>, log: seq<Event>) {
    forall key, i :: 0 <= i < |log| && key !in table && log[i].Started? && log[i].key == key ==>
      EvictedBetween(log, i, |log|, key)
  }

  ghost predicate Inv(s: State) {
    && TableInv(s.table, s.entries, s.tasks, s.next)
    && EntryInv(s.entries, s.tasks, s.log)
    && LogInv(s.log)
    && KeyInv(s.table, s.log)
  }

  // ----- Appending to the log -----

  /** What was true of the log up to some point stays true when the log grows. */
  lemma PrefixSame(log: seq<Event>, e: Event, end: nat)
    requires end <= |log|
    ensures forall id :: PublishedBefore(log + [e], end, id) <==> PublishedBefore(log, end, id)
    ensures forall id, v :: Waited(log + [e], end, id, v) <==> Waited(log, end, id, v)
    ensures forall i: nat, key :: i < end ==> (EvictedBetween(log + [e], i, end, key) <==> EvictedBetween(log, i, end, key))
  {
    var more := log + [e];
    forall id ensures PublishedBefore(more, end, id) <==> PublishedBefore(log, end, id) {
      if PublishedBefore(log, end, id) {
        var k :| 0 <= k < end && log[k].Published? && log[k].load == id;
        assert more[k].Published?;
      }
    }
    forall id, v ensures Waited(more, end, id, v) <==> Waited(log, end, id, v) {
      if Waited(log, end, id, v) {
        var k :| 0 <= k < end && log[k] == FoundNothing(id, v);
        assert more[k] == log[k];
      }
    }
    forall i: nat, key | i < end ensures EvictedBetween(more, i, end, key) <==> EvictedBetween(log, i, end, key) {
      if EvictedBetween(log, i, end, key) {
        var k :| i < k < end && log[k] == Evicted(key);
        assert more[k] == log[k];
      }
    }
  }

  lemma FactsAfter(log: seq<Event>, e: Event)
    ensures forall id :: PublishedBefore(log + [e], |log| + 1, id)
                         <==> PublishedBefore(log, |log|, id) || (e.Published? && e.load == id)
    ensures forall id, v :: Waited(log + [e], |log| + 1, id, v) <==> Waited(log, |log|, id, v) || e == FoundNothing(id, v)
    ensures forall i: nat, key :: i < |log| ==>
              (EvictedBetween(log + [e], i, |log| + 1, key) <==> EvictedBetween(log, i, |log|, key) || e == Evicted(key))
  {
    var more := log + [e];
    PrefixSame(log, e, |log|);
    assert more[|log|] == e;
    forall id ensures PublishedBefore(more, |more|, id) <==> PublishedBefore(more, |log|, id) || (e.Published? && e.load == id) {
    }
    forall id, v ensures Waited(more, |more|, id, v) <==> Waited(more, |log|, id, v) || e == FoundNothing(id, v) {
    }
    forall i: nat, key | i < |log|
      ensures EvictedBetween(more, i, |more|, key) <==> EvictedBetween(more, i, |log|, key) || e == Evicted(key)
    {
    }
  }

  lemma EventInvSame(log: seq<Event>, e: Event, k: nat)
    requires k < |log| && EventInv(log, k)
    ensures EventInv(log + [e], k)
  {
    var more := log + [e];
    PrefixSame(log, e, k);
    assert more[..k] == log[..k] && more[k] == log[k];
    match log[k]
    case Found(id, value) =>
      var m :| 0 <= m < k && log[m].Published? && log[m].load == id && log[m].value == value;
      assert more[m] == log[m];
    case _ =>
  }

  lemma LogInvAppend(log: seq<Event>, e: Event)
    requires LogInv(log) && EventInv(log + [e], |log|)
    ensures LogInv(log + [e])
  {
    forall k | 0 <= k < |log| ensures EventInv(log + [e], k) {
      EventInvSame(log, e, k);
    }
  }

  // ----- Every step keeps the invariant -----

  /** An event that says nothing about entries leaves what is known about them. */
  lemma EntryInvLogged(entries: map<LoadId, LoadState>, tasks: map<LoadId, Task>, log: seq<Event>, e: Event)
    requires EntryInv(entries, tasks, log) && !e.Published? && !e.FoundNothing?
    ensures EntryInv(entries, tasks, log + [e])
  {
    FactsAfter(log, e);
    PrefixSame(log, e, |log|);
    hide PublishedBefore, Waited, EvictedBetween;
    var more := log + [e];
    forall id | id in tasks && tasks[id].Finished? ensures Computed(id, tasks[id].value) in more {
      var k :| 0 <= k < |log| && log[k] == Computed(id, tasks[id].value);
      assert more[k] == log[k];
    }
  }

  lemma KeyInvLogged(table: map<Key, LoadId>, log: seq<Event>, e: Event)
    requires KeyInv(table, log) && (e.Started? ==> e.key in table)
    ensures KeyInv(table, log + [e])
  {
    FactsAfter(log, e);
    hide PublishedBefore, Waited, EvictedBetween;
  }

  /** A load that has not been started has no history. */
  lemma EntryInvFresh(entries: map<LoadId, LoadState>, tasks: map<LoadId, Task>, log: seq<Event>, id: LoadId)
    requires EntryInv(entries, tasks, log) && id !in tasks && id !in entries
    ensures EntryInv(entries[id := Loading({})], tasks[id := Working], log)
  {
    assert !PublishedBefore(log, |log|, id);
    assert forall v :: !Waited(log, |log|, id, v);
    hide PublishedBefore, Waited;
  }

  lemma TableInvStart(table: map<Key, LoadId>, entries: map<LoadId, LoadState>, tasks: map<LoadId, Task>, next: LoadId, key: Key)
    requires TableInv(table, entries, tasks, next) && key !in table
    ensures TableInv(table[key := next], entries[next := Loading({})], tasks[next := Working], next + 1)
    ensures next !in tasks && next !in entries
  {
    var t := table[key := next];
    assert t[key] == next;
    forall id | id in entries[next := Loading({})] ensures id in t.Values {
      if id != next {
        assert id in table.Values;
        var k :| k in table && table[k] == id;
        assert t[k] == id;
      }
    }
  }

  lemma EnteredKeeps(s: State, key: Key)
    requires Inv(s)
    ensures Inv(Entered(s, key)) && key in Entered(s, key).table
  {
    if key !in s.table {
      var t, e := Entered(s, key), Started(s.next, key);
      PrefixSame(s.log, e, |s.log|);
      assert EventInv(t.log, |s.log|) by {
        forall i | 0 <= i < |s.log| && t.log[i].Started? && t.log[i].key == key
          ensures EvictedBetween(t.log, i, |s.log|, key)
        {
          assert EvictedBetween(s.log, i, |s.log|, key);
        }
      }
      LogInvAppend(s.log, e);
      hide LogInv, PublishedBefore, Waited, EvictedBetween, EntryInv, TableInv, KeyInv;
      TableInvStart(s.table, s.entries, s.tasks, s.next, key);
      EntryInvFresh(s.entries, s.tasks, s.log, s.next);
      EntryInvLogged(t.entries, t.tasks, s.log, e);
      KeyInvGrows(s.table, t.table, s.log);
      KeyInvLogged(t.table, s.log, e);
    }
  }

  lemma KeyInvGrows(table: map<Key, LoadId>, bigger: map<Key, LoadId>, log: seq<Event>)
    requires KeyInv(table, log) && table.Keys <= bigger.Keys
    ensures KeyInv(bigger, log)
  {
  }

  /** A view finds nothing and waits. */
  lemma WaitKeeps(s: State, id: LoadId, view: View)
    requires Inv(s) && id in s.entries && s.entries[id].Loading?
    ensures Inv(s.(entries := s.entries[id := UsedBy(s.entries[id], view)], log := s.log + [FoundNothing(id, view)]))
  {
    var e := FoundNothing(id, view);
    EntryInvWait(s.entries, s.tasks, s.log, id, view);
    PrefixSame(s.log, e, |s.log|);
    assert EventInv(s.log + [e], |s.log|);
    hide LogInv, PublishedBefore, Waited, EvictedBetween, KeyInv, EntryInv;
    LogInvAppend(s.log, e);
    KeyInvLogged(s.table, s.log, e);
  }

  lemma EntryInvWait(entries: map<LoadId, LoadState>, tasks: map<LoadId, Task>, log: seq<Event>, id: LoadId, view: View)
    requires EntryInv(entries, tasks, log) && id in entries && entries[id].Loading? && id in tasks
    ensures EntryInv(entries[id := UsedBy(entries[id], view)], tasks, log + [FoundNothing(id, view)])
  {
    var e := FoundNothing(id, view);
    var more := log + [e];
    FactsAfter(log, e);
    hide PublishedBefore, Waited;
    forall i | i in tasks && tasks[i].Finished? ensures Computed(i, tasks[i].value) in more {
      var k :| 0 <= k < |log| && log[k] == Computed(i, tasks[i].value);
      assert more[k] == log[k];
    }
  }

  lemma FoundKeeps(s: State, id: LoadId)
    requires Inv(s) && id in s.entries && s.entries[id].Loaded?
    ensures Inv(s.(log := s.log + [Found(id, s.entries[id].value)]))
  {
    var e := Found(id, s.entries[id].value);
    assert PublishedBefore(s.log, |s.log|, id);
    var k :| 0 <= k < |s.log| && s.log[k].Published? && s.log[k].load == id;
    assert (s.log + [e])[k] == s.log[k];
    assert EventInv(s.log + [e], |s.log|);
    LogInvAppend(s.log, e);
    hide LogInv, PublishedBefore, Waited, EvictedBetween, EntryInv, TableInv, KeyInv;
    EntryInvLogged(s.entries, s.tasks, s.log, e);
    KeyInvLogged(s.table, s.log, e);
  }

  lemma WorkerKeeps(s: State, id: LoadId, value: Value)
    requires Inv(s) && id in s.tasks && s.tasks[id].Working?
    ensures Inv(s.(tasks := s.tasks[id := Finished(value)], log := s.log + [Computed(id, value)]))
  {
    var e := Computed(id, value);
    assert EventInv(s.log + [e], |s.log|);
    LogInvAppend(s.log, e);
    KeyInvLogged(s.table, s.log, e);
    EntryInvLogged(s.entries, s.tasks, s.log, e);
    hide LogInv, PublishedBefore, Waited, EvictedBetween, KeyInv;
    assert (s.log + [e])[|s.log|] == e;
  }

  /** The foreground task of a load whose entry is gone does nothing. */
  lemma AbandonedKeeps(s: State, id: LoadId)
    requires Inv(s) && id in s.tasks && (id !in s.entries || s.entries[id].Loaded?)
    ensures Inv(s.(tasks := s.tasks[id := Done]))
  {
    hide LogInv, PublishedBefore, Waited, EvictedBetween, KeyInv;
  }

  lemma PublishKeeps(s: State, id: LoadId)
    requires Inv(s) && id in s.tasks && s.tasks[id].Finished? && id in s.entries && s.entries[id].Loading?
    ensures Inv(s.(tasks := s.tasks[id := Done], entries := s.entries[id := Loaded(s.tasks[id].value)],
                   log := s.log + [Published(id, s.tasks[id].value, s.entries[id].views)]))
  {
    var e := Published(id, s.tasks[id].value, s.entries[id].views);
    EntryInvPublish(s.entries, s.tasks, s.log, id);
    PrefixSame(s.log, e, |s.log|);
    assert (s.log + [e])[..|s.log|] == s.log;
    assert EventInv(s.log + [e], |s.log|);
    hide LogInv, PublishedBefore, Waited, EvictedBetween, KeyInv, EntryInv;
    LogInvAppend(s.log, e);
    KeyInvLogged(s.table, s.log, e);
  }

  lemma EntryInvPublish(entries: map<LoadId, LoadState>, tasks: map<LoadId, Task>, log: seq<Event>, id: LoadId)
    requires EntryInv(entries, tasks, log) && id in tasks && tasks[id].Finished? && id in entries && entries[id].Loading?
    ensures EntryInv(entries[id := Loaded(tasks[id].value)], tasks[id := Done],
                     log + [Published(id, tasks[id].value, entries[id].views)])
  {
    var e := Published(id, tasks[id].value, entries[id].views);
    var more := log + [e];
    FactsAfter(log, e);
    assert forall k :: 0 <= k < |log| && log[k].Published? ==> log[k].load != id by {
      assert !PublishedBefore(log, |log|, id);
    }
    hide PublishedBefore, Waited;
    forall i | i in tasks && tasks[i].Finished? ensures Computed(i, tasks[i].value) in more {
      var k :| 0 <= k < |log| && log[k] == Computed(i, tasks[i].value);
      assert more[k] == log[k];
    }
  }

  lemma EvictKeeps(s: State, key: Key)
    requires Inv(s) && key in s.table
    ensures Inv(s.(table := s.table - {key}, entries := s.entries - {s.table[key]}, log := s.log + [Evicted(key)]))
  {
    var e := Evicted(key);
    assert EventInv(s.log + [e], |s.log|);
    hide LogInv, PublishedBefore, Waited, EvictedBetween, TableInv, KeyInv, EntryInv;
    LogInvAppend(s.log, e);
    EntryInvEvict(s.entries, s.tasks, s.log, s.table[key]);
    EntryInvLogged(s.entries - {s.table[key]}, s.tasks, s.log, e);
    KeyInvEvict(s.table, s.log, key);
    TableInvEvict(s.table, s.entries, s.tasks, s.next, key);
  }

  lemma EntryInvEvict(entries: map<LoadId, LoadState>, tasks: map<LoadId, Task>, log: seq<Event>, id: LoadId)
    requires EntryInv(entries, tasks, log)
    ensures EntryInv(entries - {id}, tasks, log)
  {
    hide PublishedBefore, Waited;
  }

  lemma KeyInvEvict(table: map<Key, LoadId>, log: seq<Event>, key: Key)
    requires KeyInv(table, log)
    ensures KeyInv(table - {key}, log + [Evicted(key)])
  {
    var more, rest := log + [Evicted(key)], table - {key};
    forall x, i | 0 <= i < |more| && x !in rest && more[i].Started? && more[i].key == x
      ensures EvictedBetween(more, i, |more|, x)
    {
      assert i < |log| && more[i] == log[i];
      if x == key {
        assert more[|log|] == Evicted(x);
      } else {
        assert EvictedBetween(log, i, |log|, x);
        var k :| i < k < |log| && log[k] == Evicted(x);
        assert more[k] == log[k];
      }
    }
  }

  lemma TableInvEvict(table: map<Key, LoadId>, entries: map<LoadId, LoadState>, tasks: map<LoadId, Task>, next: LoadId, key: Key)
    requires TableInv(table, entries, tasks, next) && key in table
    ensures TableInv(table - {key}, entries - {table[key]}, tasks, next)
  {
    var rest := table - {key};
    forall id | id in entries - {table[key]} ensures id in rest.Values {
      assert id in table.Values;
      var k :| k in table && table[k] == id;
      assert rest[k] == id;
    }
  }

  lemma NextKeeps(s: State, step: Step)
    requires Inv(s)
    ensures Inv(Next(s, step))
  {
    hide Inv;
    match step
    case Use(key, view) =>
      EnteredKeeps(s, key);
      var t := Entered(s, key);
      EntryOfKey(t, key);
      if t.entries[t.table[key]].Loading? {
        WaitKeeps(t, t.table[key], view);
      } else {
        FoundKeeps(t, t.table[key]);
        assert t.entries == t.entries[t.table[key] := UsedBy(t.entries[t.table[key]], view)];
      }
    case Fetch(key) =>
      EnteredKeeps(s, key);
      var t := Entered(s, key);
      EntryOfKey(t, key);
      if t.entries[t.table[key]].Loaded? {
        FoundKeeps(t, t.table[key]);
      }
    case WorkerFinishes(id, value) =>
      if id in s.tasks && s.tasks[id].Working? {
        WorkerKeeps(s, id, value);
      }
    case ForegroundRuns(id) =>
      if id in s.tasks && s.tasks[id].Finished? {
        if id !in s.entries || s.entries[id].Loaded? {
          AbandonedKeeps(s, id);
        } else {
          PublishKeeps(s, id);
        }
      }
    case Evict(key) =>
      if key in s.table {
        EvictKeeps(s, key);
      }
  }

  lemma EntryOfKey(s: State, key: Key)
    requires Inv(s) && key in s.table
    ensures s.table[key] in s.entries
  {
  }

  lemma {:induction false} EveryRun(steps: seq<Step>)
    ensures Inv(RunSteps(steps))
  {
    if steps != [] {
      EveryRun(steps[..|steps| - 1]);
      NextKeeps(RunSteps(steps[..|steps| - 1]), steps[|steps| - 1]);
    }
  }

  // ----- The promises -----

  /** In every interleaving a load publishes at most once, its own worker's result, and notifies exactly the
      views that found nothing; none of them can have come later. */
  lemma PublishedOnceAndNotified(steps: seq<Step>, k: nat)
    requires k < |RunSteps(steps).log| && RunSteps(steps).log[k].Published?
    ensures var log := RunSteps(steps).log;
            && Computed(log[k].load, log[k].value) in log[..k]
            && (forall j :: 0 <= j < |log| && log[j].Published? && log[j].load == log[k].load ==> j == k)
            && (forall v :: v in log[k].notified <==> Waited(log, |log|, log[k].load, v))
  {
    EveryRun(steps);
    var log := RunSteps(steps).log;
    assert EventInv(log, k);
    forall j | 0 <= j < |log| && log[j].Published? && log[j].load == log[k].load ensures j == k {
      assert EventInv(log, j);
      assert k <= j;
      if k < j {
        assert PublishedBefore(log, j, log[k].load);
      }
    }
    forall v ensures Waited(log, |log|, log[k].load, v) <==> Waited(log, k, log[k].load, v) {
      if Waited(log, |log|, log[k].load, v) {
        var j :| 0 <= j < |log| && log[j] == FoundNothing(log[k].load, v);
        assert EventInv(log, j);
        if k < j {
          assert PublishedBefore(log, j, log[k].load);
        }
        assert j < k;
      }
    }
  }

  /** A load completes only once: when its foreground task runs and its entry is still there, the entry is loading. */
  lemma CompletesOnlyOnce(steps: seq<Step>, id: LoadId)
    requires id in RunSteps(steps).tasks && RunSteps(steps).tasks[id].Finished? && id in RunSteps(steps).entries
    ensures RunSteps(steps).entries[id].Loading?
    ensures var s := RunSteps(steps);
            Next(s, ForegroundRuns(id)).log == s.log + [Published(id, s.tasks[id].value, s.entries[id].views)]
  {
    EveryRun(steps);
  }

  // ----- Who waits, told from the steps -----

  /** At step `i` a view used a key whose entry, that of load `id`, was still loading afterwards. */
  ghost predicate WaitsSince(steps: seq<Step>, i: nat, id: LoadId, view: View)
    requires i < |steps|
  {
    var s := RunSteps(steps[..i + 1]);
    && steps[i].Use? && steps[i].view == view && steps[i].key in s.table && s.table[steps[i].key] == id
    && id in s.entries && s.entries[id].Loading?
  }

  /** At step `j` load `id` publishes and notifies these views. */
  ghost predicate PublishesAt(steps: seq<Step>, j: nat, id: LoadId, notified: set<View>)
    requires j < |steps|
  {
    var s, t := RunSteps(steps[..j]), RunSteps(steps[..j + 1]);
    exists value :: t.log == s.log + [Published(id, value, notified)]
  }

  /** The view is among those that the load will notify, if it publishes at all. */
  ghost predicate Expects(s: State, id: LoadId, view: View) {
    id < s.next && (id in s.entries && s.entries[id].Loading? ==> view in s.entries[id].views)
  }

  lemma UseExpects(s: State, key: Key, view: View)
    requires Inv(s)
    ensures var t := Next(s, Use(key, view));
            key in t.table && Expects(t, t.table[key], view)
  {
    hide LogInv, EntryInv, KeyInv;
    EnteredKeeps(s, key);
    EntryOfKey(Entered(s, key), key);
    hide Inv;
    IdsBelow(Entered(s, key), key);
  }

  lemma IdsBelow(s: State, key: Key)
    requires Inv(s) && key in s.table
    ensures s.table[key] < s.next
  {
    hide LogInv, EntryInv, KeyInv;
    assert s.table[key] in s.entries && s.table[key] in s.tasks;
  }

  lemma ExpectsStays(s: State, step: Step, id: LoadId, view: View)
    requires Inv(s) && Expects(s, id, view)
    ensures Expects(Next(s, step), id, view)
  {
    hide LogInv, EntryInv, KeyInv;
    assert s.next !in s.entries;
    if step.Use? {
      EnteredKeeps(s, step.key);
    }
    hide Inv, TableInv;
  }

  lemma {:induction false} ExpectsSince(steps: seq<Step>, i: nat, j: nat, id: LoadId, view: View)
    requires i < j <= |steps| && WaitsSince(steps, i, id, view)
    ensures Expects(RunSteps(steps[..j]), id, view)
    decreases j
  {
    assert steps[..j][..j - 1] == steps[..j - 1];
    EveryRun(steps[..j - 1]);
    hide Inv, Next, Expects;
    if i == j - 1 {
      UseExpects(RunSteps(steps[..i]), steps[i].key, view);
    } else {
      ExpectsSince(steps, i, j - 1, id, view);
      ExpectsStays(RunSteps(steps[..j - 1]), steps[j - 1], id, view);
    }
  }

  lemma PublishesViews(s: State, step: Step, id: LoadId, value: Value, notified: set<View>)
    requires Inv(s) && Next(s, step).log == s.log + [Published(id, value, notified)]
    ensures id in s.entries && s.entries[id].Loading? && s.entries[id].views == notified
  {
    hide Inv;
    assert Next(s, step).log[|s.log|] == Published(id, value, notified);
  }

  /**
   A load notifies exactly the views that used its key while it was loading: every one of them, and no other.
   Both are told from the steps alone.
   */
  lemma NotifiesWhoWaited(steps: seq<Step>, j: nat, id: LoadId, notified: set<View>, view: View)
    requires j < |steps| && PublishesAt(steps, j, id, notified)
    ensures view in notified <==> exists i :: 0 <= i < j && WaitsSince(steps, i, id, view)
  {
    var s := RunSteps(steps[..j]);
    EveryRun(steps[..j]);
    assert steps[..j + 1][..j] == steps[..j];
    var value :| RunSteps(steps[..j + 1]).log == s.log + [Published(id, value, notified)];
    PublishesViews(s, steps[j], id, value, notified);
    if i :| 0 <= i < j && WaitsSince(steps, i, id, view) {
      ExpectsSince(steps, i, j, id, view);
    } else if view in notified {
      var i := SomebodyWaited(steps, j, id, view);
      assert false;
    }
  }

  /** Whoever is remembered as waiting has used the key. */
  lemma {:induction false} SomebodyWaited(steps: seq<Step>, j: nat, id: LoadId, view: View) returns (i: nat)
    requires j <= |steps|
    requires var s := RunSteps(steps[..j]); id in s.entries && s.entries[id].Loading? && view in s.entries[id].views
    ensures i < j && WaitsSince(steps, i, id, view)
    decreases j
  {
    assert j > 0;
    assert steps[..j][..j - 1] == steps[..j - 1];
    var s, t := RunSteps(steps[..j - 1]), RunSteps(steps[..j]);
    EveryRun(steps[..j - 1]);
    if id in s.entries && s.entries[id].Loading? && view in s.entries[id].views {
      i := SomebodyWaited(steps, j - 1, id, view);
    } else {
      NewlyWaiting(s, steps[j - 1], id, view);
      i := j - 1;
    }
  }

  lemma NewlyWaiting(s: State, step: Step, id: LoadId, view: View)
    requires Inv(s)
    requires var t := Next(s, step); id in t.entries && t.entries[id].Loading? && view in t.entries[id].views
    requires !(id in s.entries && s.entries[id].Loading? && view in s.entries[id].views)
    ensures step.Use? && step.view == view && step.key in Next(s, step).table && Next(s, step).table[step.key] == id
  {
    hide Inv;
    if step.Use? {
      EnteredKeeps(s, step.key);
    }
  }

  /** The first use of a key starts a load; nothing is loaded without one. */
  lemma FirstUseLoads(s: State, key: Key, view: View)
    requires key !in s.table
    ensures var t := Next(s, Use(key, view));
            && key in t.table && t.table[key] == s.next && t.next == s.next + 1
            && t.tasks[s.next] == Working && t.entries[s.next] == Loading({view})
            && t.log == s.log + [Started(s.next, key), FoundNothing(s.next, view)]
  {
  }

  /** A load whose entry is not evicted completes: once its worker has finished and its foreground task has run,
      every access to the key finds the value. */
  lemma LoadCompletes(steps: seq<Step>, key: Key, value: Value)
    requires var s := RunSteps(steps);
             key in s.table && s.table[key] in s.tasks && s.tasks[s.table[key]] == Working
    ensures var s := RunSteps(steps);
            var t := Next(Next(s, WorkerFinishes(s.table[key], value)), ForegroundRuns(s.table[key]));
            && t.table == s.table && s.table[key] in t.entries && t.entries[s.table[key]] == Loaded(value)
            && Next(t, Fetch(key)).log == t.log + [Found(s.table[key], value)]
  {
    EveryRun(steps);
    EntryOfKey(RunSteps(steps), key);
    var s := RunSteps(steps);
    var u := Next(s, WorkerFinishes(s.table[key], value));
    NextKeeps(s, WorkerFinishes(s.table[key], value));
    hide LogInv, KeyInv;
    assert u.entries[s.table[key]].Loading?;
    hide Inv;
  }

  /** Evicting a key forgets its entry and no other. */
  lemma EvictForgetsOne(steps: seq<Step>, key: Key, other: Key)
    ensures var s, t := RunSteps(steps), Next(RunSteps(steps), Evict(key));
            && key !in t.table
            && (other != key && other in s.table ==>
                  other in t.table && t.table[other] == s.table[other]
                  && s.table[other] in s.entries && s.table[other] in t.entries
                  && t.entries[s.table[other]] == s.entries[s.table[other]])
  {
    EveryRun(steps);
    hide LogInv, EntryInv, KeyInv;
  }

  /** Every value anyone is given is the one its load published. */
  lemma FoundWasPublished(steps: seq<Step>, k: nat)
    requires k < |RunSteps(steps).log| && RunSteps(steps).log[k].Found?
    ensures var log := RunSteps(steps).log;
            exists m :: 0 <= m < k && log[m].Published? && log[m].load == log[k].load && log[m].value == log[k].value
  {
    EveryRun(steps);
    assert EventInv(RunSteps(steps).log, k);
  }

  /** A published result stays until its entry is evicted: while the entry lives, every access returns it. */
  lemma PublishedStays(steps: seq<Step>, k: nat, key: Key)
    requires k < |RunSteps(steps).log| && RunSteps(steps).log[k].Published?
    requires key in RunSteps(steps).table && RunSteps(steps).table[key] == RunSteps(steps).log[k].load
    ensures var s := RunSteps(steps);
            && s.log[k].load in s.entries && Result(s.entries[s.log[k].load]) == Some(s.log[k].value)
            && Next(s, Fetch(key)).log == s.log + [Found(s.log[k].load, s.log[k].value)]
            && forall view :: Next(s, Use(key, view)).log == s.log + [Found(s.log[k].load, s.log[k].value)]
  {
    EveryRun(steps);
  }

  /** Between two loads of a key it was evicted: accesses in between share one load. */
  lemma OneLoadBetweenEvictions(steps: seq<Step>, i: nat, j: nat)
    requires i < j < |RunSteps(steps).log|
    requires RunSteps(steps).log[i].Started? && RunSteps(steps).log[j].Started?
    requires RunSteps(steps).log[i].key == RunSteps(steps).log[j].key
    ensures exists k :: i < k < j && RunSteps(steps).log[k] == Evicted(RunSteps(steps).log[i].key)
  {
    EveryRun(steps);
    assert EventInv(RunSteps(steps).log, j);
    assert EvictedBetween(RunSteps(steps).log, i, j, RunSteps(steps).log[i].key);
  }

  // ----- The objects follow the protocol -----

  /** Every load has its own object; the table refers to the objects of the loads that the protocol's table names. */
  ghost predicate Linked(weak: map<LoadId, CachedLoad>, tasks: map<LoadId, Task>, next: LoadId, table: map<Key, LoadId>,
                         loading: map<Key, CachedLoad>, cells: set<CachedLoad>)
  {
    && weak.Keys == tasks.Keys
    && (forall id :: id in weak ==> weak[id].id == id && id < next && weak[id] in cells)
    && table.Keys == loading.Keys
    && (forall key :: key in table ==> table[key] in weak && loading[key] == weak[table[key]])
  }

  lemma LinkedStart(weak: map<LoadId, CachedLoad>, tasks: map<LoadId, Task>, next: LoadId, table: map<Key, LoadId>,
                    loading: map<Key, CachedLoad>, cells: set<CachedLoad>, key: Key, entry: CachedLoad)
    requires Linked(weak, tasks, next, table, loading, cells) && entry.id == next
    ensures next !in weak && (key in table <==> key in loading)
    ensures Linked(weak[next := entry], tasks[next := Working], next + 1, table[key := next], loading[key := entry], cells + {entry})
  {
  }

  lemma LinkedEvict(weak: map<LoadId, CachedLoad>, tasks: map<LoadId, Task>, next: LoadId, table: map<Key, LoadId>,
                    loading: map<Key, CachedLoad>, cells: set<CachedLoad>, key: Key)
    requires Linked(weak, tasks, next, table, loading, cells)
    ensures Linked(weak, tasks, next, table - {key}, loading - {key}, cells)
  {
  }

  lemma LinkedTask(weak: map<LoadId, CachedLoad>, tasks: map<LoadId, Task>, next: LoadId, table: map<Key, LoadId>,
                   loading: map<Key, CachedLoad>, cells: set<CachedLoad>, id: LoadId, task: Task)
    requires Linked(weak, tasks, next, table, loading, cells) && id in tasks
    ensures Linked(weak, tasks[id := task], next, table, loading, cells)
  {
    assert tasks[id := task].Keys == tasks.Keys;
  }

  lemma LinkedFields(weak: map<LoadId, CachedLoad>, tasks: map<LoadId, Task>, next: LoadId, table: map<Key, LoadId>,
                     loading: map<Key, CachedLoad>, cells: set<CachedLoad>)
    requires Linked(weak, tasks, next, table, loading, cells)
    ensures weak.Keys == tasks.Keys && table.Keys == loading.Keys
    ensures forall key :: key in table ==> table[key] in weak && loading[key] == weak[table[key]]
    ensures forall id :: id in weak ==> weak[id].id == id && weak[id] in cells
  {
  }

  /** The objects are in the states that the protocol has them in. */
  ghost predicate Mirrors(weak: map<LoadId, CachedLoad>, entries: map<LoadId, LoadState>, cells: set<CachedLoad>)
    reads cells
  {
    forall id :: id in entries ==> id in weak && weak[id] in cells && weak[id].state == entries[id]
  }

  lemma MirrorsStart(weak: map<LoadId, CachedLoad>, entries: map<LoadId, LoadState>, cells: set<CachedLoad>,
                     id: LoadId, entry: CachedLoad)
    requires Mirrors(weak, entries, cells) && id !in weak && entry.state == Loading({})
    ensures Mirrors(weak[id := entry], entries[id := Loading({})], cells + {entry})
  {
  }

  lemma MirrorsOne(weak: map<LoadId, CachedLoad>, entries: map<LoadId, LoadState>, cells: set<CachedLoad>,
                   id: LoadId, value: Value)
    requires id in weak && weak[id] in cells && weak[id].state == Loaded(value)
    requires forall i :: i in entries && i != id ==> i in weak && weak[i] in cells && weak[i].state == entries[i]
    ensures Mirrors(weak, entries[id := Loaded(value)], cells)
  {
  }

  /** The asset table together with what the executors hold: a task for every load, and the weak reference that
      its foreground half has to the load's state. */
  class AssetSystem {
    const assets: AssetTable
    var weak: map<LoadId, CachedLoad>
    var tasks: map<LoadId, Task>
    var next: LoadId
    ghost var log: seq<Event>
    ghost var spec: State
    ghost var cells: set<CachedLoad>

    /** The objects are as the state `spec` of the protocol says, and the log holds what really happened. */
    ghost predicate Valid()
      reads this, assets, cells
    {
      && spec.tasks == tasks && spec.next == next && spec.log == log
      && Linked(weak, tasks, next, spec.table, assets.loading, cells)
      && Mirrors(weak, spec.entries, cells)
    }

    constructor ()
      ensures Valid() && spec == INITIAL && fresh(assets) && cells == {}
    {
      assets := new AssetTable();
      weak, tasks, next, log, cells, spec := map[], map[], 0, [], {}, INITIAL;
    }

    /** `asset_entry`, with the tasks that a new load starts. */
    method Entry(key: Key) returns (entry: CachedLoad)
      requires Valid()
      modifies this, assets
      ensures Valid() && spec == Entered(old(spec), key)
      ensures key in spec.table && spec.table[key] in weak && entry == weak[spec.table[key]]
      ensures fresh(cells - old(cells))
    {
      hide Linked, Mirrors;
      var started;
      LinkedFields(weak, tasks, next, spec.table, assets.loading, cells);
      entry, started := assets.AssetEntry(key, next);
      if started {
        Start(key, entry, old(assets.loading));
      } else {
        assert assets.loading == old(assets.loading);
      }
      LinkedFields(weak, tasks, next, spec.table, assets.loading, cells);
    }

    /** The tasks of a new load. */
    method Start(key: Key, entry: CachedLoad, ghost loading: map<Key, CachedLoad>)
      requires spec.tasks == tasks && spec.next == next && spec.log == log
      requires Linked(weak, tasks, next, spec.table, loading, cells) && Mirrors(weak, spec.entries, cells)
      requires key !in spec.table && assets.loading == loading[key := entry]
      requires entry.id == next && entry.state == Loading({})
      modifies this
      ensures Valid() && spec == Entered(old(spec), key) && cells == old(cells) + {entry}
    {
      LinkedStart(weak, tasks, next, spec.table, loading, cells, key, entry);
      MirrorsStart(weak, spec.entries, cells, next, entry);
      hide Linked, Mirrors;
      weak, tasks, log := weak[next := entry], tasks[next := Working], log + [Started(next, key)];
      next, cells, spec := next + 1, cells + {entry}, Entered(spec, key);
    }

    /** The load's state is still there for its weak reference: the table is its only owner. */
    predicate Alive(id: LoadId)
      requires id in weak
      reads this, assets
    {
      exists key | key in assets.loading :: assets.loading[key] == weak[id]
    }

    lemma AliveIsEntry(id: LoadId)
      requires Valid() && Inv(spec) && id in weak
      ensures Alive(id) <==> id in spec.entries
    {
      if id in spec.entries {
        assert id in spec.table.Values;
        var key :| key in spec.table && spec.table[key] == id;
        assert assets.loading[key] == weak[id];
      }
    }

    /** `use_by` on the object of one load. */
    method UseCell(ghost id: LoadId, entry: CachedLoad, view: View)
      requires Valid() && id in spec.entries && id in weak && entry == weak[id]
      modifies this`spec, this`log, entry
      ensures Valid() && spec == Used(old(spec), id, view)
    {
      LinkedFields(weak, tasks, next, spec.table, assets.loading, cells);
      hide Linked;
      var r := entry.UseBy(view);
      log, spec := log + [if r.None? then FoundNothing(id, view) else Found(id, r.value)], Used(spec, id, view);
    }

    method GetCell(ghost id: LoadId, entry: CachedLoad)
      requires Valid() && id in spec.entries && id in weak && entry == weak[id]
      modifies this`spec, this`log
      ensures Valid() && spec == Fetched(old(spec), id)
    {
      hide Linked;
      var r := entry.Get();
      log, spec := log + (if r.Some? then [Found(id, r.value)] else []), Fetched(spec, id);
    }

    /** `use_asset`: the view is remembered if there is no result yet. */
    method UseAsset(key: Key, view: View)
      requires Valid() && Inv(spec)
      modifies this, assets, cells
      ensures Valid() && spec == Used(Entered(old(spec), key), Entered(old(spec), key).table[key], view)
      ensures fresh(cells - old(cells))
    {
      EnteredKeeps(spec, key);
      EntryOfKey(Entered(spec, key), key);
      hide *;
      var entry := Entry(key);
      UseCell(spec.table[key], entry, view);
    }

    /** `fetch_asset` */
    method FetchAsset(key: Key)
      requires Valid() && Inv(spec)
      modifies this, assets
      ensures Valid() && spec == Fetched(Entered(old(spec), key), Entered(old(spec), key).table[key])
      ensures fresh(cells - old(cells))
    {
      EnteredKeeps(spec, key);
      EntryOfKey(Entered(spec, key), key);
      hide *;
      var entry := Entry(key);
      GetCell(spec.table[key], entry);
    }

    method FinishWork(id: LoadId, value: Value)
      requires Valid()
      modifies this
      ensures Valid() && spec == Next(old(spec), WorkerFinishes(id, value)) && cells == old(cells)
    {
      hide Linked, Mirrors;
      if id in tasks && tasks[id].Working? {
        LinkedTask(weak, tasks, next, spec.table, assets.loading, cells, id, Finished(value));
        tasks, log := tasks[id := Finished(value)], log + [Computed(id, value)];
        spec := Next(spec, WorkerFinishes(id, value));
      }
    }

    /** The foreground half of a load's task: it publishes unless the load's state is gone. The state it finds
        is never a loaded one. */
    method RunForeground(id: LoadId)
      requires Valid() && Inv(spec)
      modifies this, cells
      ensures Valid() && spec == Foreground(old(spec), id) && cells == old(cells)
    {
      LinkedFields(weak, tasks, next, spec.table, assets.loading, cells);
      ForegroundFields(spec, id);
      hide Inv, Linked, Mirrors, Foreground, AssetSystem.Alive, Next, Entered, LogInv, TableInv, EntryInv, KeyInv;
      if id !in tasks || !tasks[id].Finished? {
        return;
      }
      AliveIsEntry(id);
      NotLoadedYet(spec, id);
      LinkedTask(weak, tasks, next, spec.table, assets.loading, cells, id, Done);
      var value := tasks[id].value;
      if Alive(id) {
        PublishCell(id, weak[id], value);
      } else {
        tasks, spec := tasks[id := Done], Foreground(spec, id);
      }
    }

    method PublishCell(id: LoadId, cell: CachedLoad, value: Value)
      requires Valid() && id in spec.entries && id in weak && cell == weak[id] && spec.entries[id].Loading?
      requires id in tasks && tasks[id] == Finished(value)
      modifies this`spec, this`log, this`tasks, cell
      ensures Valid() && spec == Foreground(old(spec), id)
    {
      LinkedFields(weak, tasks, next, spec.table, assets.loading, cells);
      LinkedTask(weak, tasks, next, spec.table, assets.loading, cells, id, Done);
      ForegroundFields(spec, id);
      hide Linked, Foreground;
      ghost var views := cell.state.views;
      var notified := cell.Publish(value);
      ghost var told := set v | v in notified;
      assert told == views;
      MirrorsOne(weak, spec.entries, cells, id, value);
      hide Mirrors;
      tasks, log, spec := tasks[id := Done], log + [Published(id, value, told)], Foreground(spec, id);
    }

    method EvictAsset(key: Key)
      requires Valid()
      modifies this, assets
      ensures Valid() && spec == Next(old(spec), Evict(key)) && cells == old(cells)
    {
      LinkedEvict(weak, tasks, next, spec.table, assets.loading, cells, key);
      LinkedFields(weak, tasks, next, spec.table, assets.loading, cells);
      hide Linked;
      assets.RemoveAsset(key);
      if key in spec.table {
        log := log + [Evicted(key)];
      } else {
        assert spec.table - {key} == spec.table;
      }
      spec := Next(spec, Evict(key));
    }

    lemma ForegroundFields(s: State, id: LoadId)
      ensures var t := Foreground(s, id);
              if id !in s.tasks || !s.tasks[id].Finished? then t == s
              else
                && t.table == s.table && t.next == s.next && t.tasks == s.tasks[id := Done]
                && (id !in s.entries ==> t.entries == s.entries && t.log == s.log)
                && (id in s.entries && s.entries[id].Loading? ==>
                      t.entries == s.entries[id := Loaded(s.tasks[id].value)]
                      && t.log == s.log + [Published(id, s.tasks[id].value, s.entries[id].views)])
    {
    }

    lemma NotLoadedYet(s: State, id: LoadId)
      requires Inv(s) && id in s.tasks && s.tasks[id].Finished?
      ensures id in s.entries ==> s.entries[id].Loading?
    {
    }

    /** One step of the protocol, done to the objects. */
    method Perform(step: Step)
      requires Valid() && Inv(spec)
      modifies this, assets, cells
      ensures Valid() && Inv(spec) && spec == Next(old(spec), step)
      ensures fresh(cells - old(cells))
    {
      NextKeeps(spec, step);
      hide Inv, Linked, Mirrors, Entered, Used, Fetched, Foreground;
      match step
      case Use(key, view) => UseAsset(key, view);
      case Fetch(key) => FetchAsset(key);
      case WorkerFinishes(id, value) => FinishWork(id, value);
      case ForegroundRuns(id) => RunForeground(id);
      case Evict(key) => EvictAsset(key);
    }
  }

  /** Whatever the order of steps, the objects go through the states of the protocol, so that all its promises
      hold of them. */
  method RunProtocol(steps: seq<Step>) returns (system: AssetSystem)
    ensures system.Valid() && system.spec == RunSteps(steps) && Inv(system.spec)
  {
    hide Inv, Next;
    system := new AssetSystem();
    EveryRun([]);
    for n := 0 to |steps|
      invariant fresh(system) && fresh(system.assets) && fresh(system.cells)
      invariant system.Valid() && Inv(system.spec) && system.spec == RunSteps(steps[..n])
    {
      assert steps[..n + 1][..n] == steps[..n];
      system.Perform(steps[n]);
    }
    assert steps[..|steps|] == steps;
  }
}
