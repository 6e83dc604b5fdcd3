/**
 Global action listeners (crates/gpui/src/app.rs): dispatching takes the listeners of an action out of the
 table while they run, and they may register more listeners, stop propagation, or dispatch again.

 A run is described by what each invocation does: the k-th listener that a dispatch invokes performs the k-th
 behaviour listed with it, whatever its identity.
 */
module ActionDispatch {
  import opened Sequences

  type ActionId = nat
  type ListenerId = nat

  datatype Act =
    | Register(action: ActionId, listener: ListenerId)
    | StopPropagation
    | Propagate
    | DispatchNested(action: ActionId, runs: seq<Behaviour>)

  datatype Behaviour = Does(acts: seq<Act>)

  datatype Phase = Capture | Bubble

  datatype Call = Call(phase: Phase, listener: ListenerId)

  datatype Registration = Registration(action: ActionId, listener: ListenerId)

  function ActSize(act: Act): (n: nat)
    ensures n >= 1
  {
    match act
    case DispatchNested(_, runs) => 1 + RunsSize(runs)
    case _ => 1
  }

  function ActsSize(acts: seq<Act>): nat {
    if acts == [] then 0 else ActSize(acts[0]) + ActsSize(acts[1..])
  }

  function RunsSize(runs: seq<Behaviour>): nat {
    if runs == [] then 0 else ActsSize(runs[0].acts) + RunsSize(runs[1..])
  }

  /** What the k-th invocation does; nothing once the list is exhausted. */
  function Nth(runs: seq<Behaviour>, k: nat): Behaviour {
    if k < |runs| then runs[k] else Does([])
  }

  lemma {:induction false} NthSmaller(runs: seq<Behaviour>, k: nat)
    ensures ActsSize(Nth(runs, k).acts) <= RunsSize(runs)
  {
    if runs != [] && k > 0 {
      NthSmaller(runs[1..], k - 1);
    }
  }

  /** The listeners registered for one action, in registration order. */
  function RegisteredFor(registrations: seq<Registration>, action: ActionId): seq<ListenerId> {
    if registrations == [] then []
    else
      var last := registrations[|registrations| - 1];
      RegisteredFor(registrations[..|registrations| - 1], action)
      + (if last.action == action then [last.listener] else [])
  }

  lemma {:induction false} RegisteredForAppend(a: seq<Registration>, b: seq<Registration>, action: ActionId)
    ensures RegisteredFor(a + b, action) == RegisteredFor(a, action) + RegisteredFor(b, action)
  {
    if b == [] {
      assert a + b == a;
    } else {
      RegisteredForAppend(a, b[..|b| - 1], action);
      assert (a + b)[..|a + b| - 1] == a + b[..|b| - 1];
    }
  }

  function ListenersOf(table: map<ActionId, seq<ListenerId>>, action: ActionId): seq<ListenerId> {
    if action in table then table[action] else []
  }

  /** The table has grown by exactly these registrations: nothing lost, nothing twice, order kept. */
  ghost predicate GrownBy(before: map<ActionId, seq<ListenerId>>, after: map<ActionId, seq<ListenerId>>,
                          registrations: seq<Registration>)
  {
    forall a: ActionId :: ListenersOf(after, a) == ListenersOf(before, a) + RegisteredFor(registrations, a)
  }

  lemma GrownByTransitive(a: map<ActionId, seq<ListenerId>>, b: map<ActionId, seq<ListenerId>>,
                          c: map<ActionId, seq<ListenerId>>, r: seq<Registration>, q: seq<Registration>)
    requires GrownBy(a, b, r) && GrownBy(b, c, q)
    ensures GrownBy(a, c, r + q)
  {
    hide RegisteredFor, ListenersOf;
    forall x: ActionId ensures ListenersOf(c, x) == ListenersOf(a, x) + RegisteredFor(r + q, x) {
      RegisteredForAppend(r, q, x);
      Associative(ListenersOf(a, x), RegisteredFor(r, x), RegisteredFor(q, x));
    }
  }

  /** Listeners taken out of the table and put back in front of those registered meanwhile. */
  lemma PutBackGrown(before: map<ActionId, seq<ListenerId>>, action: ActionId, after: map<ActionId, seq<ListenerId>>,
                     r: seq<Registration>)
    requires GrownBy(before - {action}, after, r)
    ensures GrownBy(before, after[action := ListenersOf(before, action) + ListenersOf(after, action)], r)
  {
    hide RegisteredFor;
    var put := after[action := ListenersOf(before, action) + ListenersOf(after, action)];
    assert ListenersOf(before - {action}, action) == [];
    assert ListenersOf(after, action) == RegisteredFor(r, action);
    forall a: ActionId ensures ListenersOf(put, a) == ListenersOf(before, a) + RegisteredFor(r, a) {
      if a != action {
        assert ListenersOf(before - {action}, a) == ListenersOf(before, a);
        assert ListenersOf(after, a) == ListenersOf(before - {action}, a) + RegisteredFor(r, a);
      }
    }
  }

  lemma NothingGrown(table: map<ActionId, seq<ListenerId>>)
    ensures GrownBy(table, table, [])
  {
  }

  function Calls(phase: Phase, listeners: seq<ListenerId>): (c: seq<Call>)
    ensures |c| == |listeners| && forall i :: 0 <= i < |c| ==> c[i] == Call(phase, listeners[i])
  {
    seq(|listeners|, i requires 0 <= i < |listeners| => Call(phase, listeners[i]))
  }

  function Reversed(s: seq<ListenerId>): (r: seq<ListenerId>)
    ensures |r| == |s| && forall i :: 0 <= i < |s| ==> r[i] == s[|s| - 1 - i]
  {
    seq(|s|, i requires 0 <= i < |s| => s[|s| - 1 - i])
  }

  /** The invocations of one dispatch, given the listeners at its start and those registered by its middle. */
  ghost predicate DispatchOrder(list: seq<ListenerId>, during: seq<ListenerId>, calls: seq<Call>) {
    exists c: nat, b: nat :: c <= |list| && b <= |list + during| && (b > 0 ==> c == |list|)
                             && calls == Calls(Capture, list[..c]) + Calls(Bubble, Reversed(list + during)[..b])
  }

  lemma GrownList(before: map<ActionId, seq<ListenerId>>, after: map<ActionId, seq<ListenerId>>,
                  r: seq<Registration>, action: ActionId)
    requires GrownBy(before, after, r)
    ensures ListenersOf(after, action) == ListenersOf(before, action) + RegisteredFor(r, action)
  {
  }

  /** The listener table, the propagation flag, and every registration made so far. */
  datatype Dispatcher = Dispatcher(table: map<ActionId, seq<ListenerId>>, propagate: bool,
                                   registrations: seq<Registration>)

  /** Where a phase or a dispatch ended, and the invocations it made itself (not those of nested dispatches). */
  datatype Outcome = Outcome(end: Dispatcher, calls: seq<Call>)

  function Registered(d: Dispatcher, action: ActionId, listener: ListenerId): Dispatcher {
    d.(table := d.table[action := ListenersOf(d.table, action) + [listener]],
       registrations := d.registrations + [Registration(action, listener)])
  }

  function Acted(d: Dispatcher, act: Act): Dispatcher
    decreases ActSize(act), 0
  {
    match act
    case Register(action, listener) => Registered(d, action, listener)
    case StopPropagation => d.(propagate := false)
    case Propagate => d.(propagate := true)
    case DispatchNested(action, runs) => Dispatched(d, action, runs).end
  }

  function Performed(d: Dispatcher, acts: seq<Act>): Dispatcher
    decreases ActsSize(acts), 1, |acts|
  {
    if acts == [] then d else Performed(Acted(d, acts[0]), acts[1..])
  }

  /** The listeners invoked in the given order until one of them leaves propagation stopped. */
  function Swept(d: Dispatcher, phase: Phase, order: seq<ListenerId>, runs: seq<Behaviour>, k: nat): Outcome
    decreases RunsSize(runs), 2, |order|
  {
    if order == [] then Outcome(d, [])
    else
      NthSmaller(runs, k);
      var next := Performed(d, Nth(runs, k).acts);
      var call := [Call(phase, order[0])];
      if !next.propagate then Outcome(next, call)
      else
        var rest := Swept(next, phase, order[1..], runs, k + 1);
        Outcome(rest.end, call + rest.calls)
  }

  function Phased(d: Dispatcher, action: ActionId, phase: Phase, runs: seq<Behaviour>, k: nat): Outcome
    decreases RunsSize(runs), 3
  {
    if action !in d.table then Outcome(d, [])
    else
      var list := d.table[action];
      var swept := Swept(d.(table := d.table - {action}), phase, InOrder(phase, list), runs, k);
      var end := swept.end;
      Outcome(end.(table := end.table[action := list + ListenersOf(end.table, action)]), swept.calls)
  }

  function Dispatched(d: Dispatcher, action: ActionId, runs: seq<Behaviour>): Outcome
    decreases RunsSize(runs), 4
  {
    var capture := Phased(d.(propagate := true), action, Capture, runs, 0);
    if !capture.end.propagate then capture
    else
      var bubble := Phased(capture.end, action, Bubble, runs, |capture.calls|);
      Outcome(bubble.end, capture.calls + bubble.calls)
  }

  function InOrder(phase: Phase, list: seq<ListenerId>): seq<ListenerId> {
    if phase == Bubble then Reversed(list) else list
  }

  function Then(calls: seq<Call>, rest: Outcome): Outcome {
    Outcome(rest.end, calls + rest.calls)
  }

  lemma SweptNothing(d: Dispatcher, phase: Phase, runs: seq<Behaviour>, k: nat)
    ensures Swept(d, phase, [], runs, k) == Outcome(d, [])
  {
  }

  lemma SweptStep(d: Dispatcher, phase: Phase, order: seq<ListenerId>, runs: seq<Behaviour>, k: nat, i: nat)
    requires i < |order|
    ensures var next := Performed(d, Nth(runs, k).acts);
            Swept(d, phase, order[i..], runs, k)
            == if next.propagate then Then([Call(phase, order[i])], Swept(next, phase, order[i + 1..], runs, k + 1))
               else Outcome(next, [Call(phase, order[i])])
  {
    hide Performed;
    assert order[i..][1..] == order[i + 1..];
  }

  /** What happens between two points only adds registrations, and the table grows by exactly those. */
  ghost predicate Extends(before: Dispatcher, after: Dispatcher) {
    before.registrations <= after.registrations
    && GrownBy(before.table, after.table, after.registrations[|before.registrations|..])
  }

  lemma ExtendsTransitive(a: Dispatcher, b: Dispatcher, c: Dispatcher)
    requires Extends(a, b) && Extends(b, c)
    ensures Extends(a, c)
  {
    hide GrownBy;
    var n, m := |a.registrations|, |b.registrations|;
    GrownByTransitive(a.table, b.table, c.table, b.registrations[n..], c.registrations[m..]);
    assert c.registrations[n..] == b.registrations[n..] + c.registrations[m..];
  }

  lemma ExtendsSameTable(a: Dispatcher, propagate: bool)
    ensures Extends(a, a.(propagate := propagate))
  {
    assert a.registrations[|a.registrations|..] == [];
    NothingGrown(a.table);
  }

  lemma RegisteredExtends(d: Dispatcher, action: ActionId, listener: ListenerId)
    ensures Extends(d, Registered(d, action, listener))
  {
    var r := [Registration(action, listener)];
    assert r[..0] == [];
    assert Registered(d, action, listener).registrations[|d.registrations|..] == r;
  }

  /** However the listeners of any nesting of dispatches behave, no listener is lost, duplicated or reordered. */
  lemma {:induction false} PerformedExtends(d: Dispatcher, acts: seq<Act>)
    ensures Extends(d, Performed(d, acts))
    decreases ActsSize(acts), 1, |acts|
  {
    hide Extends;
    if acts == [] {
      ExtendsSameTable(d, d.propagate);
    } else {
      var mid := Acted(d, acts[0]);
      match acts[0] {
        case Register(action, listener) => RegisteredExtends(d, action, listener);
        case StopPropagation => ExtendsSameTable(d, false);
        case Propagate => ExtendsSameTable(d, true);
        case DispatchNested(action, runs) =>
          assert ActSize(acts[0]) == 1 + RunsSize(runs);
          DispatchedExtends(d, action, runs);
      }
      PerformedExtends(mid, acts[1..]);
      ExtendsTransitive(d, mid, Performed(mid, acts[1..]));
    }
  }

  /** A sweep invokes an initial part of the order, all of it unless it ends with propagation stopped. */
  lemma {:induction false} SweptExtends(d: Dispatcher, phase: Phase, order: seq<ListenerId>, runs: seq<Behaviour>,
                                        k: nat)
    ensures var o := Swept(d, phase, order, runs, k);
            Extends(d, o.end)
            && |o.calls| <= |order| && o.calls == Calls(phase, order[..|o.calls|])
            && (|o.calls| < |order| ==> !o.end.propagate)
    decreases RunsSize(runs), 2, |order|
  {
    hide Extends;
    if order == [] {
      ExtendsSameTable(d, d.propagate);
    } else {
      NthSmaller(runs, k);
      var next := Performed(d, Nth(runs, k).acts);
      PerformedExtends(d, Nth(runs, k).acts);
      if next.propagate {
        SweptExtends(next, phase, order[1..], runs, k + 1);
        var rest := Swept(next, phase, order[1..], runs, k + 1);
        ExtendsTransitive(d, next, rest.end);
        assert order[..|rest.calls| + 1] == [order[0]] + order[1..][..|rest.calls|];
      }
    }
  }

  lemma {:induction false} PhasedExtends(d: Dispatcher, action: ActionId, phase: Phase, runs: seq<Behaviour>, k: nat)
    ensures var o := Phased(d, action, phase, runs, k);
            var order := InOrder(phase, ListenersOf(d.table, action));
            Extends(d, o.end)
            && |o.calls| <= |order| && o.calls == Calls(phase, order[..|o.calls|])
            && (|o.calls| < |order| ==> !o.end.propagate)
    decreases RunsSize(runs), 3
  {
    hide GrownBy;
    if action !in d.table {
      ExtendsSameTable(d, d.propagate);
    } else {
      var list := d.table[action];
      var taken := d.(table := d.table - {action});
      SweptExtends(taken, phase, InOrder(phase, list), runs, k);
      var end := Swept(taken, phase, InOrder(phase, list), runs, k).end;
      PutBackGrown(d.table, action, end.table, end.registrations[|d.registrations|..]);
    }
  }

  /**
   One dispatch invokes, in the capture phase, the listeners in registration order and then, in the bubble phase,
   those and the ones registered during the capture phase in reverse order. Each phase may be cut short, but only
   by a listener that leaves propagation stopped, and then nothing further is invoked.
   */
  ghost predicate CallsOrdered(before: Dispatcher, action: ActionId, o: Outcome, midway: nat) {
    |before.registrations| <= midway <= |o.end.registrations|
    && var list := ListenersOf(before.table, action);
    var during := RegisteredFor(o.end.registrations[|before.registrations|..midway], action);
    DispatchOrder(list, during, o.calls) && (o.end.propagate ==> |o.calls| == 2 * |list| + |during|)
  }

  lemma {:induction false} DispatchedExtends(d: Dispatcher, action: ActionId, runs: seq<Behaviour>)
    ensures Extends(d, Dispatched(d, action, runs).end)
    ensures exists midway: nat :: CallsOrdered(d, action, Dispatched(d, action, runs), midway)
    decreases RunsSize(runs), 4
  {
    hide Extends, CallsOrdered, Phased;
    var start := d.(propagate := true);
    ExtendsSameTable(d, true);
    PhasedExtends(start, action, Capture, runs, 0);
    var capture := Phased(start, action, Capture, runs, 0);
    ExtendsTransitive(d, start, capture.end);
    if capture.end.propagate {
      PhasedExtends(capture.end, action, Bubble, runs, |capture.calls|);
      var bubble := Phased(capture.end, action, Bubble, runs, |capture.calls|);
      ExtendsTransitive(d, capture.end, bubble.end);
      BothPhases(d, action, capture, bubble);
    } else {
      CutShort(d, action, capture);
    }
  }

  lemma BothPhases(d: Dispatcher, action: ActionId, capture: Outcome, bubble: Outcome)
    requires Extends(d, capture.end) && Extends(capture.end, bubble.end)
    requires capture.calls == Calls(Capture, ListenersOf(d.table, action))
    requires var order := Reversed(ListenersOf(capture.end.table, action));
             |bubble.calls| <= |order| && bubble.calls == Calls(Bubble, order[..|bubble.calls|])
             && (|bubble.calls| < |order| ==> !bubble.end.propagate)
    ensures CallsOrdered(d, action, Outcome(bubble.end, capture.calls + bubble.calls), |capture.end.registrations|)
  {
    hide GrownBy, DispatchOrder, RegisteredFor, ListenersOf;
    var n, midway := |d.registrations|, |capture.end.registrations|;
    var list := ListenersOf(d.table, action);
    var during := RegisteredFor(capture.end.registrations[n..], action);
    GrownList(d.table, capture.end.table, capture.end.registrations[n..], action);
    assert list[..|list|] == list;
    OrderedBy(list, during, |list|, |bubble.calls|, capture.calls + bubble.calls);
    assert bubble.end.registrations[n..midway] == capture.end.registrations[n..];
  }

  lemma CutShort(d: Dispatcher, action: ActionId, capture: Outcome)
    requires Extends(d, capture.end) && !capture.end.propagate
    requires var order := ListenersOf(d.table, action);
             |capture.calls| <= |order| && capture.calls == Calls(Capture, order[..|capture.calls|])
    ensures CallsOrdered(d, action, capture, |capture.end.registrations|)
  {
    hide GrownBy, DispatchOrder, RegisteredFor, ListenersOf;
    var n, midway := |d.registrations|, |capture.end.registrations|;
    var list := ListenersOf(d.table, action);
    var during := RegisteredFor(capture.end.registrations[n..midway], action);
    assert capture.calls == capture.calls + Calls(Bubble, Reversed(list + during)[..0]);
    OrderedBy(list, during, |capture.calls|, 0, capture.calls);
  }

  lemma OrderedBy(list: seq<ListenerId>, during: seq<ListenerId>, c: nat, b: nat, calls: seq<Call>)
    requires c <= |list| && b <= |list + during| && (b > 0 ==> c == |list|)
    requires calls == Calls(Capture, list[..c]) + Calls(Bubble, Reversed(list + during)[..b])
    ensures DispatchOrder(list, during, calls)
  {
  }

  // ----- How far a dispatch goes, from the behaviours alone -----

  /** Whether propagation is stopped, and how many listeners each action has. */
  datatype Tally = Tally(stopped: bool, count: map<ActionId, nat>)

  function CountOf(count: map<ActionId, nat>, action: ActionId): nat {
    if action in count then count[action] else 0
  }

  /** One invocation: the last act that says something about propagation decides. */
  function TallyActs(t: Tally, acts: seq<Act>): Tally
    decreases ActsSize(acts), 1, |acts|
  {
    if acts == [] then t else TallyActs(TallyAct(t, acts[0]), acts[1..])
  }

  function TallyAct(t: Tally, act: Act): Tally
    decreases ActSize(act), 0, 0
  {
    match act
    case Register(action, _) => t.(count := t.count[action := CountOf(t.count, action) + 1])
    case StopPropagation => t.(stopped := true)
    case Propagate => t.(stopped := false)
    case DispatchNested(action, runs) => TallyDispatch(t, action, runs).1
  }

  /** Up to `n` invocations, none after one that leaves propagation stopped: how many are made. */
  function Until(t: Tally, runs: seq<Behaviour>, k: nat, n: nat): (nat, Tally)
    decreases RunsSize(runs), 2, n
  {
    if n == 0 then (0, t)
    else
      NthSmaller(runs, k);
      var u := TallyActs(t, Nth(runs, k).acts);
      if u.stopped then (1, u)
      else
        var (m, v) := Until(u, runs, k + 1, n - 1);
        (m + 1, v)
  }

  /** The listeners are out of the table while they run, and come back in addition to new ones. */
  function TallyPhase(t: Tally, action: ActionId, runs: seq<Behaviour>, k: nat): (nat, Tally)
    decreases RunsSize(runs), 3, 0
  {
    var n := CountOf(t.count, action);
    var (m, u) := Until(t.(count := t.count[action := 0]), runs, k, n);
    (m, u.(count := u.count[action := n + CountOf(u.count, action)]))
  }

  function TallyDispatch(t: Tally, action: ActionId, runs: seq<Behaviour>): (nat, Tally)
    decreases RunsSize(runs), 4, 0
  {
    var (m, u) := TallyPhase(t.(stopped := false), action, runs, 0);
    if u.stopped then (m, u)
    else
      var (n, v) := TallyPhase(u, action, runs, m);
      (m + n, v)
  }

  /** After `j` invocations, whatever they do. */
  function AfterInvocations(t: Tally, runs: seq<Behaviour>, k: nat, j: nat): Tally
    decreases j
  {
    if j == 0 then t else AfterInvocations(TallyActs(t, Nth(runs, k).acts), runs, k + 1, j - 1)
  }

  /** No invocation is made after the first one that leaves propagation stopped, and all are if there is none. */
  lemma {:induction false} UntilFirstStop(t: Tally, runs: seq<Behaviour>, k: nat, n: nat)
    ensures var m := Until(t, runs, k, n).0;
            && m <= n
            && (forall j :: 1 <= j < m ==> !AfterInvocations(t, runs, k, j).stopped)
            && (m < n ==> m >= 1 && AfterInvocations(t, runs, k, m).stopped)
    decreases n
  {
    hide TallyActs;
    if n > 0 {
      var u := TallyActs(t, Nth(runs, k).acts);
      var m := Until(t, runs, k, n).0;
      assert AfterInvocations(u, runs, k + 1, 0) == u;
      forall j: nat | j >= 1 ensures AfterInvocations(t, runs, k, j) == AfterInvocations(u, runs, k + 1, j - 1) {
      }
      if !u.stopped {
        UntilFirstStop(u, runs, k + 1, n - 1);
      }
    }
  }

  ghost predicate Agrees(t: Tally, d: Dispatcher) {
    t.stopped == !d.propagate && forall a: ActionId :: CountOf(t.count, a) == |ListenersOf(d.table, a)|
  }

  lemma RegisterAgrees(t: Tally, d: Dispatcher, action: ActionId, listener: ListenerId)
    requires Agrees(t, d)
    ensures Agrees(t.(count := t.count[action := CountOf(t.count, action) + 1]), Registered(d, action, listener))
  {
    RegisteredLast(d, action, listener, action);
    CountChanges(t, d, Registered(d, action, listener), action, CountOf(t.count, action) + 1);
  }

  /** Only one action has got another number of listeners. */
  lemma CountChanges(t: Tally, d: Dispatcher, e: Dispatcher, action: ActionId, n: nat)
    requires Agrees(t, d) && e.propagate == d.propagate && |ListenersOf(e.table, action)| == n
    requires forall a: ActionId :: a != action ==> ListenersOf(e.table, a) == ListenersOf(d.table, a)
    ensures Agrees(t.(count := t.count[action := n]), e)
  {
    forall a: ActionId ensures CountOf(t.count[action := n], a) == |ListenersOf(e.table, a)| {
      assert a != action ==> CountOf(t.count[action := n], a) == CountOf(t.count, a);
    }
  }

  lemma {:induction false} PerformedAgrees(t: Tally, d: Dispatcher, acts: seq<Act>)
    requires Agrees(t, d)
    ensures Agrees(TallyActs(t, acts), Performed(d, acts))
    decreases ActsSize(acts), 1, |acts|
  {
    if acts != [] {
      match acts[0] {
        case Register(action, listener) =>
          RegisterAgrees(t, d, action, listener);
        case DispatchNested(action, runs) =>
          assert ActSize(acts[0]) == 1 + RunsSize(runs);
          DispatchedAgrees(t, d, action, runs);
        case _ =>
      }
      PerformedAgrees(TallyAct(t, acts[0]), Acted(d, acts[0]), acts[1..]);
    }
  }

  lemma {:induction false} SweptAgrees(t: Tally, d: Dispatcher, phase: Phase, order: seq<ListenerId>,
                                       runs: seq<Behaviour>, k: nat)
    requires Agrees(t, d)
    ensures var (m, u), o := Until(t, runs, k, |order|), Swept(d, phase, order, runs, k);
            |o.calls| == m && Agrees(u, o.end)
    decreases RunsSize(runs), 2, |order|
  {
    hide TallyActs, Performed;
    if order != [] {
      NthSmaller(runs, k);
      var acts := Nth(runs, k).acts;
      PerformedAgrees(t, d, acts);
      if !TallyActs(t, acts).stopped {
        SweptAgrees(TallyActs(t, acts), Performed(d, acts), phase, order[1..], runs, k + 1);
      }
    }
  }

  lemma {:induction false} PhasedAgrees(t: Tally, d: Dispatcher, action: ActionId, phase: Phase, runs: seq<Behaviour>,
                                        k: nat)
    requires Agrees(t, d)
    ensures var (m, u), o := TallyPhase(t, action, runs, k), Phased(d, action, phase, runs, k);
            |o.calls| == m && Agrees(u, o.end)
    decreases RunsSize(runs), 3, 0
  {
    hide Swept;
    var n := CountOf(t.count, action);
    var out := t.(count := t.count[action := 0]);
    if action in d.table {
      var list := d.table[action];
      var taken := d.(table := d.table - {action});
      assert n == |ListenersOf(d.table, action)|;
      CountChanges(t, d, taken, action, 0);
      SweptAgrees(out, taken, phase, InOrder(phase, list), runs, k);
      hide Until;
      PutBackAgrees(Until(out, runs, k, n).1, Swept(taken, phase, InOrder(phase, list), runs, k).end, action, list);
    } else {
      assert Until(out, runs, k, 0) == (0, out);
      CountChanges(t, d, d, action, 0);
    }
  }

  lemma PutBackAgrees(t: Tally, d: Dispatcher, action: ActionId, list: seq<ListenerId>)
    requires Agrees(t, d)
    ensures Agrees(t.(count := t.count[action := |list| + CountOf(t.count, action)]),
                   d.(table := d.table[action := list + ListenersOf(d.table, action)]))
  {
    CountChanges(t, d, d.(table := d.table[action := list + ListenersOf(d.table, action)]), action,
                 |list| + CountOf(t.count, action));
  }

  /** A dispatch makes exactly as many invocations as the behaviours allow: each phase goes on up to the first
      invocation whose acts leave propagation stopped, and the bubble phase only follows if there is none. */
  lemma {:induction false} DispatchedAgrees(t: Tally, d: Dispatcher, action: ActionId, runs: seq<Behaviour>)
    requires Agrees(t, d)
    ensures var (m, u), o := TallyDispatch(t, action, runs), Dispatched(d, action, runs);
            |o.calls| == m && Agrees(u, o.end)
    decreases RunsSize(runs), 4, 0
  {
    hide TallyPhase, Phased;
    var started := t.(stopped := false);
    assert Agrees(started, d.(propagate := true));
    PhasedAgrees(started, d.(propagate := true), action, Capture, runs, 0);
    var (m, u) := TallyPhase(started, action, runs, 0);
    var capture := Phased(d.(propagate := true), action, Capture, runs, 0);
    if !u.stopped {
      PhasedAgrees(u, capture.end, action, Bubble, runs, m);
    }
  }

  /** A registered listener is the last one of its action, and those of other actions stay as they are. */
  lemma RegisteredLast(d: Dispatcher, action: ActionId, listener: ListenerId, other: ActionId)
    ensures var t := Registered(d, action, listener).table;
            && ListenersOf(t, action) == ListenersOf(d.table, action) + [listener]
            && (other != action ==> ListenersOf(t, other) == ListenersOf(d.table, other))
  {
  }

  /** What the acts register themselves, apart from nested dispatches. */
  function Asked(acts: seq<Act>): seq<Registration> {
    if acts == [] then []
    else (if acts[0].Register? then [Registration(acts[0].action, acts[0].listener)] else []) + Asked(acts[1..])
  }

  /** Every registration that is asked for is made, in this order, with those of nested dispatches in between. */
  lemma {:induction false} AskedIsRegistered(d: Dispatcher, acts: seq<Act>)
    ensures d.registrations <= Performed(d, acts).registrations
    ensures Subsequence(Asked(acts), Performed(d, acts).registrations[|d.registrations|..])
    decreases |acts|
  {
    if acts != [] {
      var mid := Acted(d, acts[0]);
      match acts[0] {
        case Register(action, listener) => SubsequenceFirst(d.registrations, Registration(action, listener), mid.registrations);
        case DispatchNested(action, runs) => DispatchedExtends(d, action, runs);
        case _ =>
      }
      hide Acted, Dispatched, Registered;
      AskedIsRegistered(mid, acts[1..]);
      var first := if acts[0].Register? then [Registration(acts[0].action, acts[0].listener)] else [];
      SubsequenceJoin(d.registrations, mid.registrations, Performed(mid, acts[1..]).registrations, first, Asked(acts[1..]));
    }
  }

  class Listeners {
    var table: map<ActionId, seq<ListenerId>>
    var propagate: bool
    ghost var registrations: seq<Registration>

    ghost function State(): Dispatcher
      reads this
    {
      Dispatcher(table, propagate, registrations)
    }

    constructor ()
      ensures State() == Dispatcher(map[], true, [])
    {
      table, propagate, registrations := map[], true, [];
    }

    /** `on_action`. */
    method OnAction(action: ActionId, listener: ListenerId)
      modifies this
      ensures State() == Registered(old(State()), action, listener)
    {
      table := table[action := (if action in table then table[action] else []) + [listener]];
      registrations := registrations + [Registration(action, listener)];
    }

    /** What one listener invocation does. */
    method Invoke(acts: seq<Act>)
      modifies this
      ensures State() == Performed(old(State()), acts)
      decreases ActsSize(acts), 1
    {
      if acts != [] {
        match acts[0] {
          case Register(action, listener) =>
            OnAction(action, listener);
          case StopPropagation =>
            propagate := false;
          case Propagate =>
            propagate := true;
          case DispatchNested(action, runs) =>
            assert ActSize(acts[0]) == 1 + RunsSize(runs);
            var _ := Dispatch(action, runs);
        }
        assert State() == Acted(old(State()), acts[0]);
        Invoke(acts[1..]);
      }
    }

    /**
     `dispatch_global_action`, returning the invocations it made. Whatever the listeners do, the table ends up with
     every list it had followed by what was registered meanwhile.
     */
    method Dispatch(action: ActionId, runs: seq<Behaviour>) returns (calls: seq<Call>)
      modifies this
      ensures Outcome(State(), calls) == Dispatched(old(State()), action, runs)
      ensures Extends(old(State()), State())
      decreases RunsSize(runs), 4
    {
      hide Extends, Phased;
      propagate := true;
      calls := RunPhase(action, Capture, runs, 0);
      if propagate {
        var bubbled := RunPhase(action, Bubble, runs, |calls|);
        calls := calls + bubbled;
      }
      DispatchedExtends(old(State()), action, runs);
    }

    /** One phase: the listeners are taken out, invoked, and put back in front of those registered meanwhile. */
    method RunPhase(action: ActionId, phase: Phase, runs: seq<Behaviour>, first: nat) returns (calls: seq<Call>)
      modifies this
      ensures Outcome(State(), calls) == Phased(old(State()), action, phase, runs, first)
      decreases RunsSize(runs), 3
    {
      hide Swept;
      calls := [];
      if action !in table {
        return;
      }
      var listeners := table[action];
      table := table - {action};
      calls := Sweep(listeners, phase, runs, first);
      var added := if action in table then table[action] else [];
      table := table[action := listeners + added];
    }

    /** Invokes the listeners in the order of the phase until one of them stops propagation. */
    method Sweep(listeners: seq<ListenerId>, phase: Phase, runs: seq<Behaviour>, first: nat)
      returns (calls: seq<Call>)
      modifies this
      ensures Outcome(State(), calls) == Swept(old(State()), phase, InOrder(phase, listeners), runs, first)
      decreases RunsSize(runs), 2
    {
      hide Swept, Performed;
      calls := [];
      ghost var order := InOrder(phase, listeners);
      ghost var whole := Swept(State(), phase, order, runs, first);
      assert order[0..] == order;
      var i := 0;
      while i < |listeners|
        invariant i <= |listeners| && |calls| == i
        invariant whole == Then(calls, Swept(State(), phase, order[i..], runs, first + i))
      {
        var listener := if phase == Bubble then listeners[|listeners| - 1 - i] else listeners[i];
        NthSmaller(runs, first + i);
        SweptStep(State(), phase, order, runs, first + i, i);
        Invoke(Nth(runs, first + i).acts);
        calls := calls + [Call(phase, listener)];
        i := i + 1;
        if !propagate {
          return;
        }
      }
      assert order[i..] == [];
      SweptNothing(State(), phase, runs, first + i);
    }
  }
}
