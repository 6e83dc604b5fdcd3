# A verified model of GPUI's core algorithms

This project models the stateful heart of the GPUI framework and of the importer that mirrors it, and proves
what that code is for.

- `geometry.dfy`, `z_order.dfy`, `bounds_tree.dfy`: the R-tree that gives every painted rectangle a z-order. It is
  proved to return, for every run of insertions and clears, exactly what a plain scan of the earlier rectangles
  returns; that order is proved to be the length of the longest overlapping chain of insertions.
- `app_state.dfy`, `app_steps.dfy`, `app_semantics.dfy`, `app_laws.dfy`, `app_flush.dfy`, `app.dfy`, `app_runs.dfy`, `app_reach.dfy`: the
  `App` machine. Nested updates, the deduplicated effect queue and its flush, subscriber sets, release of dropped
  entities, and windows that are checked out while they are updated or opened. User code is a finite script, a tree of
  operations; what the next invocation of a subscriber or deferred callback does is the head of a list of reactions,
  so re-entrancy is explicit and any terminating behaviour of callbacks is some list. `app_semantics.dfy` says what
  every operation does as a function of the state, with termination from a count of what is left in the reactions;
  `app_laws.dfy` and `app_flush.dfy` prove what these functions keep and promise; the methods of `App` in `app.dfy` are
  proved to compute exactly these functions; `app_runs.dfy` is about whole runs, and `app_reach.dfy` about whom each
  operation of user code reaches.
- `tracking.dfy`: which windows show which entities. `dispatch.dfy`: re-entrant dispatch of global actions.
- `arena.dfy`: the chunked element arena with its validity cell and its scopes.
- `asset_cache.dfy`: asset loads as interleaved steps of users, workers, foreground tasks and evictions.
- `import_paths.dfy`, `lock_graph.dfy`: path normalization, symbolic links, the projection of a lock file and the
  check that a projected lock only prunes.
- `text_offsets.dfy`, `text_input.dfy`: UTF-8 and UTF-16 offsets (widths of section 3 of RFC 3629 and section 2.1 of
  RFC 2781) and the text field that edits by them.
- `sequences.dfy`, `options.dfy`: what the other modules share.
- `lru.dfy`: the image cache of the gallery example. `color.dfy`: RGBA and HSLA over exact reals.

Code that mutates objects is a class whose methods are tied to functions or relations on the abstract state; the
laws are lemmas about those. Ghost fields (`items`, `log`, `pushed`, `applied`, `issued`, `dropped`, `history`)
record what happened, so that whole runs can be talked about.

Three findings, all about code left as it is:

- `apply_entity_created_effect` (crates/gpui/src/app.rs:1948-1957) expects that a new entity's window can be updated,
  because "All windows should be off the stack". The stack is indeed empty then, but the window may have been closed:
  by the update that created the entity, by an effect applied earlier, or by an earlier one of these very observers.
  Then the expectation fails. `AppRuns.RoundFailsExactly` gives the exact condition, and
  `AppRuns.ClosedCreationWindowAborts` a run of two ordinary updates.
- A cache created for no items panics at its first load; for any other size nothing it asserts can fail
  (`ImageCaches.SimpleLruCache.Load`).
- HSLA to RGBA and back, for every colour that `hsla` constructs, is the identity exactly for colours with a hue below
  one and some saturation that are neither black nor white, and for those with hue and saturation zero
  (`Colors.HslaRoundTrip`). Hue one, which `hsla` and the conversion accept, comes back as hue zero. The other
  direction is the identity exactly for channels between zero and one (`Colors.RgbaRoundTripExactly`).

## Model

| member | source | states |
|---|---|---|
| Geometry.UnionIsLeastUpperBound | crates/gpui/src/geometry.rs:1185-1189 | the union is the smallest rectangle containing both: another rectangle contains it if and only if it contains both operands |
| Geometry.IntersectsIsCommonPoint | crates/gpui/src/geometry.rs:965-974 | two rectangles that are not empty intersect if and only if some point lies strictly inside both, so touching edges and corners do not count |
| Geometry.EmptyIntersects | crates/gpui/src/geometry.rs:965-974 | a rectangle without extent intersects exactly what has its corner strictly inside |
| Geometry.ContainerIntersects | crates/gpui/src/geometry.rs:965-974 | whatever strictly overlaps a rectangle overlaps every rectangle around it, which is why pruning a subtree by its bounds is sound |
| ZOrder.MaxIntersectingIsMax | crates/gpui/src/bounds_tree.rs:438-471 | the naive scan really is the maximum order among the overlapping rectangles, attained unless it is 0 |
| ZOrder.WellOrderedPush | crates/gpui/src/bounds_tree.rs:116-123 | adding a rectangle with one more than the scan keeps every earlier order justified |
| ZOrder.ChainAtMostOrder | crates/gpui/src/bounds_tree.rs:116-123 | no overlapping chain of insertions is longer than the order of its last rectangle |
| ZOrder.ChainOfOrder | crates/gpui/src/bounds_tree.rs:116-123 | constructs a chain whose length is the order |
| ZOrder.OrderIsLongestChain | crates/gpui/src/bounds_tree.rs:120-136 | a rectangle's order is the length of the longest chain of insertions ending at it whose consecutive rectangles overlap |
| ZOrder.LaterOverlapIsHigher | crates/gpui/src/bounds_tree.rs:116-136 | of two overlapping rectangles the later one is strictly higher, so they never share an order |
| ZOrder.OrderBounded | crates/gpui/src/bounds_tree.rs:120-123 | no order exceeds the number of insertions so far, and none is 0 |
| BoundsTrees.AllUnderRoot | crates/gpui/src/bounds_tree.rs:14-72 | under the local tree conditions every node of the vector is reachable from the root: nothing is lost |
| BoundsTrees.PathIsUnique | crates/gpui/src/bounds_tree.rs:14-72 | and it is reachable along one path only |
| BoundsTrees.SubtreeBounded | crates/gpui/src/bounds_tree.rs:163-171 | a node's rectangle contains, and its maximum bounds, everything below it |
| BoundsTrees.MaxOrderIsSubtreeMaximum | crates/gpui/src/bounds_tree.rs:163-166 | the cached maximum is exactly the largest leaf order of the subtree |
| BoundsTrees.SkipIsSafe | crates/gpui/src/bounds_tree.rs:163-171 | both prunings: a popped node with too low an order or missing the query can be dropped without losing an improving leaf |
| BoundsTrees.LeafIsCounted | crates/gpui/src/bounds_tree.rs:173-176 | raising the result to a leaf's order accounts for that leaf and loses no other |
| BoundsTrees.ExpandIsSafe | crates/gpui/src/bounds_tree.rs:177-188 | replacing a node by its children with a higher order loses no leaf that could improve the result |
| BoundsTrees.ExpandShrinks | crates/gpui/src/bounds_tree.rs:158-190 | expanding a node leaves strictly less work on the stack, so the search terminates |
| BoundsTrees.SearchIsScan | crates/gpui/src/bounds_tree.rs:144-150 | a result that is attained and that no leaf improves on is the scan's result; the fast path and the search both end with it |
| BoundsTrees.GrowRoot | crates/gpui/src/bounds_tree.rs:211-234 | putting a new root above a leaf root yields one tree again |
| BoundsTrees.AttachLeaf | crates/gpui/src/bounds_tree.rs:267-282 | adding a leaf, in any child order, to a node with room yields one tree again |
| BoundsTrees.SplitLeaf | crates/gpui/src/bounds_tree.rs:283-322 | replacing a leaf by a new node above it and the new leaf yields one tree again |
| BoundsTrees.ParentAbsorbs | crates/gpui/src/bounds_tree.rs:331-352 | a node that was right before a child was extended is right after absorbing the leaf, with the highest child last |
| BoundsTrees.RiseStep | crates/gpui/src/bounds_tree.rs:329-353 | one step of back-propagation repairs a node and moves the only possible defect to its parent, or leaves none at the root |
| BoundsTrees.BoundsTree.Clear | crates/gpui/src/bounds_tree.rs:108-114 | the tree is valid and empty again |
| BoundsTrees.BoundsTree.Insert | crates/gpui/src/bounds_tree.rs:120-136 | returns 1 + the naive scan of everything inserted since the last clear, and keeps the whole invariant, including that `max_leaf` is a global maximum |
| BoundsTrees.BoundsTree.FindMaxOrdering | crates/gpui/src/bounds_tree.rs:139-193 | the pruned search with its fast path returns exactly the naive scan |
| BoundsTrees.BoundsTree.InsertLeaf | crates/gpui/src/bounds_tree.rs:197-356 | for every rectangle and order: one valid tree again (2 to 12 distinct children, exact summaries, highest child last), old leaves untouched, exactly one leaf more |
| BoundsTrees.BoundsTree.PushRoot | crates/gpui/src/bounds_tree.rs:211-234 | the leaf-root case keeps tree and summaries |
| BoundsTrees.BoundsTree.Descend | crates/gpui/src/bounds_tree.rs:236-327 | the descent terminates at an internal node with a leaf child, and the recorded path leads from the root to it |
| BoundsTrees.BoundsTree.BestChild | crates/gpui/src/bounds_tree.rs:248-262 | picks the first child of least cost |
| BoundsTrees.BoundsTree.AddChild | crates/gpui/src/bounds_tree.rs:267-282 | keeps the tree and leaves at most the path above to be repaired |
| BoundsTrees.BoundsTree.SplitChild | crates/gpui/src/bounds_tree.rs:283-322 | keeps the tree and leaves at most the path above to be repaired |
| BoundsTrees.BoundsTree.Propagate | crates/gpui/src/bounds_tree.rs:329-353 | repairs every summary, changes no leaf and adds no node |
| BoundsTrees.Run | crates/gpui/src/bounds_tree.rs:438-471 | for every sequence of insertions and clears the returned orders are those of the naive list |
| BoundsTrees.LayoutWellOrdered | crates/gpui/src/bounds_tree.rs:438-471 | so the chain laws hold of the rectangles of every run |
| AppState.PushedKeeps | crates/gpui/src/app.rs:1760-1776 | queueing keeps every invariant: pending sets and queue agree, each notification is queued once, no request is lost, no cancelled subscriber is invoked |
| AppState.QueuedKeeps | crates/gpui/src/app/context.rs:760-774 | so does queueing an event or refresh directly; the event belongs to the arena's current epoch |
| AppState.WithinTransitive | crates/gpui/src/app.rs:1158-1177 | what code inside an update leaves alone composes over sequences of such code |
| AppSteps.SubscribedKeeps | crates/gpui/src/subscription.rs:47-87 | a subscription keeps the invariants; the new subscriber comes last under its key, its id is new and larger than all others, and no other list changes |
| AppSteps.UnsubscribedKeeps | crates/gpui/src/subscription.rs:68-84 | dropping a subscription marks it, removes that subscriber and no other, in every set, and keeps the invariants |
| AppSteps.MergedKeeps | crates/gpui/src/subscription.rs:112-146 | putting kept subscribers back in front of those subscribed meanwhile keeps subscription order |
| AppSteps.InvocationKeeps | crates/gpui/src/subscription.rs:127-136 | invoking a subscriber that is not cancelled, or a release listener, keeps that nothing runs after its own cancelling |
| AppSteps.UpdateWraps | crates/gpui/src/app.rs:1158-1177 | a nested update is seen from outside as its body alone: the depth is restored and nothing is flushed |
| AppSteps.WindowWraps | crates/gpui/src/app.rs:2878-2937 | after the callback of a window update the caller's stack is intact and the slot still exists and is empty; putting the window back makes it open and in its slot, removing it leaves neither slot nor handle, and either way no other window changes |
| AppSteps.OpeningWraps | crates/gpui/src/app.rs:1347-1381 | however opening a window ends, its slot is still there and empty; filling it makes the window open, removing it leaves no trace, and no other window changes |
| AppSteps.BuildingWraps | crates/gpui/src/app.rs:1356-1359 | the window being built is on the stack for its build callback only |
| AppSteps.PoppedKeeps | crates/gpui/src/app.rs:1785-1811 | an event that is popped belongs to the current epoch; the others in the queue still match the pending sets |
| AppSteps.AcknowledgedKeeps | crates/gpui/src/app.rs:1895-1901 | removing the popped emitter from the pending set keeps the pending set exact and loses no request |
| AppSteps.AppliedServes | crates/gpui/src/app.rs:1924-1929 | every request for the popped notification was made before it is applied, so none is lost by forgetting that it was pending |
| AppSteps.ArenaResetKeeps | crates/gpui/src/app.rs:1831-1843 | with an empty queue clearing the event arena leaves no queued event behind |
| AppSteps.FlushStoppedKeeps | crates/gpui/src/app.rs:1170-1177 | when a flush ends no notification is pending and every request so far has been served |
| AppSteps.FlushLevelWindows | crates/gpui/src/app.rs:1948-1957 | at the level of the flush loop every open window is in its slot |
| AppSemantics.Ran | crates/gpui/src/app.rs:1158-1163 | user code, whatever callbacks it triggers, ends without raising the fuel of the reactions, and adds no more work than its own size |
| AppSemantics.ReleasedAll | crates/gpui/src/app.rs:1853-1870 | releasing ends, with no dropped entity left, although release listeners may drop more |
| AppLaws.RanKeeps | crates/gpui/src/app.rs:1158-1163 | every script, with everything nested in it, keeps the invariants, starts no flush, applies no effect, clears no arena, invokes nobody but observers of closed windows, and restores depth, stack and slots |
| AppLaws.DidKeeps | crates/gpui/src/app.rs:1158-1177 | so does each operation: nested updates, new entities, window updates and openings |
| AppLaws.RanInKeeps | crates/gpui/src/app.rs:2884-2932 | whatever the callback does with a window, an unmarked one is open and in its slot afterwards with every other window as the callback left it, and a marked one is gone |
| AppLaws.UpdatedWindowKeeps | crates/gpui/src/app.rs:2878-2937 | an update of a window runs if and only if the window is in its slot; afterwards it is there again unless it has been marked, and then it is gone; a refused update changes nothing |
| AppLaws.LeftKeeps | crates/gpui/src/app.rs:2889-2932 | the slot of the window is always still there; an unmarked window is open and in its slot again and no other changes; a marked one is closed for good and the observers of closed windows are told, each due one once and in order |
| AppLaws.OpenedKeeps | crates/gpui/src/app.rs:1350-1380 | for every behaviour of the callbacks a successful opening leaves a new window open and in its slot, a failed one leaves none, and the invariants and all other windows are kept |
| AppLaws.CalledKeeps | crates/gpui/src/app.rs:1948-1962 | an invocation fails if and only if it is for a new entity whose window has been closed; otherwise it is recorded, and right behind it, for a new entity, the update of the window in which it runs |
| AppLaws.RoundKeeps | crates/gpui/src/subscription.rs:112-146 | in a round no subscriber runs twice, none that had been cancelled, is inert or wants another event, everyone due runs unless cancelled by the end, all in subscription order; who was not invoked stays, and who was stays if and only if it is not cancelled by the end of its turn and, in sets that ask, the reaction that was next at its turn says so |
| AppLaws.RetainedKeeps | crates/gpui/src/subscription.rs:112-146 | the same of `retain`, about the list that is stored afterwards: those that stay, then all that were subscribed meanwhile |
| AppLaws.InvokedAtItsTurn | crates/gpui/src/subscription.rs:127-136 | a subscriber is invoked if and only if, in the state at its own turn, it is active, not cancelled and wants the event; cancelling it later changes nothing |
| AppLaws.RetainAbortedExactly | crates/gpui/src/app.rs:1948-1962 | the round over observers of a new entity is aborted if and only if at the turn of one that is due the window has been closed |
| AppLaws.ClosedWindowAborts | crates/gpui/src/app.rs:1948-1962 | if the window is closed before the round begins, that is if and only if any observer is due at all |
| AppFlush.ReleasedKeeps | crates/gpui/src/app.rs:1860-1868 | the observers, listeners and release listeners that a released entity had are gone; its active release listeners each run once, in order, even one that an earlier one cancels |
| AppFlush.ReleasedAllKeeps | crates/gpui/src/app.rs:1853-1870 | for every dropped entity, also those dropped by release listeners, at the state in which it is released: its active release listeners run once and in order; nothing of it is left; and nothing else runs between two effects but observers of windows that they close |
| AppFlush.AppliedNextKeeps | crates/gpui/src/app.rs:1785-1811 | applying the oldest effect deals with it: a notification reaches exactly the due observers of its entity, an event, still alive, the listeners to its type at its source, a global its observers, a new entity the observers of its type; a deferred callback performs the next reaction, and a subscription becomes active; only a new entity can fail |
| AppFlush.DoomedByClosedWindow | crates/gpui/src/app.rs:1948-1957 | for a new entity whose window is closed it fails if and only if an observer is due: a condition visible before the round |
| AppFlush.FlushedChained | crates/gpui/src/app.rs:1781-1848 | the rounds of a flush follow one another from the state where it began to the state where it ended, with nothing in between but the release of dropped entities |
| AppFlush.ChainedAt | crates/gpui/src/app.rs:1781-1811 | round by round: each starts in the very state that the one before it left, after releases |
| AppFlush.FlushedKeeps | crates/gpui/src/app.rs:1781-1848 | a flush ends with the queue empty and the arena cleared once, having dealt with one effect in each round, oldest first, or is aborted for a closed window |
| Apps.FinishingKeeps | crates/gpui/src/app.rs:1170-1177 | the outermost `finish_update` ends with nothing queued, pending, checked out or left to release |
| Apps.UpdatedKeeps | crates/gpui/src/app.rs:1158-1177 | so does an outermost update, whatever code outside all updates had queued or dropped before it |
| Apps.App.PushEffect | crates/gpui/src/app.rs:1760-1776 | tied to the queueing function above: a pending notification is not queued again, any other effect is appended |
| Apps.App.Subscribe | crates/gpui/src/subscription.rs:47-87 | appended last and inert; for observers and event listeners a deferred effect activates it, as `new_observer` does |
| Apps.App.Unsubscribe | crates/gpui/src/subscription.rs:68-84 | marked as dropped, removed from the set if it is there, and an empty set is removed |
| Apps.App.Retain | crates/gpui/src/subscription.rs:112-146 | computes exactly the round whose laws are above, with the subscribers out of the table and events only dereferenced in their epoch |
| Apps.App.Turns | crates/gpui/src/subscription.rs:127-136 | the loop gives every subscriber its turn and stops only when an invocation fails |
| Apps.App.RetainOne | crates/gpui/src/subscription.rs:127-136 | invoked if and only if active, not cancelled and of the event type; otherwise nothing happens; whether it stays |
| Apps.App.CallSubscriber | crates/gpui/src/app.rs:1948-1962 | performs exactly one reaction, in the entity's window if there is one, or fails where the code panics |
| Apps.App.RunScript | crates/gpui/src/app.rs:1158-1163 | user code does exactly what its operations mean, one after another, with all that their callbacks do |
| Apps.App.RunOp | crates/gpui/src/app.rs:1158-1163 | each operation does exactly what it means |
| Apps.App.NewEntity | crates/gpui/src/app.rs:2970-2985 | a new entity is built in a nested update and announced with the innermost window being updated |
| Apps.App.Update | crates/gpui/src/app.rs:1158-1163 | outside all updates: the body and then a complete flush, for any queue that was there before; afterwards nothing is left to do, or it was aborted for a closed window |
| Apps.App.FinishUpdate | crates/gpui/src/app.rs:1170-1177 | flushes if and only if this is the outermost update and no flush is running; otherwise only counts down |
| Apps.App.FlushEffects | crates/gpui/src/app.rs:1781-1848 | the loop terminates and computes exactly the chained rounds whose laws are above |
| Apps.App.ApplyNext | crates/gpui/src/app.rs:1785-1811 | exactly the oldest effect is taken off and applied |
| Apps.App.Apply | crates/gpui/src/app.rs:1895-1965 | each kind of effect by its own function; a notification stops being pending before its observers run |
| Apps.App.ReleaseDroppedEntities | crates/gpui/src/app.rs:1853-1870 | the two loops terminate and compute exactly the releases whose laws are above |
| Apps.App.Release | crates/gpui/src/app.rs:1860-1868 | one entity's release, listener by listener |
| Apps.App.UpdateWindow | crates/gpui/src/app.rs:2878-2937 | the callback runs if and only if the window is in its slot; a window that is checked out, being opened or closed is refused without any effect |
| Apps.App.RunInWindow | crates/gpui/src/app.rs:2884-2932 | the window is on the stack while its callback runs |
| Apps.App.Trail | crates/gpui/src/app.rs:2889-2932 | removes exactly the marked window and tells the observers, or puts exactly this window back; the slot is always still there |
| Apps.App.OpenSlot | crates/gpui/src/app.rs:1350-1380 | the slot survives create, build and draw callbacks, so that storing the window cannot fail |
| Apps.App.BuildAndDraw | crates/gpui/src/app.rs:1356-1369 | build on the stack, deferred appearance change, first draw, in this order |
| AppRuns.UpdateFlushes | crates/gpui/src/app.rs:1158-1177 | the flush of an outermost update begins with everything queued before it and by its body |
| AppRuns.FlushHandlesQueue | crates/gpui/src/app.rs:1781-1848 | first in, first out and nothing left undone: each queued effect has one round, in order of queueing, the rounds are chained states of the run itself, and in its round the effect was dealt with |
| AppRuns.UpdateServesAll | crates/gpui/src/app.rs:1760-1776 | by the end of each outermost update every notification ever requested, also from inside an observer or outside all updates, has been applied after its request and before the flush ended |
| AppRuns.EveryRequestHasRound | crates/gpui/src/app.rs:1760-1776 | no notification is lost: every request, also one made inside an observer, is followed by a later round of the same flush in which exactly the observers that were due ran, unless an earlier flush had served it |
| AppFlush.AppliedInRound | crates/gpui/src/app.rs:1785-1811 | an effect in the log was applied at the beginning of a round of the flush, whose first state ends the log before it |
| AppRuns.AbortedInLastRound | crates/gpui/src/app.rs:1781-1848 | an update is aborted in its last round and no other, and that round was for a new entity |
| AppRuns.RoundFailsExactly | crates/gpui/src/app.rs:1948-1957 | a round fails if and only if it is for a new entity and, at the turn of an observer that is due, the entity's window has been closed |
| AppRuns.PendingQueuedOnce | crates/gpui/src/app.rs:1760-1776 | in every reachable state an emitter or a global is pending if and only if its notification is queued, and then exactly once |
| AppRuns.NeverAfterDrop | crates/gpui/src/subscription.rs:147-153 | in every reachable state nothing has run after its own subscription was dropped, except release listeners during their release |
| AppRuns.StackedWindowsAreOut | crates/gpui/src/app.rs:2884-2893 | no window is on the update stack twice, and a window is missing from its slot exactly while it is there or being opened |
| AppRuns.FlushesDoNotNest | crates/gpui/src/app.rs:1170-1177 | between the beginnings of two flushes the first one ends |
| AppRuns.FlushEventsInside | crates/gpui/src/app.rs:1781-1848 | effects are applied and the event arena is cleared only during a flush, which begins at depth one; the arena is cleared only with an empty queue |
| AppRuns.CommandedKeeps | crates/gpui/src/app.rs:1158-1177 | outside all updates queueing, subscribing, cancelling and dropping only wait; every update leaves nothing behind |
| AppRuns.EveryRun | crates/gpui/src/app.rs:1158-1177 | for every sequence of updates with such code between them the invariants hold, each update has flushed exactly once, and a run ends early only for a closed window |
| AppRuns.RunCommands | crates/gpui/src/app.rs:1158-1177 | this is what an application object does |
| AppRuns.ClosedCreationWindowAborts | crates/gpui/src/app.rs:1948-1957 | a run of two updates: one opens a window, the next creates an entity in it and closes it, and the expectation about new entities fails |
| AppReach.AskedIsRequested | crates/gpui/src/app.rs:1158-1163 | every part of a script runs: a notification asked for anywhere in it, also in nested updates and in the callbacks of new entities and openings, is requested by its end |
| AppReach.WindowAsks | crates/gpui/src/app.rs:2884-2888 | so is one asked for in the callback of a window update, if the window is in its slot |
| AppReach.InvokedAsks | crates/gpui/src/app.rs:1895-1962 | and one asked for in the reaction of a subscriber that is invoked, in its window or not |
| AppReach.AskedIsDelivered | crates/gpui/src/app.rs:1760-1776 | a notification asked for anywhere in the body of an update is followed by a round of the same update in which exactly the due observers of that entity ran |
| AppReach.OperationReaches | crates/gpui/src/app.rs:1781-1848 | each operation leads to the round that it should: notifications, events of the given type at the given source, refreshes, deferred callbacks, new entities, activations |
| AppReach.SubscribedIsActive | crates/gpui/src/app.rs:1239-1243 | a subscription made in an update is active by the end of that update, in every set |
| AppReach.DroppedIsReleased | crates/gpui/src/app.rs:1853-1870 | an entity dropped in an update is released before any effect is applied, with its listeners told and nothing left of it |
| AppReach.CreatedInInnermost | crates/gpui/src/app.rs:2970-2985 | a new entity is announced with its type and the innermost window being updated where it is created |
| AppReach.CancelTakesOut | crates/gpui/src/subscription.rs:68-84 | cancelling as an operation of user code takes exactly that subscriber out and marks it |
| AppReach.DirectlyAsked | crates/gpui/src/app.rs:2791-2825 | what code outside all updates asks for is queued for the next update |
| AppReach.CommandAsks | crates/gpui/src/app.rs:1158-1163 | the body of an update in a run is performed |
| AppReach.QuietWindowUpdate | crates/gpui/src/app.rs:2878-2937 | checking a window out and in again is the identity: an update whose callback does nothing changes nothing |
| AppReach.NestedRefused | crates/gpui/src/app.rs:2884-2887 | a window that is being updated or opened is refused to every nested update, without running its callback or changing anything |
| AppReach.MarkedIsClosed | crates/gpui/src/app.rs:2894-2897 | a window whose callback ends with marking it is closed |
| Tracking.StepKeeps | crates/gpui/src/app.rs:1210-1237 | every operation keeps that a window to be invalidated for an entity does show it |
| Tracking.RunKeeps | crates/gpui/src/app.rs:2791-2825 | so this holds after every run, and the live filter never discards a window |
| Tracking.RecordedExactly | crates/gpui/src/app.rs:1210-1237 | after any run, recording what a window shows makes both tables agree about it, in both directions |
| Tracking.RemovedCompletely | crates/gpui/src/app.rs:2897-2912 | after any run, removing a window leaves it in no table |
| Tracking.OthersUntouched | crates/gpui/src/app.rs:1210-1237 | other windows keep their entries |
| Tracking.NotifyForgetsNothing | crates/gpui/src/app.rs:2791-2825 | after `notify` every window is still recorded for every entity |
| Tracking.ReleaseForgetsOne | crates/gpui/src/app.rs:1860-1866 | a released entity is in no table of windows, and all others are as they were |
| Tracking.CurrentWindow | crates/gpui/src/app.rs:1210-1237 | the current window of an entity is the one that showed it last or that it was created in, and nothing else changes it but its release and the removal of that window |
| Tracking.EntityWindows.RecordEntitiesAccessed | crates/gpui/src/app.rs:1210-1237 | the two loops over old and new entities compute exactly the specified tables |
| Tracking.EntityWindows.RemoveTrackedWindow | crates/gpui/src/app.rs:2897-2912 | the loop over a removed window's entities computes exactly the specified tables |
| Tracking.EntityWindows.Notify | crates/gpui/src/app.rs:2791-2825 | the windows invalidated are exactly those recorded for the entity; the notification is queued directly if and only if there are none |
| ActionDispatch.PerformedExtends | crates/gpui/src/app.rs:2579-2624 | whatever listeners do in any nesting of dispatches, every list ends as it began followed by the new registrations in order |
| ActionDispatch.SweptExtends | crates/gpui/src/app.rs:2587-2592 | a sweep invokes a prefix of the listeners in phase order, all of them unless propagation is stopped |
| ActionDispatch.DispatchedExtends | crates/gpui/src/app.rs:2579-2624 | the invocations of one dispatch: capture in order, then bubble in reverse over those and the ones registered by then, cut short only by a stop |
| ActionDispatch.DispatchedAgrees | crates/gpui/src/app.rs:2579-2624 | a dispatch makes exactly as many invocations as follow from the behaviours and the numbers of listeners alone, however deeply dispatches are nested |
| ActionDispatch.UntilFirstStop | crates/gpui/src/app.rs:2587-2592 | that is none after the first one whose acts leave propagation stopped, and all if there is none |
| ActionDispatch.RegisteredLast | crates/gpui/src/app.rs:2364-2378 | a registered listener is the last of its action, and other actions are unchanged |
| ActionDispatch.AskedIsRegistered | crates/gpui/src/app.rs:2364-2378 | every registration that a listener asks for is made, in its order |
| ActionDispatch.PutBackGrown | crates/gpui/src/app.rs:2594-2602 | taking listeners out and putting them back in front of the new ones loses, repeats and reorders nothing |
| ActionDispatch.Listeners.OnAction | crates/gpui/src/app.rs:2364-2378 | the listener is registered last for its action |
| ActionDispatch.Listeners.Dispatch | crates/gpui/src/app.rs:2579-2624 | the dispatch loop meets the specification, makes exactly its invocations and keeps all listeners |
| ActionDispatch.Listeners.RunPhase | crates/gpui/src/app.rs:2582-2602 | one phase, with the listeners out of the table while they run |
| Arenas.AlignUpIsMultiple | crates/gpui/src/arena.rs:64 | the aligned address is a multiple of the alignment less than one alignment further on |
| Arenas.FitsEverywhere | crates/gpui/src/arena.rs:195-215 | a layout fits every fresh chunk if and only if size + align - 1 <= chunk size |
| Arenas.AllocateExactly | crates/gpui/src/arena.rs:55-74 | a chunk yields a block if and only if it fits behind the offset; the block is aligned and the offset moves right behind it |
| Arenas.PlaceBlock | crates/gpui/src/arena.rs:161-192 | placing a block keeps all blocks aligned, inside their chunks and one behind the other, and later chunks empty |
| Arenas.BlocksDisjoint | crates/gpui/src/arena.rs:161-192 | any two live blocks are disjoint, whichever chunks they are in |
| Arenas.Arena.EndScope | crates/gpui/src/arena.rs:126-131 | fails if and only if no scope is active |
| Arenas.Arena.Clear | crates/gpui/src/arena.rs:139-148 | drops everything outside all scopes and changes nothing inside one |
| Arenas.Arena.ForceClear | crates/gpui/src/arena.rs:150-158 | every live element is dropped once and in order, all boxes so far are retired, and every chunk is empty, also those past the current one |
| Arenas.Arena.Alloc | crates/gpui/src/arena.rs:161-192 | the block is the first that fits, in the current or else the next chunk; it panics if and only if it fits neither, never when size + align - 1 <= chunk size |
| Arenas.Arena.FindPlace | crates/gpui/src/arena.rs:183-215 | spills to the next chunk if and only if the current one has no room |
| Arenas.Arena.Validate | crates/gpui/src/arena.rs:232-238 | succeeds if and only if the box's element has not been dropped; its memory is then still its own |
| Arenas.Arena.RunDraw | crates/gpui/src/arena.rs:113-148 | for every tree of nested draws: every allocation in it is made, or the draw ends at one that is too large for a chunk or for which there is no memory; an inner draw drops nothing and retires no box, and after the outermost one every element ever allocated has been dropped exactly once |
| AssetCache.NextKeeps | crates/gpui/src/asset_cache.rs:25-67 | every step of users, workers, foreground tasks and evictions keeps the protocol's invariant |
| AssetCache.EveryRun | crates/gpui/src/asset_cache.rs:25-67 | so it holds after every interleaving |
| AssetCache.PublishedOnceAndNotified | crates/gpui/src/asset_cache.rs:26-49 | a load publishes at most once, its own worker's result, and notifies exactly the views that found nothing through it |
| AssetCache.NotifiesWhoWaited | crates/gpui/src/asset_cache.rs:36-66 | told from the steps alone: a load that publishes notifies a view if and only if the view used its key while it was loading |
| AssetCache.FirstUseLoads | crates/gpui/src/app.rs:2770-2781 | the first use of a key starts one load, on which that view waits |
| AssetCache.LoadCompletes | crates/gpui/src/asset_cache.rs:26-49 | a load that is not evicted completes: after its worker and its foreground task every access finds the value |
| AssetCache.EvictForgetsOne | crates/gpui/src/app.rs:2749-2752 | evicting a key forgets its entry and no other |
| AssetCache.CompletesOnlyOnce | crates/gpui/src/asset_cache.rs:36-41 | when the foreground task finds its entry, the entry is loading: the `unreachable!` is unreachable |
| AssetCache.FoundWasPublished | crates/gpui/src/asset_cache.rs:51-66 | every value handed out was published by that very load |
| AssetCache.PublishedStays | crates/gpui/src/asset_cache.rs:51-66 | a published result is what every access returns until its entry is evicted |
| AssetCache.OneLoadBetweenEvictions | crates/gpui/src/app.rs:2770-2781 | two loads of one key have an eviction of it between them |
| AssetCache.AssetSystem.Perform | crates/gpui/src/asset_cache.rs:25-67 | each step, done to the table, the shared states and the weak references of the code, is the step of the protocol, and what is logged is what the objects returned |
| AssetCache.AssetSystem.RunForeground | crates/gpui/src/asset_cache.rs:33-47 | a foreground task publishes if and only if its weak reference can still be upgraded, and then finds the state loading |
| AssetCache.RunProtocol | crates/gpui/src/asset_cache.rs:25-67 | after any sequence of steps the objects are in the protocol's state, so that its laws hold of them |
| AssetCache.CachedLoad.UseBy | crates/gpui/src/asset_cache.rs:58-66 | a view that finds nothing is remembered; a result is left alone |
| AssetCache.CachedLoad.Publish | crates/gpui/src/asset_cache.rs:36-46 | the result replaces the waiting views, each of which is notified once |
| AssetCache.AssetTable.AssetEntry | crates/gpui/src/app.rs:2770-2781 | starts a load if and only if the key has no entry, and otherwise returns the entry it has |
| ImportPaths.SplitJoin | import/pinrail_import.py:70-74 | splitting a path loses nothing |
| ImportPaths.NormalizeIsFollow | import/pinrail_import.py:77-79 | a normalized path has no parent reference if and only if the walk it stands for never leaves the tree, and then it is where that walk ends |
| ImportPaths.RelativePathIsWalk | import/pinrail_import.py:77-79 | a relative path is accepted if and only if it is not absolute or foreign, its walk stays inside and ends at a safe path, which is the result |
| ImportPaths.AcceptedIsSafe | import/pinrail_import.py:70-74 | an accepted path has no empty, `.`, `..` or `.git` component and no character that could end a line or a path |
| ImportPaths.HopIsWalk | import/pinrail_import.py:362-364 | a link leads to the entry at which the walk along its target, from the directory that the link lies in, ends |
| ImportPaths.CycleNeverResolves | import/pinrail_import.py:358-360 | a chain of links that comes back to one of its links never ends |
| ImportPaths.ChainResolves | import/pinrail_import.py:354-364 | a chain that was followed to a non-link resolves, in as many hops as were made |
| ImportPaths.Chase | import/pinrail_import.py:358-364 | following one link terminates and succeeds if and only if its chain stays inside the entries and ends |
| ImportPaths.CheckSymlinks | import/pinrail_import.py:354-364 | accepts if and only if this holds for every link |
| LockGraph.ReferenceRoundTrip | import/pinrail_import.py:256-260 | every well-formed dependency reference is read back as it was written |
| LockGraph.ReferenceParsesExactly | import/pinrail_import.py:256-260 | whatever is accepted is the written form of the reference it is read as |
| LockGraph.IsNameExactly | import/pinrail_import.py:257 | names and versions are what has no space and no parenthesis |
| LockGraph.ResolveExactly | import/pinrail_import.py:256-265 | a reference resolves to a package if and only if it abbreviates that package's name, version and source, and those of no other locked one |
| LockGraph.FullReferenceResolves | import/pinrail_import.py:256-265 | so a package is found by its full reference, unless it is locked twice with different checksums |
| LockGraph.ClosedContainsReachable | import/pinrail_import.py:315-324 | any set with the seeds in it that is closed under resolved dependencies contains everything reachable |
| LockGraph.SeedsExactly | import/pinrail_import.py:303-314 | the seeds exist if and only if each selected package is locked exactly once without a source, and are those |
| LockGraph.Names | import/pinrail_import.py:303-314 | the local names are exactly those of the selected packages |
| LockGraph.Walk | import/pinrail_import.py:315-324 | the worklist terminates; it succeeds if and only if every reachable package is external or selected and resolves, and then has reached exactly the reachable ones |
| LockGraph.Project | import/pinrail_import.py:291-324 | the projection exists under exactly these conditions and is the least closed set |
| LockGraph.CheckPackageExactly | import/pinrail_import.py:280-287 | the check of one projected package succeeds if and only if it is a locked one with dependencies left out |
| LockGraph.ValidatedExactly | import/pinrail_import.py:269-288 | a projected lock is accepted if and only if it keeps every in-tree package, adds no package and only leaves edges out |
| LockGraph.AcceptedIsWithinProjection | import/pinrail_import.py:275-279 | an accepted lock lies between the in-tree packages and what the selection needs |
| LockGraph.LiftEdge | import/pinrail_import.py:284-287 | every edge of an accepted lock is an edge of the original, between the same packages |
| LockGraph.ProjectedPathWasPath | import/pinrail_import.py:269-288 | whatever can be reached in an accepted lock could be reached in the original |
| TextOffsets.ConvertBack | crates/gpui/examples/input.rs:213-241 | converting an offset there and back is the least character boundary at or after it, or the end |
| TextOffsets.ConvertInverse | crates/gpui/examples/input.rs:213-241 | on boundaries the two conversions are inverse to each other |
| TextOffsets.ConvertMonotone | crates/gpui/examples/input.rs:213-241 | both conversions are monotone |
| TextOffsets.ConvertBoundary | crates/gpui/examples/input.rs:213-241 | any offset converts to a boundary within the text |
| TextOffsets.WidthIsUtf8 | crates/gpui/examples/input.rs:213-241 | the UTF-8 width of a character is the number of bytes that section 3 of RFC 3629 writes it in and a reader takes to read it back |
| TextOffsets.WidthIsUtf16 | crates/gpui/examples/input.rs:213-241 | its UTF-16 width is the number of units of section 2.1 of RFC 2781 |
| TextOffsets.OffsetFromUtf16 | crates/gpui/examples/input.rs:213-226 | the loop computes the conversion from UTF-16 |
| TextOffsets.OffsetToUtf16 | crates/gpui/examples/input.rs:228-241 | the loop computes the conversion to UTF-16 |
| TextInputs.SpliceBoundaries | crates/gpui/examples/input.rs:329-333 | in a spliced text the new part lies on character boundaries and only its length has changed |
| TextInputs.SpliceContents | crates/gpui/examples/input.rs:329-333 | read back, a spliced text is what was before the range, the new text, and what was behind the range |
| TextInputs.PreviousIsNearest | crates/gpui/examples/input.rs:251-257 | the previous boundary is the nearest grapheme start before the offset |
| TextInputs.NextIsNearest | crates/gpui/examples/input.rs:259-264 | the next boundary is the nearest grapheme start after the offset |
| TextInputs.TextInput.MoveTo | crates/gpui/examples/input.rs:169-172 | the selection collapses at the offset |
| TextInputs.TextInput.SelectTo | crates/gpui/examples/input.rs:200-211 | the anchor stays and the cursor goes to the target, on whichever side it is |
| TextInputs.TextInput.SelectAll | crates/gpui/examples/input.rs:76-79 | the whole text is selected |
| TextInputs.TextInput.ReplaceTextInRange | crates/gpui/examples/input.rs:316-335 | for any range at all exactly a splice, cursor behind the new text, nothing marked |
| TextInputs.TextInput.ReplaceAndMark | crates/gpui/examples/input.rs:337-366 | exactly a splice, with the new text marked unless it is empty |
| TextInputs.TextInput.Backspace | crates/gpui/examples/input.rs:89-99 | removes exactly the marked range, else the selection, else the grapheme before the cursor, else rings |
| TextInputs.TextInput.Delete | crates/gpui/examples/input.rs:101-111 | the same to the right |
| ImageCaches.RecentIsByLastUse | crates/gpui/examples/image_gallery.rs:209-217 | the recency list holds every key used so far once, later last uses first |
| ImageCaches.TakeAfterUse | crates/gpui/examples/image_gallery.rs:209-234 | moving a key to the front, or inserting it and dropping the last, turns the n most recent keys into the n most recent keys after one more use |
| ImageCaches.TakeIsFirst | crates/gpui/examples/image_gallery.rs:176-195 | a cache of n items holds the first n of the recency list |
| ImageCaches.SimpleLruCache.Load | crates/gpui/examples/image_gallery.rs:197-234 | the usage list is the most recently used keys and the cache holds exactly those; hit, insertion and eviction of the oldest; both assertions hold and it fails if and only if the cache has no room at all |
| Colors.ChromaOfSaturation | crates/gpui/src/color.rs:687-694 | the saturation of any colour is in range and gives back its chroma |
| Colors.SaturationOfChroma | crates/gpui/src/color.rs:200-202 | and the chroma of a proper colour gives back its saturation, with both extremes in range |
| Colors.Sector | crates/gpui/src/color.rs:696-704 | every colour with chroma lies in one of six sectors, with the hue angle its position in it, shared edges included |
| Colors.AngleOfLayout | crates/gpui/src/color.rs:696-704 | channels laid out for a sector and position have that hue angle |
| Colors.LayOut | crates/gpui/src/color.rs:200-214 | hue, saturation and lightness lay the channels out between the two extremes, for hues up to and including one |
| Colors.HueTellsOrder | crates/gpui/src/color.rs:696-704 | the hue tells which channel is brightest and which side it leans to: red around zero, green around a third, blue around two thirds |
| Colors.PureColours | crates/gpui/src/color.rs:677-713 | the exact values for the six pure colours, black and white |
| Colors.LightnessAndSaturation | crates/gpui/src/color.rs:683-694 | the lightness lies halfway between the extreme channels, and the saturation is their distance as a share of what the lightness allows |
| Colors.RgbaRoundTrip | crates/gpui/src/color.rs:194-222 | RGBA to HSLA and back is the identity, all components are in range, and the clamps change nothing |
| Colors.RgbaRoundTripExactly | crates/gpui/src/color.rs:194-222 | and only for channels between zero and one, since any others are clamped |
| Colors.HueOneIsHueZero | crates/gpui/src/color.rs:206-214 | hue one, the seventh arm of the match, is the red of hue zero |
| Colors.HslaComesBack | crates/gpui/src/color.rs:677-713 | for every colour that `hsla` constructs: what it comes back as, without chroma a gray with hue and saturation zero, and hue one as hue zero |
| Colors.HslaRoundTrip | crates/gpui/src/color.rs:677-713 | so it survives if and only if its hue is below one and it has saturation and is neither black nor white, or hue and saturation are zero |

## Left out

- Callbacks that never return or never stop causing effects: scripts and reactions are finite, so every modelled flush ends.
- `App::shutdown`, which flushes without marking that a flush is running.
- The parts of a flush that draw windows in test builds, schedule frames and release focus handles; window flags such as `dirty` and `refreshing` are not modelled, so a refresh effect only passes through the queue.
- `WindowInvalidator::invalidate_view` ends in the modelled request for a notification; its draw phases and frame wakers are not part of this model.
- Creating an entity, opening or updating a window outside all updates is modelled as an outermost update with that operation as its body.
- Which code holds a window: any code may mark a window as removed while it is out of its slot, also while it is still being created; in the program only code with the window at hand can.
- Quitting when the last window is closed, platform windows, and errors inside callbacks (a Rust panic other than the modelled one).
- Apps.App.CallSubscriber: a release listener or event listener performs the next reaction whatever value it is given; the values of entities and events are not modelled.
- `EntityCreated` in the `App` class does not set the entity's current window; that table is part of `Tracking` only.
- Subscriber ids are drawn from one counter instead of one for each set.
- `on_action` registers a wrapper that calls the user's listener in the bubble phase only; the model invokes every listener in both phases and lets its behaviour depend on the invocation.
- ActionDispatch.Listeners.Dispatch: behaviours are listed by invocation and not by listener; a nested dispatch leaves its propagation flag to the outer one, as in the code.
- Arenas.Arena.Alloc: where the system allocator places a chunk is a parameter, restricted to free memory; exhaustion of memory, and the values stored in the blocks, are not modelled.
- `ArenaBox::map`, and dropping the arena itself.
- AssetCache.AssetTable.AssetEntry: hash collisions of sources and a `load` that asks for its own key again are outside the model.
- Dropping an evicted entry also cancels its tasks; the model allows them to go on, which includes the cancelled runs.
- LockGraph.Project: reading TOML, the lock format version, workspace versions and the patch tables are left out; packages are given as records.
- LockGraph.ReferenceRoundTrip: a regular expression is modelled by the parser it describes; the two lemmas show that it accepts exactly the written forms.
- ImportPaths.CheckSymlinks: file modes and link targets are given; a link target that is not UTF-8 is outside the model.
- `resolve_closure`, the manifests' path dependencies, and everything in the importer that talks to Git or the network.
- TextInputs.TextInput.ReplaceAndMark: the explicit new selection is left out; that path offsets the end by the end of the old range and measures against the whole text, so an in-bounds selection does not follow from the code.
- Grapheme segmentation is a parameter that yields ascending character boundaries; layout, mouse positions and the clipboard are left out.
- TextInputs.TextInput.MoveTo: offsets are taken to be character boundaries, as every caller in the example provides.
- ImageCaches.SimpleLruCache.Load: keys are the hashes; what loading yields is a parameter, and dropping images is left out.
- Colours and rectangles are over exact reals: rounding of floating point numbers and the 32-bit width of orders (at most the number of insertions) are not modelled.
- Parsing of hexadecimal colours, blending and the other colour helpers.
- `SystemWindowTabController`, `Scope` and the executors, `VecMap`, elements, and the pass-throughs to the platform.
