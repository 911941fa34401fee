# A verified model of the browser's core state machines

The repository is a headless browser. This project models its hand-written state, arithmetic and concurrency in
Dafny and proves what the code is meant to guarantee. `dafny verify dfyconfig.toml` checks everything.

- `Events`, `ListenerLists`, `EventManagerBase`: event listeners. `Events` gives registering and dispatching as functions
  on values, the way the program does it and the way section 2.9 of the DOM Standard does; `EventManagerBase` is the
  program's linked lists, flags, depth counter and deferred queue, proved to compute the first for every finite tree of
  re-entrant callbacks.
- `EventPath`, `StandardPath`: the program's path through shadow trees, retargeting and the three phases; the standard's
  path and order of visits, and exactly when they are the same.
- `Propagation`: what a dispatch calls, spelled out from the listeners on the path, for callbacks that at most stop the event.
- `LeftFlags`, `TargetPhase`, `DifferentRuns`: what direct dispatches leave behind; when one pass over the listeners of the
  target does what the standard's two passes do; whole runs of the program against runs of the standard, and runs on
  which they differ.
- `CustomElementReactions`, `ElementQueues`, `OrderlyScopes`, `ElementQueueRuns`: the flat array with checkpoints against an
  explicit stack of queues, and against the HTML Standard's queue for each element.
- `Server`, `ServerRuns`, `Sighandler`: connection admission, registry and shutdown as interleaved steps, and why things
  happen in a run of them; signal listeners.
- `Calendar`, `DateTimes`, `Rfc3339`: two unrelated calendar algorithms against counting days, and the text form.
- `Alignment`, `PrototypeLayout`, `Slabs`: object layout from both ends, and the slab allocator under it. `Arith` holds
  facts about division that several modules use.
- `WebSocketFrames`: the compacting receive buffer and the frames of RFC 6455.
- `SemanticTree`, `Notification`, `ArenaPool`: the tree walk with a shared path buffer, the double index of
  notifications, the bucketed free lists with their ledger. `Collections` holds small things that several modules use.

Callbacks, split points of a stream, thread schedules, spawn failures and the answers of roles and visibility are
parameters or free choices, so the theorems hold for all of them.

Where the code does not do what its comments, the standard it cites or a caller would expect, the model follows the code
and the exact condition is proved:

- An aborted signal's listeners stay in their list until a dispatch meets them. A registration that such a listener
  makes a duplicate of is refused (`Events.RegisterAgrees`, `DifferentRuns.LostRegistration`).
- The listeners of the target, and those of a target outside the tree, are called in one pass over one clone; the standard
  makes two passes and looks at the stop propagation flag before each (`TargetPhase.TargetAgreesExactly`,
  `DifferentRuns.OrderDiffers`, `DifferentRuns.NewcomerMissed`, `DifferentRuns.HaltIgnored`, `DifferentRuns.StoppedBefore`).
- A direct dispatch ends without clearing the event's flags, and an event that is dispatched directly can be dispatched
  again meanwhile; the standard clears the flags and refuses the event (`LeftFlags.ClosesAlikeExactly`,
  `LeftFlags.LeftAlone`, `DifferentRuns.FlagsLeft`, `DifferentRuns.DispatchedTwice`).
- The path of an event is cut at 128 nodes, knows no slots, and ends with the window also for a tree that is in no document
  and for an event that stops at a shadow root, although a comment at src/browser/EventManager.zig:230-232 says otherwise
  for the latter (`StandardPath.SamePath`, `EventPath.WindowOnPath`, `StandardPath.DetachedWindow`,
  `StandardPath.PastShadow`, `StandardPath.SlotSkipped`).
- The host of a shadow root on the path is not treated as a target, so an event that does not bubble passes by its bubbling
  listeners (`StandardPath.SameOrder`, `StandardPath.HostSkipped`).
- For a whole run it is enough that none of this happens on the way (`TargetPhase.MeetsStandard`). It is not needed, since
  two differences can cancel out in the log (`DifferentRuns.DifferencesCancel`).
- On the window, the reported target is not retargeted (`EventPath.WindowSeesOriginal`).
- The date of an instant before 1970 in the last second of its day, past its start, is the next day's
  (`DateTimes.RoundTrip`, `DateTimes.AddDaysMovesDate`, `Rfc3339.FormatParse`).
- The stack of element queues of the HTML Standard is collapsed to one flat list
  (src/browser/CustomElementReactions.zig:24-29). In the standard every element has a queue of its own, so the orders
  differ whenever a closing scope holds reactions of one element on both sides of another's, as when a node with a child
  comes from another document (src/browser/Frame.zig:1972-1984, within the single scope of
  src/browser/webapi/Node.zig:1164), or holds one of an element that has an older one pending outside (`OrderlyScopes.AgreesExactly`,
  `ElementQueueRuns.Interleaved`, `ElementQueueRuns.OlderOutside`).
- A scope's queue is drained while the scope is still open; the standard takes the queue off the stack first. What a
  callback enqueues outside scopes of its own comes last in that queue; in the standard it waits for the scope around,
  unless its element is still to be finished. The order is the same if that is always so (`ElementQueues.FollowsAgrees`,
  `ElementQueueRuns.OwnElement`) and may differ otherwise (`ElementQueueRuns.UntidyDiffers`, `ElementQueueRuns.FiresLater`).
- An alarm does not count as a termination signal, so a listener registered after it waits for the next signal
  (`Sighandler.RanExactlyWhen`). The program arms its own deadline only after the last listener is registered
  (src/main.zig:147-149), so that takes an alarm sent from outside.
- A signal's shutdown that waits for the lock while the server is torn down takes it after the server is freed
  (`Server.SectionsAfterFree`, `Server.SweepsFreed`).
- A second release of an arena is noticed exactly when nothing is out under its name (`ArenaPool.Pool.Release`,
  `ArenaPool.SecondReleaseUnnoticed`).

A shutdown sweeps the registry once. What makes that enough is the order of things in main: the stop flag is set before a
signal's shutdown begins (`Sighandler.EarlierFirst`), and the server is torn down only after the network's loop, which ends
when the flag is set, src/main.zig:110-114 and src/network/Network.zig:800-818 (`Server.NoUnwarnedSweep`,
`Server.NoneLeftTicking`).

## Model

| member | source | states |
|---|---|---|
| EventManagerBase.Manager.Walk | src/browser/EventManagerBase.zig:285-330 | the sentinel loop over the live linked list ends in the state, log included, that one walk over a clone of the list reaches from the same state, whatever tree of operations the callbacks perform; meanwhile lists only grow and no node is unlinked |
| EventManagerBase.Manager.Visit | src/browser/EventManager.zig:348-402 | one entry of the loop is passed over, dropped because its signal is aborted, or called, exactly as in that walk |
| EventManagerBase.Manager.CallListener | src/browser/EventManager.zig:376-391 | a once listener is out of the list before its callback runs, and the callback's whole tree of operations has its specified effect |
| EventManagerBase.Manager.Dispatch | src/browser/EventManagerBase.zig:264-283 | a dispatch from any state, nested or not, is one walk over a clone; the depth is restored |
| EventManagerBase.Manager.DispatchNode | src/browser/EventManager.zig:139-300 | an event at a node visits the targets on its path in order, each without effect once a callback has stopped the propagation; an event that is under way is refused, and the flags are clear on every way out; which listeners the visits call is Propagation.QuietDispatch |
| EventManagerBase.Manager.Capture | src/browser/EventManager.zig:242-253 | the loop from the end of the path makes exactly the capturing visits, stopping when the propagation is stopped |
| EventManagerBase.Manager.Reached | src/browser/EventManager.zig:255-286 | the target's inline handler comes first, and its listeners only if that does not stop the propagation |
| EventManagerBase.Manager.Bubble | src/browser/EventManager.zig:288-299 | the loop from the target makes exactly the bubbling visits, stopping when the propagation is stopped |
| EventManagerBase.Manager.DispatchDirect | src/browser/EventManagerBase.zig:227-330 | a dispatch outside the tree calls the listeners of both kinds in one walk, whatever the event's flags, and leaves the flags as they are |
| EventManagerBase.Manager.Flush | src/browser/EventManagerBase.zig:276-282 | leaving the outermost dispatch unlinks and destroys exactly the flagged listeners, each while it is still alive and so only once, and changes nothing a caller can see |
| EventManagerBase.Manager.DestroyNext | src/browser/EventManagerBase.zig:277-280 | each queue entry is still linked in the list recorded with it when its turn comes |
| EventManagerBase.Manager.RemoveListener | src/browser/EventManagerBase.zig:176-191 | removal takes exactly one listener out of view, whether it is flagged, unlinked or gone already, and keeps the queue equal to the flagged listeners without duplicates |
| EventManagerBase.Manager.Register | src/browser/EventManagerBase.zig:98-164 | no registration when the signal is aborted or an equal listener is in view; otherwise the new listener is last in its list; null is returned exactly in the first case, and else the listener with that record |
| EventManagerBase.Manager.FindListener | src/browser/EventManagerBase.zig:370-392 | finds the first listener in view with that callback and capture flag, passing over flagged ones |
| EventManagerBase.Manager.Remove | src/browser/EventManagerBase.zig:166-174 | removes that listener or does nothing |
| Events.RegisterAdds | src/browser/EventManagerBase.zig:121-164 | a listener is added exactly when its signal is not aborted and none in the list has both its callback and its capture flag, so one callback can be registered for either kind; it comes last, and other lists stay |
| Events.RemoveTakes | src/browser/EventManagerBase.zig:166-174 | exactly the listener with that callback and that capture flag goes |
| EventManagerBase.Manager.RunScript | src/browser/EventManagerBase.zig:394-420 | any finite tree of re-entrant operations is run as specified, keeping the invariant, the depth, and, during a dispatch, every node of every list |
| EventManagerBase.WholeRun | src/browser/EventManagerBase.zig:264-330 | after any run from scratch no listener is flagged, none in a list is destroyed, the deferred queue is empty, and the result is the reference run |
| ListenerLists.ListenerList.Remove | src/browser/EventManagerBase.zig:188-188 | unlinking takes exactly that node out and keeps the list linked both ways |
| ListenerLists.AliveFlag | src/browser/EventManagerBase.zig:183-185 | setting the removed flag takes exactly one record out of what callers see of a list |
| ListenerLists.AliveCut | src/browser/EventManagerBase.zig:277-280 | unlinking a flagged node changes nothing callers see |
| EventManagerBase.InvokeStep | src/browser/EventManagerBase.zig:292-329 | one step of the reference over a clone that lacks the listeners flagged at entry |
| Events.RunKeeps | src/browser/EventManagerBase.zig:98-191 | in each of the three modes every run keeps lists free of two listeners with the same callback and capture flag, and takes nothing aborted or logged back |
| Events.InvokeKeeps | src/browser/EventManagerBase.zig:285-330 | so does every dispatch |
| Events.OnceRunsOnce | src/browser/EventManagerBase.zig:314-317 | a once listener runs at most once per registration in any run |
| Events.AbortLater | src/browser/EventManagerBase.zig:306-312 | a run in which no registration is refused because of an aborted listener runs the same listeners in the same order as if each were removed the moment its signal is aborted |
| Events.AbortLaterInvoke | src/browser/EventManager.zig:360-366 | the same for one walk, whose clone then lacks the listeners aborted before |
| Events.RegisterAgrees | src/browser/EventManagerBase.zig:122-139 | a registration agrees with the standard exactly when it is not refused because of a listener that is aborted but not noticed yet |
| LeftFlags.LeftAlone | src/browser/EventManagerBase.zig:227-330 | direct dispatches clear no flag and refuse no event that is dispatched directly already; a run that dispatches no event again which one has left halted, or is still dispatching, is the same but for those flags as with both |
| LeftFlags.ClosesAlikeExactly | src/browser/EventManagerBase.zig:245-283 | a single direct dispatch ends as in the standard exactly when its listeners leave the event's stop flags unset |
| LeftFlags.LeftCallsNothing | src/browser/EventManager.zig:244-249 | a flag that is left makes the next dispatch of the event to a node call nothing |
| LeftFlags.RunSame | src/browser/EventManagerBase.zig:227-330 | from any two states that differ in such flags only |
| TargetPhase.MeetsStandard | src/browser/EventManager.zig:242-300 | a run from scratch calls the listeners that section 2.9 of the DOM Standard calls, in the same order, when no registration is refused because of an aborted listener, no event is dispatched again that a direct dispatch has left halted or is still dispatching, every event at a node goes the standard's way and meets no inline handler, and at every target one pass does what two do; nested dispatches included |
| TargetPhase.AgreesExactly | src/browser/EventManager.zig:281-286 | the program calls the target's listeners in one pass, the standard in a capturing and a bubbling one, each over its own clone and skipped when the event's propagation is stopped. They call the same listeners in the same order exactly when, at the first listener met that is not a capturing one, no capturing one is behind it, the propagation is not stopped, and nothing the capturing ones registered is left in the end; then they agree in every respect |
| TargetPhase.TargetAgreesExactly | src/browser/EventManagerBase.zig:285-330 | the same for a whole target; when the propagation is stopped before, they agree exactly when the list is empty |
| TargetPhase.NoCapturingAgrees | src/browser/EventManagerBase.zig:285-330 | they agree, whatever the callbacks do, when the list has no capturing listener and the propagation is not stopped |
| TargetPhase.PlainRun | src/browser/EventManager.zig:242-300 | a run in which every event at a node goes the standard's way and one pass does what two do at every target is the same run either way |
| TargetPhase.SecondPass | src/browser/EventManager.zig:281-286 | the rest of the one walk and the bubbling pass do the same until the first clone is done; then they differ exactly when the second clone has a newer listener left |
| TargetPhase.RunIsFine | src/browser/EventManagerBase.zig:98-191 | runs of the standard keep lists in order of registration and free of aborted listeners, and no listener that is gone comes back |
| DifferentRuns.OrderDiffers | src/browser/EventManager.zig:281-286 | a bubbling listener registered before a capturing one runs first, and second in the standard |
| DifferentRuns.NewcomerMissed | src/browser/EventManager.zig:336-338 | a bubbling listener that a capturing one registers at the target does not run; in the standard it does |
| DifferentRuns.HaltIgnored | src/browser/EventManager.zig:395-400 | after a capturing listener at the target stops the propagation the bubbling ones there still run; in the standard they do not |
| DifferentRuns.StoppedBefore | src/browser/EventManagerBase.zig:285-330 | an event stopped before a direct dispatch still reaches the first listener; in the standard it reaches none |
| DifferentRuns.DifferencesCancel | src/browser/EventManager.zig:281-286 | a run whose log is the standard's though one pass does not do what two do at one of its targets |
| DifferentRuns.LostRegistration | src/browser/EventManagerBase.zig:131-138 | a registration refused because of an aborted listener, whose callback never runs; in the standard it does |
| DifferentRuns.FlagsLeft | src/browser/EventManagerBase.zig:227-330 | an event halted by a listener outside the tree and then sent to a node calls nothing there; in the standard it does |
| DifferentRuns.DispatchedTwice | src/browser/webapi/EventTarget.zig:60-63 | a listener outside the tree that dispatches its own event there again is called twice; in the standard once, because the second dispatch is refused |
| Propagation.QuietDispatch | src/browser/EventManager.zig:242-300 | for every path, and callbacks that do nothing, the log of a dispatch in order: the capturing listeners of what is above the target from the end of the path down, the target's inline handler, all listeners of the target as registered, and, if the event bubbles, the others of what is above the target going up; listeners are told apart by their capture flag, those whose signal is aborted are left out |
| Propagation.DispatchCalls | src/browser/EventManager.zig:242-300 | the same when callbacks stop their event: a target's listeners run up to one that stops it at once, further targets only if none of those called has stopped it; afterwards the event's flags and everything else are as before, and every listener that is not once-only and not aborted is still in its list |
| Propagation.WalkCalls | src/browser/EventManager.zig:336-403 | one walk calls the listeners of the clone with the wanted capture flag, in order, up to one that stops the event at once, and takes out only once-only and aborted ones |
| Propagation.DirectCalls | src/browser/EventManagerBase.zig:285-330 | outside the tree the listeners of both kinds are called in the order of their registration, up to one that stops the event at once |
| Propagation.BusyCallsNothing | src/browser/webapi/EventTarget.zig:60-63 | an event that is being dispatched along a path calls nothing when it is dispatched once more meanwhile |
| Propagation.ParentHears | src/browser/EventManager.zig:242-299 | a run from scratch: one callback registered at the parent for either kind, an event at the child; the capturing one runs, and after it the other exactly if the event bubbles |
| EventPath.IsAncestorOrSelf | src/browser/EventManager.zig:457-473 | decides inclusive ancestry within one tree |
| EventPath.GetAdjustedTarget | src/browser/EventManager.zig:425-455 | returns the lowest node of the shadow-including chain that has the current target as an inclusive ancestor, and the original target when either is not a node |
| EventPath.AdjustedIsRetargeted | src/browser/EventManager.zig:422-455 | for every current target on the chain that node exists, is the result of retargeting in section 4.8 of the DOM Standard, and is in the current target's tree |
| EventPath.BuildPath | src/browser/EventManager.zig:204-240 | the path is the chain cut after the first shadow root unless composed, at most 128 long, with the window last unless the event is a load or the path is full; retargeting is switched on exactly when a shadow root is on it |
| EventPath.WindowOnPath | src/browser/EventManager.zig:230-238 | the window is on the path exactly when the event is no load and fewer than 128 nodes are on the way, whether or not the event stops at a shadow root; the path is at most 128 long |
| EventPath.WindowPastShadow | src/browser/EventManager.zig:230-238 | the path of an event that is not composed at a child of a shadow root ends with the window |
| StandardPath.SamePath | src/browser/EventManager.zig:204-240 | the program's path is that of section 2.9 of the DOM Standard exactly when no node on the way is in a slot, the way has at most 128 nodes, and, unless the event is a load, it ends at a document with a window exactly when it has room for one |
| StandardPath.SameOrder | src/browser/EventManager.zig:242-300 | the program visits the targets that the standard visits, in the same order, exactly when the paths agree and the event bubbles or passes no host of a shadow root; the standard counts such a host as a target too |
| StandardPath.HostsOnPath | src/browser/EventManager.zig:216-227 | the standard has a further target on the path exactly when the path leaves a shadow tree |
| StandardPath.DetachedWindow | src/browser/EventManager.zig:230-238 | the path of a node that is in no document ends with the window; in the standard it does not |
| StandardPath.PastShadow | src/browser/EventManager.zig:230-238 | so does that of an event that stops at a shadow root |
| StandardPath.SlotSkipped | src/browser/EventManager.zig:226-227 | a child of a host that is in a slot: the standard's path goes through the slot and its shadow root, the program's straight to the host |
| StandardPath.HostSkipped | src/browser/EventManager.zig:288-299 | an event that does not bubble, at a child of a shadow root: the standard visits the host for its bubbling listeners, the program does not |
| EventPath.ShownIsRetargeted | src/browser/EventManager.zig:385-389 | leaving retargeting off when no shadow root is on the path is sound: every node of the path is shown the target the standard prescribes |
| EventPath.WindowSeesOriginal | src/browser/EventManager.zig:432-435 | the window is shown the original target; the standard agrees exactly when that target is not in a shadow tree |
| CustomElementReactions.Reactions.PopAndInvoke | src/browser/CustomElementReactions.zig:70-80 | draining the array from a checkpoint does what draining the innermost queue of an explicit stack does; everything below the checkpoint and the number of open scopes are as before the push |
| CustomElementReactions.Reactions.Push | src/browser/CustomElementReactions.zig:62-65 | opens an empty queue on the stack |
| CustomElementReactions.Reactions.RouteTo | src/browser/CustomElementReactions.zig:94-107 | a reaction joins the innermost open queue, or the backup queue with one drain scheduled |
| CustomElementReactions.Reactions.DrainAll | src/browser/CustomElementReactions.zig:85-92 | fires the backup queue, including what joins it meanwhile, and leaves no drain scheduled |
| CustomElementReactions.Reactions.RunScript | src/browser/CustomElementReactions.zig:59-107 | any finite tree of callbacks with nested scopes behaves as on the stack of queues |
| CustomElementReactions.WholeRun | src/browser/CustomElementReactions.zig:59-107 | at the end of any run everything enqueued has fired exactly once and nothing is left |
| CustomElementReactions.ScopeFiresAll | src/browser/CustomElementReactions.zig:67-80 | closing a scope fires what was enqueued in it, by the callbacks too, each exactly once, and touches no other queue |
| CustomElementReactions.BackupFiresAll | src/browser/CustomElementReactions.zig:82-92 | what is enqueued outside scopes fires exactly once in the drain |
| CustomElementReactions.RunAccounts | src/browser/CustomElementReactions.zig:67-80 | fired plus pending reactions only grow by what the callback tree contains |
| CustomElementReactions.DrainFires | src/browser/CustomElementReactions.zig:70-80 | the order in which a closing scope fires, in closed form, whatever its callbacks enqueue |
| CustomElementReactions.FiresInOrder | src/browser/CustomElementReactions.zig:59-107 | the order in which everything fires, and what is left, for every tree of callbacks |
| CustomElementReactions.RunAppends | src/browser/CustomElementReactions.zig:24-29 | a callback leaves its own reactions in the open queue in order; nested scopes leave nothing |
| OrderlyScopes.AgreesExactly | src/browser/CustomElementReactions.zig:19-35 | in section 4.13.6 of the HTML Standard every element has a reaction queue and a scope a queue of elements. For callbacks that enqueue only inside scopes of their own, and reactions that are all different, the flat array fires in the standard's order exactly when every scope that closes holds the reactions of each element in one piece and none of an element that has some pending elsewhere |
| ElementQueues.FollowsAgrees | src/browser/CustomElementReactions.zig:67-80 | for all callbacks, those that enqueue outside scopes of their own too: the flat array fires in the standard's order if in every scope that closes the element next in the standard's queue is that of the next reaction and has none pending elsewhere, or has none at all, and no element has any left at the end |
| ElementQueues.FollowsRun | src/browser/CustomElementReactions.zig:67-80 | in such a run the standard fires the same in the same scopes, and leaves the same reactions pending and the elements joined to the scopes around |
| OrderlyScopes.OrderlyRun | src/browser/CustomElementReactions.zig:67-80 | in such a run the standard fires what the flat array fires, in the same order, and leaves the same reactions pending |
| OrderlyScopes.DisorderRun | src/browser/CustomElementReactions.zig:67-80 | in any other run the orders differ at some reaction that both have come to |
| ElementQueues.RestTakesHead | src/browser/CustomElementReactions.zig:24-29 | taking a reaction off shortens its element's queue by its head and no other's |
| ElementQueueRuns.Interleaved | src/browser/CustomElementReactions.zig:70-80 | two reactions of an element with one of another between them, in one scope: they fire in that order, and in the standard the two fire first |
| ElementQueueRuns.OlderOutside | src/browser/CustomElementReactions.zig:70-80 | a reaction of an element that has an older one in the scope around: the orders differ |
| ElementQueueRuns.UntidyDiffers | src/browser/CustomElementReactions.zig:70-80 | a callback that enqueues outside scopes of its own, on which the orders differ too |
| ElementQueueRuns.OwnElement | src/browser/CustomElementReactions.zig:70-80 | a callback that enqueues for its own element, the only one of the scope: the orders agree |
| ElementQueueRuns.FiresLater | src/browser/CustomElementReactions.zig:70-80 | a callback on which the reaction fires in another scope and the orders agree all the same |
| Server.RunKeeps | src/Server.zig:137-265 | every interleaving of acceptor, handlers and shutdowns keeps the invariant: lock, counter, sockets, registry, shutdown progress, freeing |
| Server.NeverTooMany | src/Server.zig:153-161 | the counter equals unfinished handlers plus spawns in flight and never exceeds the limit, spurious failures and failed spawns included |
| Server.EachSocketClosedOnce | src/Server.zig:96-108 | an accepted socket is never closed twice, and is closed when its handler or the acceptor is done with it |
| Server.SweepSeesUsable | src/Server.zig:72-80 | each connection a shutdown looks at is initialised and not torn down, and the registry does not change while it looks |
| Server.NoneLeftTicking | src/Server.zig:251-256 | after a shutdown has swept, every handler in its tick loop has been terminated, in every later state; that handlers do get there is ServerRuns.NewcomerServed and ServerRuns.ServedUnlessWarned |
| Server.NoUnwarnedSweep | src/main.zig:110-114 | no sweep begins before the network's stop flag is set, unless the server is torn down with nothing accepted and nothing to come: main runs the network until that flag is set, then tears the server down |
| Server.FreedAfterLast | src/Server.zig:83-94 | the pool is freed only when no handler is left, and none comes after |
| Server.SectionsAfterFree | src/Server.zig:83-94 | after the pool is freed a critical section begins exactly when the lock is free and another shutdown, that of a second signal, is waiting for it |
| Server.SweepsFreed | src/main.zig:110-114 | a concrete run: a signal's shutdown has set the flag, the server is torn down and freed, and then that shutdown takes the lock of the freed server |
| Server.Untracked | src/Server.zig:200-210 | untracking removes exactly that connection and duplicates none |
| Server.HandleMoves | src/Server.zig:167-265 | what each step of a handler changes: lock, registry, socket, counter, live state; why it leaves the way to the tick loop is ServerRuns.TornDownForReason |
| Server.AdmitMoves | src/Server.zig:137-165 | what each step of admission changes, the compare-and-swap loop included |
| Server.SweepEnd | src/Server.zig:72-80 | at the end of a sweep every handler in its tick loop has been terminated |
| ServerRuns.ServedUnlessWarned | src/Server.zig:251-264 | in every run a connection that went live and is being torn down has been ticked at some moment, or its handler has seen the flag set before its first tick |
| ServerRuns.TornDownForReason | src/Server.zig:167-265 | every handler that is tearing down or done gave up at some moment because initialising or upgrading failed, because it saw the flag set before its first tick, or because a tick ended the loop |
| ServerRuns.RefusedForReason | src/Server.zig:96-165 | a socket that was accepted gets no handler only if, at some moment since, configuring it failed, the flag was seen set, the counter was at the limit, or no thread could be spawned |
| ServerRuns.CurrentWasRead | src/Server.zig:155-160 | the number that is compared with the limit is one that the counter had since the socket was accepted |
| ServerRuns.DueIsDone | src/Server.zig:167-249 | no handler gets past a step of its teardown that is due without taking it: untracking and deinitialising once the connection is initialised, unregistering once it is upgraded, destroying, closing and counting down in any case |
| ServerRuns.HandlerWaitsForLock | src/Server.zig:171-228 | a handler that is not done is kept from its next step exactly by a lock that is held when it wants to enter a critical section |
| ServerRuns.NewcomerServed | src/Server.zig:96-264 | after any run, with the flag unset, room below the limit and nobody in a critical section, a new connection can come to be live and ticked |
| ServerRuns.OnlyLiveTerminated | src/Server.zig:72-78 | no script is terminated before the flag is set, and none in a connection that has not gone live |
| Sighandler.SigHandler.On | src/Sighandler.zig:100-115 | a listener registered after a termination signal runs at once |
| Sighandler.SigHandler.Handle | src/Sighandler.zig:128-156 | every signal runs all listeners in order of registration; the third termination signal exits instead |
| Sighandler.SigHandler.FireAll | src/Sighandler.zig:138-140 | each listener once, in order |
| Sighandler.RanExactlyWhen | src/Sighandler.zig:108-156 | a listener has run exactly when a termination signal came before its registration, or a termination signal or an alarm after it |
| Sighandler.AlarmLost | src/Sighandler.zig:144-155 | a concrete history: an alarm does not reach a listener registered after it |
| Sighandler.AllRan | src/Sighandler.zig:108-115 | after a termination signal every listener has run, however late it was registered |
| Sighandler.EarlierFirst | src/main.zig:85-112 | no listener runs before every earlier one has run, so the network's stop flag is set before a server shutdown begins |
| Sighandler.ThirdExits | src/Sighandler.zig:128-134 | the program exits exactly when three termination signals have come; the count of attempts is theirs, up to two |
| Sighandler.RunsHowOften | src/Sighandler.zig:100-156 | how often a listener has run: once for every termination signal and alarm after its registration, and once more if it was registered after a termination signal |
| Calendar.NextDayCounts | src/datetime.zig:48-64 | stepping to the next valid date adds one to the day number, for every date |
| Calendar.PrevDayCounts | src/datetime.zig:48-64 | stepping back subtracts one |
| Calendar.OrderIsDayOrder | src/datetime.zig:81-89 | comparing dates field by field compares day numbers; an earlier date is less |
| Calendar.DateAtInverts | src/datetime.zig:402-462 | counting calendar days from the epoch to a date and walking back gives the date |
| Calendar.DateAtSteps | src/datetime.zig:402-462 | consecutive day numbers are consecutive dates |
| DateTimes.MagicMonths | src/datetime.zig:247-268 | the multiplier 62719/2048 gives the days before each month of a year from March |
| DateTimes.InitUTCCounts | src/datetime.zig:247-268 | the encoder counts calendar days and microseconds, with the right error for each kind of bad input |
| DateTimes.SplitCycles | src/datetime.zig:402-440 | the cascade of 400, 100, 4 and 1 year cycles splits a day number uniquely |
| DateTimes.SplitMonth | src/datetime.zig:440-450 | the loop over months finds the month and the day in it |
| DateTimes.DateOf | src/datetime.zig:402-462 | the decoder names the calendar date of the instant's rounded second |
| DateTimes.RoundTrip | src/datetime.zig:247-268 | for every valid date and time from -4712 to 9999 encoding succeeds, the time comes back, and the date comes back exactly when it is not before 1970 with a time past 23:59:59; then the next day comes back |
| DateTimes.DecodeEncode | src/datetime.zig:402-473 | encoding the decoded date and time gives the instant, or one day more in that window |
| DateTimes.AddDaysMovesDate | src/datetime.zig:385-395 | adding days moves the date by that many calendar days exactly when both ends are in the window or both are not |
| DateTimes.AddMoves | src/datetime.zig:385-395 | adding units of any kind is accepted exactly when the sum lies in the period, and a unit is a day divided by 24, 24*60, 24*60*60, and so on |
| DateTimes.AddTurnsClock | src/datetime.zig:385-395 | adding hours, minutes, seconds, milliseconds or microseconds turns the decoded clock by that many, modulo how many a day has, carries whole days, and leaves alone what is smaller than the unit |
| DateTimes.OrderAgrees | src/datetime.zig:484-486 | comparing decoded date, then time, compares the instants outside the window, and always the instants as displayed |
| DateTimes.TimeMicrosUnique | src/datetime.zig:178-189 | comparing times field by field compares microseconds since midnight; an earlier time is less |
| DateTimes.TimeOf | src/datetime.zig:464-473 | the decoded time is valid and is the instant's remainder of a day |
| DateTimes.UnixRoundTrip | src/datetime.zig:270-291 | a timestamp is accepted exactly in the Julian period and comes back in each precision |
| DateTimes.UnixRounds | src/datetime.zig:475-482 | a timestamp of lower precision is the instant rounded toward 1970 |
| DateTimes.WindowExample | src/datetime.zig:412-412 | half a second before the epoch decodes to 1970-01-01 |
| Rfc3339.WriteDate | src/datetime.zig:567-590 | the buffer gets exactly the date's text, negative years included, and is unchanged elsewhere |
| Rfc3339.WriteTime | src/datetime.zig:592-613 | the buffer gets exactly the time's text with 0, 3 or 6 fraction digits |
| Rfc3339.Format | src/datetime.zig:511-523 | the text of an instant is its date's, then its time's |
| Rfc3339.Parser.Nanoseconds | src/datetime.zig:669-694 | the digit run is read and scaled to nanoseconds, or nothing is consumed |
| Rfc3339.Parser.PaddedInt | src/datetime.zig:696-713 | exactly that many digits are read, or nothing is consumed |
| Rfc3339.Parser.Time | src/datetime.zig:715-738 | the parser's cursor and result agree with the grammar |
| Rfc3339.Parser.Rfc3339Date | src/datetime.zig:766-787 | the parser's cursor and result agree with the grammar, sign included |
| Rfc3339.ParseRfc3339 | src/datetime.zig:347-383 | the parser accepts and rejects as the grammar, with the same error |
| Rfc3339.DateRoundTrip | src/datetime.zig:567-590 | scanning a printed date gives the date and the position after it |
| Rfc3339.TimeRoundTrip | src/datetime.zig:592-613 | scanning a printed time gives the time, through all fraction forms, and refuses one that does not exist |
| Rfc3339.WholeTexts | src/datetime.zig:766-787 | for every valid date of absolute year at most 9999 and every valid time the printed text parses back |
| Rfc3339.FormatParse | src/datetime.zig:347-383 | parsing the text of an instant gives the instant exactly outside the window, and one day more inside it |
| Rfc3339.PrintedIsParseable | src/datetime.zig:511-523 | printed texts meet the parser's precondition |
| Rfc3339.ZoneDecides | src/datetime.zig:365-382 | after a printed date and time exactly Z, +00:00 and -00:00 are accepted, and mean UTC; any other six characters that begin with a sign are refused as another time zone, and everything else as no instant |
| Rfc3339.AcceptedIsUTC | src/datetime.zig:365-382 | every text that is accepted ends by saying UTC |
| Rfc3339.SeparatorDecides | src/datetime.zig:350-361 | after the date a year before -4712 is refused as outside the period, and then anything but T as no instant |
| Rfc3339.DateRefused | src/datetime.zig:766-787 | the text of a date that does not exist is refused |
| Rfc3339.FractionExact | src/datetime.zig:669-694 | the digits after the point are read as a decimal fraction of a second, exactly; ten digits and more are refused |
| Rfc3339.ShorterTimes | src/datetime.zig:715-738 | a time without seconds is read with none, and a fraction that is not asked for is not read |
| Rfc3339.TextExample | src/datetime.zig:511-523 | the text of one instant, character by character |
| PrototypeLayout.TotalSize | src/browser/Factory.zig:138-145 | the size is where the greedy layout from the root ends |
| PrototypeLayout.MaxAlign | src/browser/Factory.zig:147-155 | the largest alignment of the chain |
| PrototypeLayout.Get | src/browser/Factory.zig:169-180 | the offset of a part in the greedy layout |
| PrototypeLayout.GreedyIsLeast | src/browser/Factory.zig:138-145 | no aligned layout of the chain in that order ends earlier |
| PrototypeLayout.Reflection | src/browser/Factory.zig:410-436 | mirroring an aligned layout in a multiple of the alignments gives an aligned layout of the reversed chain |
| PrototypeLayout.FreedUnderAllocationKey | src/browser/Factory.zig:410-436 | for every chain the size summed from leaf to root and the one from root to leaf give the same slab key; it has the largest alignment of the chain, and its size is that of the layout rounded up to that alignment |
| PrototypeLayout.PartsDisjoint | src/browser/Factory.zig:169-180 | parts do not overlap and lie inside the block, the root first |
| PrototypeLayout.PartAligned | src/browser/Factory.zig:169-180 | parts are aligned when the block is |
| Alignment.AlignForwardLeast | src/browser/Factory.zig:420-420 | aligning forward gives the least multiple that is not smaller |
| Alignment.KeyServes | src/slab.zig:379-384 | the slots of the slab that serves a request are at least as long as asked for, by less than the alignment, a multiple of it, and the shortest such |
| Alignment.KeyIdempotent | src/slab.zig:400-408 | the rounded size has the slab key of the size itself, so what is released with either goes to the same slab |
| Slabs.ChunkAtMostDoubles | src/slab.zig:40-44 | a chunk is at most one slot larger than all before it together |
| Slabs.ChunksDouble | src/slab.zig:40-44 | the first chunk has one slot and each further one twice as many as the one before, up to the maximum; from the 64th on they stay the same |
| Slabs.Slab.ToBitsetIndex | src/slab.zig:46-53 | the index of a slot counts the slots of earlier chunks |
| Slabs.Slab.ToChunkAndSlotIndices | src/slab.zig:55-69 | inverts that on every index of the slab |
| Slabs.SlotUnique | src/slab.zig:46-69 | two slots with the same index are the same slot |
| Slabs.Slab.Alloc | src/slab.zig:71-93 | the lowest free slot is taken, before any growth; it was held by nobody and is held now |
| Slabs.Slab.Free | src/slab.zig:95-115 | marks free exactly the slot handed out at that address |
| Slabs.Slab.AllocateChunk | src/slab.zig:117-132 | the bitset grows by the new chunk's slots, all free |
| Slabs.Slab.Stats | src/slab.zig:147-171 | used and free slots sum to the total, which is at most twice the peak use less one and less than the peak plus the chunk limit |
| Slabs.SlotsDisjoint | src/slab.zig:71-93 | different slots share no memory |
| Slabs.SlotInside | src/slab.zig:71-93 | a slot lies in its chunk |
| Slabs.SlotAligned | src/slab.zig:117-125 | a slot is aligned |
| Slabs.SlabAllocator.Alloc | src/slab.zig:375-398 | exactly one block more is held, under the key of its size and alignment, and it was not held before; it has the length asked for, is aligned as asked for, and lies in one chunk of that slab with all of its length |
| Slabs.SlabAllocator.Free | src/slab.zig:400-409 | exactly one block less is held |
| Slabs.SlabAllocator.Reset | src/slab.zig:240-244 | no block is held any more, and chunks are kept |
| Slabs.SlabAllocator.HeldBlocksDisjoint | src/slab.zig:375-409 | in every reachable state blocks held at once, of any slabs, are aligned as asked for, lie in a chunk with all of the length that was asked for, and are disjoint over those lengths |
| WebSocketFrames.RecvBuffer.EnsureBytes | src/TestWSServer.zig:160-175 | succeeds exactly when that many bytes come and fit the buffer, however they are split over reads, and never loses or disturbs a byte |
| WebSocketFrames.RecvBuffer.Compact | src/TestWSServer.zig:162-168 | moving the available bytes to the front, overlapping or not, keeps them |
| WebSocketFrames.RecvBuffer.Consume | src/TestWSServer.zig:152-158 | drops exactly that many bytes |
| WebSocketFrames.RecvBuffer.ReadFrame | src/TestWSServer.zig:177-233 | the frame is the first one of the byte stream as a whole, unmasked in place, bit by bit, and what is left is the rest of the stream; nothing is consumed when the frame is incomplete or does not fit |
| WebSocketFrames.RecvBuffer.Unmask | src/TestWSServer.zig:224-228 | flips exactly the bits of the payload that the key has, and touches no other byte |
| WebSocketFrames.RecvBuffer.Serve | src/TestWSServer.zig:120-135 | the frames handled are those of decoding the whole stream at once, up to a close frame, one whose handler fails, or one that does not fit |
| WebSocketFrames.SendFrame | src/TestWSServer.zig:272-308 | what is written is the encoding of prefix and payload joined, a final frame that is not masked |
| WebSocketFrames.BuildHeader | src/TestWSServer.zig:275-299 | the header bytes, for all three forms of the length |
| WebSocketFrames.DecodeEncode | src/TestWSServer.zig:181-222 | decoding an encoded frame, masked or not, gives back opcode, payload and size for all three forms of the length, whatever follows |
| WebSocketFrames.StreamRoundTrip | src/TestWSServer.zig:177-233 | a stream of encoded frames that fit decodes to those frames |
| WebSocketFrames.MaskTwice | src/TestWSServer.zig:224-228 | masking twice with one key is the identity; what masking does to each bit is WebSocketFrames.MaskedBits |
| WebSocketFrames.XorBit | src/TestWSServer.zig:224-228 | bit by bit: a bit of the result is set exactly when the two bytes differ in it |
| WebSocketFrames.MaskedBits | src/TestWSServer.zig:224-228 | every bit of every byte is flipped exactly if the key has it in the byte whose turn it is |
| WebSocketFrames.DecodedReads | src/TestWSServer.zig:181-232 | the decoded frame is what the bytes spell: the low four bits of the first, the length in one of its three forms with each byte's weight, and the payload as it stands, or with the bits flipped that the four bytes before it have |
| WebSocketFrames.HandledExactly | src/TestWSServer.zig:120-135 | a frame is handled exactly when none before it has opcode 8, nor opcode 1 or 2 and a handler that fails |
| WebSocketFrames.BeRoundTrip | src/TestWSServer.zig:192-203 | the big-endian bytes of a length read back as the length |
| SemanticTree.Walker.Walk | src/SemanticTree.zig:113-288 | on every way out the shared path buffer and the indentation are restored, and the output is that of a walk that passes whole paths down |
| SemanticTree.Walker.WalkChildren | src/SemanticTree.zig:262-281 | the counter map numbers each child among the children of its tag |
| SemanticTree.Walker.AppendSegment | src/SemanticTree.zig:327-334 | appends a slash, the node's tag, or text(), and its number in brackets |
| SemanticTree.PathsLeadBack | src/SemanticTree.zig:189-191 | the recorded path text of each listed node spells steps, and only those, that lead from the start node to that very node when each is read as the child of that tag with that number, also among siblings that look the same |
| SemanticTree.PathsDiffer | src/SemanticTree.zig:254-281 | no two listed nodes have the same path text |
| SemanticTree.EntryIsListed | src/SemanticTree.zig:113-288 | every entry is that of a node to be listed: its path spells a slash, the tag and the number of each node on the way, the number counting the element siblings of that tag up to the node, and its indentation counts the listed nodes above |
| SemanticTree.ListedHasEntry | src/SemanticTree.zig:113-288 | every node has an entry that is kept, not too deep, and neither skipped nor below a node that is skipped or closed |
| SemanticTree.ListedInOrder | src/SemanticTree.zig:254-285 | the entries are in document order |
| SemanticTree.OccurrencesCount | src/SemanticTree.zig:266-277 | the number of a child is how many of the children up to it have its tag, what is no element going by one name |
| SemanticTree.PathsOfDivision | src/SemanticTree.zig:266-334 | an example: in a division the paths of a paragraph, a span and another paragraph, the second of its tag |
| SemanticTree.ListingBalanced | src/SemanticTree.zig:254-285 | visits and leaves match, never closing more than is open, and each entry is indented by the number of listed nodes around it |
| SemanticTree.ChildFound | src/SemanticTree.zig:266-279 | tag and number name exactly that child, children being compared by their own tags |
| SemanticTree.RenderUnique | src/SemanticTree.zig:327-334 | different steps give different text, for tags without a slash |
| SemanticTree.List | src/SemanticTree.zig:65-84 | a whole listing is the reference walk from an empty path at no depth |
| Notification.Registry.Register | src/Notification.zig:304-329 | the new listener is last among all registrations, and in both indexes |
| Notification.Registry.Unregister | src/Notification.zig:331-351 | exactly the receiver's listeners to that event go; the others keep their order in spite of the swaps, and no receiver keeps an empty list |
| Notification.Registry.UnregisterAll | src/Notification.zig:353-360 | exactly the receiver's listeners go |
| Notification.Registry.Dispatch | src/Notification.zig:362-382 | calls exactly the listeners registered for the event, in order of registration; the shortcut for an empty registry skips none |
| Notification.Registry.BothLists | src/Notification.zig:304-360 | a listener is in its event's list exactly when it is in its receiver's, once in each |
| Collections.SwapRemoved | src/Notification.zig:343-343 | a swap removal takes exactly one entry, duplicates none, and keeps those before it in place |
| ArenaPool.Pool.Acquire | src/ArenaPool.zig:107-163 | hands out the first free entry of the bucket or a new one, never one that is out, and adds one to the ledger under its name; the bucket is the one named, or the first that retains as many bytes as asked for, or the last if none does |
| ArenaPool.Pool.Release | src/ArenaPool.zig:165-199 | takes the entry back into its bucket's list unless that is full, and one off the ledger. A name never used is refused as unknown. A release of an entry that is not out is noticed exactly when nothing is out under its name; otherwise the ledger is one short and a pooled entry makes the free list endless |
| ArenaPool.SecondReleaseUnnoticed | src/ArenaPool.zig:165-199 | two arenas under one name and the first released twice: the entry is its own successor in the list, and the ledger reads 0 with one arena out |
| ArenaPool.Pool.Deinit | src/ArenaPool.zig:80-105 | reports a leak exactly when an arena is out; otherwise frees every arena exactly once |
| ArenaPool.Pool.HasLeaks | src/ArenaPool.zig:81-89 | some count is not zero exactly when some arena is out |
| ArenaPool.Pool.PickIsTightest | src/ArenaPool.zig:121-126 | the bucket picked for a size retains enough and least, when one does |
| ArenaPool.Bucket.Pop | src/ArenaPool.zig:133-135 | takes the head off the linked list and keeps its length right |
| ArenaPool.Bucket.Push | src/ArenaPool.zig:196-198 | puts an entry at the head and keeps the length right and within the maximum |
| ArenaPool.Bucket.Drain | src/ArenaPool.zig:97-103 | the list ends, and walking it meets each entry once |
| ArenaPool.NamedMore | src/ArenaPool.zig:138-142 | handing out one entry changes the number out under its name by one and under no other |

## Left out

- Running out of memory anywhere: allocations succeed. So do the append to the registry of connections and that to the deferred queue.
- EventManager: activation behaviour, default actions, the ignore list for load events of scripts, the passive flag and the event count; they depend on code that is not part of this model. Listeners that throw are reported and the walk goes on, so they are not told apart.
- EventManagerBase.Manager.Walk: the property handler that dispatchDirect calls before the listeners is not modelled; it is one more callback.
- EventManagerBase.Manager.FindListener: register repeats this search inline; the model shares one method.
- EventPath.AdjustedIsRetargeted: about a tree that callbacks do not change between building the path and reporting the target.
- EventManagerBase.Manager.DispatchNode: that a node has an inline handler, and what a callback does, are free choices; a callback does what its place in the order of calls says. The phase an event shows to its listeners is not modelled.
- Propagation.QuietDispatch: a path on which two nodes have one id is excluded; ids tell nodes apart.
- TargetPhase.Plain: a run that meets an inline handler is not compared with the standard, which keeps the handlers of all targets on the path among their listeners; the program calls that of the target only, and before its listeners. Nor is a run that dispatches an event directly at a node, which in the standard has a path.
- StandardPath.StandardPath: events with a related target, which can end the standard's path early, are left out.
- TargetPhase.MeetsStandard: one direction, because the other is false, as DifferentRuns.DifferencesCancel shows; for a single target it goes both ways.
- Server.NoneLeftTicking: that a terminated handler leaves its loop is up to the script engine and the socket, which are not part of this model; handlers here may tick on.
- Server.SweepEnd: a shutdown also closes the network side of every tracked connection, live or not, which makes reads and the handshake fail; that is up to the socket, and here such failures may come at any time.
- ServerRuns.NewcomerServed: that a connection can be served; whether and when it is, is up to the scheduler and the peer.
- Server.SectionsAfterFree: when a shutdown that waits for the lock gets it is up to the scheduler.
- Sequential consistency is taken for granted; the code's monotonic and acquire/release orders are weaker.
- Sighandler: waiting for signals, the deadline timer and the quit signal, which is ignored.
- Rfc3339.ParseRfc3339: requires that a fraction the parser comes to fits its 64-bit accumulator, and that a text with a date in the Julian period does not end right after it, where the program reads past the end.
- DateTimes.InitUTCCounts: requires a year whose sum with 4800 fits 16 bits, as the program's own arithmetic does.
- DateTimes.AddDaysMovesDate: requires a sum that fits 64 bits, as the program's own arithmetic does.
- The text forms of RFC 822 and ISO 8601 without separators, and JSON, which add only easy cases.
- Slabs: the reset that gives chunks back to the child allocator; its contract is not part of this model. The child allocator is a parameter: each chunk is fresh, aligned memory.
- Slabs.SlabAllocator.Alloc: requires a positive length, as Zig's allocator interface does.
- WebSocketFrames.RecvBuffer.ReadFrame: a length near 2^64 overflows the program's sum of sizes; here it is a frame that does not fit. A read error ends the stream like its end.
- WebSocketFrames.SendFrame: every write is taken to be complete; the program does not look at how much was written.
- WebSocketFrames.RecvBuffer: buffers shorter than 1024 bytes, on which the program's own subtraction fails.
- SemanticTree: roles, names, visibility and what an entry prints besides path and indentation. Numbers of text nodes count comments and elements with the tag text() too, so text steps are unique but not XPath's own numbering.
- Notification.Registry.Dispatch: listeners that unregister from within a call; the program reads the next pointer afterwards. Event lists are sequences here, linked lists in the program.
- ArenaPool.Pool.Release: an entry that was destroyed and not one handed out; its memory is gone. The ledger exists in debug builds only; a release build notices no second release. The mutex is held throughout, so operations are atomic; contents of arenas are left out.
- CustomElementReactions: what a reaction does in the script engine, beyond what it enqueues.
- OrderlyScopes.AgreesExactly: about what fires in scopes; the drain of the backup queue is not compared. The reaction queues of all elements are kept as one list, of which an element's queue is a part. The condition is exact for callbacks that enqueue only in scopes of their own; for all others ElementQueues.FollowsAgrees gives one direction, because the other is false, as ElementQueueRuns.FiresLater shows.
- Rust glue for the HTML parser, the command line, logging, caches and pools whose bookkeeping is a plain map or set.
