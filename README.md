# Gameplay trigger dispatcher

A Dafny model of `UOGGameplayTriggerSubsystem`, the dispatcher of the
OGGameplayTrigger plugin, and of the value types it works on.

## Concepts

A *trigger* is one gameplay event, instantaneous or spanning time. It is
identified by a trigger handle and described by a trigger context: type tag,
tags, initiator, target and a bank of additional data. A *listener*
registers a callback for one trigger type and a set of phases (Start,
Update, End). It may also filter on the initiator or the target.

The dispatcher keeps four things:

- the active triggers, by type and then by handle;
- the live listeners, by type and then by handle;
- two staging areas for listeners that are being added or removed;
- a queue of pending trigger operations.

Each operation is a set of bit flags: add, update, process callbacks,
network RPC and remove. Starting, updating and ending a trigger each enqueue
an operation. Only the call that finds the queue empty drains it. Before
each operation it applies the staged listener changes, all additions first
and then all removals. Then it processes the operation:

- it stores, updates or looks up the trigger's context;
- it fans out to the listeners of the context's type, with the phase bits
  of the operation;
- it removes the trigger if the operation asks for that.

Callbacks may call back into the dispatcher. Inside a drain those calls
only enqueue operations or stage listener changes, so the listener table,
the active table and the order of operations do not change during a
fan-out: callback processing is atomic for them. Two things are not
deferred. A listener registered with fire-for-existing has its callback run
at once, with phase Start, for every matching trigger already active. And
a callback that asks for the update context of a trigger with nothing
queued gets the stored context itself, so what it writes into that
context's data is visible at once, to later callbacks of the same fan-out
too.

## How the model is built

- `trigger_types.dfy`, module `TriggerTypes`, holds the values. The
  operation and phase flags are `bv8` constants. There are gameplay tags,
  trigger and listener handles, and the fields of a trigger context.
- `trigger_listeners.dfy`, module `TriggerListeners`, holds listener data,
  validity and the filters. A callback is data: a finite script of
  dispatcher requests that it issues each time it is invoked. A callback
  bound through an owner object stops being bound once that object is
  destroyed.
- `listener_tables.dfy`, module `ListenerTables`, holds the listener table,
  the staging areas and the fan-out selection as values. It proves what
  applying the staged changes does.
- `trigger_operations.dfy`, module `TriggerOperations`, holds the queued
  operations and the active-trigger table as values:
  - the newest-first queue scans behind `IsTriggerActiveOrPending` and
    `GetTriggerContextForUpdate`;
  - the effect on the table of processing one operation.
- `trigger_subsystem.dfy`, module `TriggerSubsystem`, is the dispatcher
  itself. It is a class whose fields are the maps, the set and the queue,
  and its methods update them in place.
  - Context objects live in a heap: a sequence indexed by context
    reference. This tells the copy of a context apart from the context
    object itself.
  - The reentrant drain is a set of mutually recursive methods. A callback
    script calls the public entry points.
- `trigger_handles.dfy`, module `TriggerHandles`, holds the handle
  operations that call back into the dispatcher (`IsActive`, `Reset`).

Several things are modelled explicitly:

- A failed `FindChecked` is fatal in the source, so it sets the `halted`
  flag and processing stops.
- Handle ids come from a counter and are fresh and non-zero. Handles are
  compared as whole values.
- Destroyed engine objects are a set, and weak pointers to them no longer
  resolve.
- The ghost histories `enqueued` and `processed` state that operations are
  processed in enqueue order.
- The ghost log `invocations` records every callback invocation, in
  order, with the listener, the trigger, the phase and the context. A
  callback is only ever invoked by appending to it. Ghost results
  (`invoked`, `fired`, and the positions `at`) name the entries a
  fan-out or a fire-for-existing added to the log.
- The ghost fold `ApplyAll` gives the active table after a run of
  operations. A drain is stated against it: the table after a drain is
  the old table with the processed operations applied in order.

The header `OGGameplayTriggerSubsystem.h` and the `.cpp` disagree in places.
The model follows the `.cpp` in each of them:

- The queue is `OperationQueue`. It adds at the head and peeks and pops at
  the tail (not `TQueue PendingOperations`, and there is no
  `bIsProcessingTrigger`).
- The pending operation's context is carried by both Add and Update
  operations (`StoredTriggerContext`), not by Add operations only.
- `Op_UpdateActiveTrigger` does not appear in the header's
  `EOGTriggerOperationFlags` (`OGGameplayTriggerTypes.h:15-28`), which has
  `TriggerUpdate` on bit 1. The update operation is placed on that bit, so
  masking an update operation with `All` gives the Update phase.
  `UpdateTrigger` enqueues update|process-callbacks.
- The header documents `GetTriggerContextForUpdate`
  (`OGGameplayTriggerSubsystem.h:84-86`) as making a deep copy whenever
  trigger processing is ongoing, and returning the live context otherwise.
  The `.cpp` (`OGGameplayTriggerSubsystem.cpp:64-92`) copies only when a
  queued operation on that handle adds or updates it. During a drain it
  returns the live context of a trigger with nothing queued for it.

## Model

| member | source | states |
|---|---|---|
| TriggerTypes.PhasesOf | Source/OGGameplayTrigger/Private/OGGameplayTriggerSubsystem.cpp:280-283 | The phase mask handed to listeners keeps no bit outside `All`, and each phase bit is set iff the operation bit at the same position is set; process-callbacks and network-RPC never leak into it |
| TriggerTypes.OperationFlagsAreSingleBits | Source/OGGameplayTrigger/Public/OGGameplayTriggerTypes.h:17-22 | The five operation flags are the distinct single bits 1, 2, 4, 8, 16 |
| TriggerTypes.AllPhasesLayout | Source/OGGameplayTrigger/Public/OGGameplayTriggerTypes.h:35-39 | `All` shares no bit with process-callbacks or network-RPC, and the three phases it gathers are distinct bits |
| TriggerTypes.CompositePhases | Source/OGGameplayTrigger/Public/OGGameplayTriggerTypes.h:24-27 | Instantaneous (and networked instantaneous) deliver Start and End in one mask, Open only Start, Close only End, Update only Update; every composite processes callbacks |
| TriggerTypes.TriggerHandleValid | Source/OGGameplayTrigger/Private/OGGameplayTriggerTypes.cpp:14-17 | Only an issued handle (non-zero id) that still points to its dispatcher is valid, so the empty handle never is; what validity means for the tables is proved in `TriggerHandles.IsActiveMeansStored` |
| TriggerListeners.FiltersMatchByIdentity | Source/OGGameplayTrigger/Private/OGGameplayTriggerSubsystem.cpp:20-43 | For a valid listener, processing a trigger holds iff the phase masks meet and each set filter equals the trigger's initiator or target |
| TriggerListeners.UnfilteredListenerIgnoresIdentities | Source/OGGameplayTrigger/Private/OGGameplayTriggerSubsystem.cpp:32-43 | A listener without filters accepts a trigger iff its phase mask meets the phase, whatever the trigger's initiator and target |
| TriggerListeners.InstantaneousReachesStartOrEndListeners | Source/OGGameplayTrigger/Public/OGGameplayTriggerTypes.h:24 | The instantaneous mask reaches a listener iff it listens for Start or for End |
| TriggerListeners.IsListenerValid | Source/OGGameplayTrigger/Private/OGGameplayTriggerSubsystem.cpp:20-30 | A valid listener has a bound callback, and each filter it sets still resolves; how validity and the filters decide who is invoked is proved in `FiltersMatchByIdentity` and `FanOutPartitionsBucket` |
| TriggerListeners.ShouldListenerProcessTrigger | Source/OGGameplayTrigger/Private/OGGameplayTriggerSubsystem.cpp:32-43 | An accepted phase meets the listener's mask and an accepted trigger matches the set filters; the full if-and-only-if is `FiltersMatchByIdentity`, and the unfiltered case `UnfilteredListenerIgnoresIdentities` |
| ListenerTables.StagingOutcome | Source/OGGameplayTrigger/Private/OGGameplayTriggerSubsystem.cpp:243-253 | After staging, a staged removal is gone from its bucket, a staged addition not also removed is in its type's bucket with its data, and every other entry is as before |
| ListenerTables.ValidityAnticipatesStaging | Source/OGGameplayTrigger/Private/OGGameplayTriggerSubsystem.cpp:217-231 | `IsListenerHandleValid` holds iff the handle is live after the next staging step |
| ListenerTables.RemovalWinsOverAddition | Source/OGGameplayTrigger/Private/OGGameplayTriggerSubsystem.cpp:243-253 | A listener both added and removed before the next operation is in no bucket after staging |
| ListenerTables.FanOutPartitionsBucket | Source/OGGameplayTrigger/Private/OGGameplayTriggerSubsystem.cpp:302-316 | The invoked and the expired listeners of a bucket are disjoint subsets of it, and a listener whose mask misses the phase is never invoked |
| ListenerTables.RecipientsAfterAdd | Source/OGGameplayTrigger/Private/OGGameplayTriggerSubsystem.cpp:243-247 | Filing a listener under a new handle changes who a fan-out invokes by that listener alone, and only when it is valid and accepts the trigger |
| ListenerTables.RecipientsAfterRemove | Source/OGGameplayTrigger/Private/OGGameplayTriggerSubsystem.cpp:249-253 | Removing a listener takes it, and nobody else, out of every fan-out |
| ListenerTables.ApplyPendingAddsStep | Source/OGGameplayTrigger/Private/OGGameplayTriggerSubsystem.cpp:243-247 | Adding staged listeners one at a time, in any order, gives the table the batch definition gives |
| ListenerTables.ApplyPendingRemovesStep | Source/OGGameplayTrigger/Private/OGGameplayTriggerSubsystem.cpp:249-253 | Removing staged listeners one at a time, in any order, gives the table the batch definition gives |
| ListenerTables.AddsMakeRemovesResolvable | Source/OGGameplayTrigger/Private/OGGameplayTriggerSubsystem.cpp:370-373 | When every staged removal names an existing bucket or a staged listener of its own type, no removal's `FindChecked` can fail once the additions are applied |
| ListenerTables.NothingStaged | Source/OGGameplayTrigger/Private/OGGameplayTriggerSubsystem.cpp:243-253 | With nothing staged, staging leaves the table as it is |
| TriggerOperations.NewestDecidingOp | Source/OGGameplayTrigger/Private/OGGameplayTriggerSubsystem.cpp:70-81 | The scan finds the position of the newest operation on the handle that adds, updates or removes; none before it decides, and none at all when it finds nothing |
| TriggerOperations.EnqueueDecides | Source/OGGameplayTrigger/Private/OGGameplayTriggerSubsystem.cpp:201-215 | An operation just enqueued decides its handle: it is active-or-pending iff the operation does not remove it, and an update context is a copy of the operation's context |
| TriggerOperations.EnqueueOtherHandle | Source/OGGameplayTrigger/Private/OGGameplayTriggerSubsystem.cpp:201-215 | Enqueuing for one handle changes neither scan's answer for any other handle |
| TriggerOperations.NewestDecidingOpWithoutTail | Source/OGGameplayTrigger/Private/OGGameplayTriggerSubsystem.cpp:389-394 | Popping the oldest operation keeps the newest deciding operation unless the popped one was it |
| TriggerOperations.ProcessingKeepsActiveOrPending | Source/OGGameplayTrigger/Private/OGGameplayTriggerSubsystem.cpp:201-215 | Processing and popping the oldest operation leaves `IsTriggerActiveOrPending` unchanged for every valid handle |
| TriggerOperations.ApplyOperationFailsOnMissingHandle | Source/OGGameplayTrigger/Private/OGGameplayTriggerSubsystem.cpp:263-278 | Processing an operation hits a fatal `FindChecked` iff it is not an addition and its handle is not stored under its type |
| TriggerOperations.UpdatesCompound | Source/OGGameplayTrigger/Private/OGGameplayTriggerSubsystem.cpp:76-80 | After an update is enqueued, the next update context for that handle is a copy of the updated context, so successive updates build on each other |
| TriggerOperations.CloseEndsOnlyItsTrigger | Source/OGGameplayTrigger/Private/OGGameplayTriggerSubsystem.cpp:355-363 | A Close succeeds iff the trigger is stored; it then ends that trigger and leaves every other trigger's membership as it was |
| TriggerOperations.UpdateAcrossTypesKeepsOldEntry | Source/OGGameplayTrigger/Private/OGGameplayTriggerSubsystem.cpp:330-353 | An update to a context of another type files the trigger under the new type and keeps the old entry; a later removal erases only the entry under the handle's own type |
| TriggerOperations.ApplyAllStep | Source/OGGameplayTrigger/Private/OGGameplayTriggerSubsystem.cpp:241-257 | Folding the drain's operations over the active table one more operation gives that operation's effect on the previous result |
| TriggerOperations.ApplyOperationExtends | Source/OGGameplayTrigger/Private/OGGameplayTriggerSubsystem.cpp:263-278 | Allocating more contexts changes neither whether an operation carries a context nor its effect on the table |
| TriggerOperations.ApplyAllExtends | Source/OGGameplayTrigger/Private/OGGameplayTriggerSubsystem.cpp:241-257 | Contexts allocated by callbacks during a drain do not change the fold of the operations already processed |
| TriggerOperations.ApplyAllThenOne | Source/OGGameplayTrigger/Private/OGGameplayTriggerSubsystem.cpp:241-257 | The fold computed before a round, extended by the round's operation, is the table after the round |
| TriggerOperations.ApplyKeepsActive | Source/OGGameplayTrigger/Private/OGGameplayTriggerSubsystem.cpp:261-295 | An operation that does not remove a stored trigger leaves it stored |
| TriggerOperations.ApplyKeepsInactive | Source/OGGameplayTrigger/Private/OGGameplayTriggerSubsystem.cpp:261-295 | An operation that does not add a trigger that is not stored leaves it not stored |
| TriggerOperations.StartedStaysActive | Source/OGGameplayTrigger/Private/OGGameplayTriggerSubsystem.cpp:320-363 | After a run that begins by adding a trigger without removing it, the trigger is stored at the end unless a later operation of the run removes it |
| TriggerOperations.InstantaneousStaysInactive | Source/OGGameplayTrigger/Private/OGGameplayTriggerSubsystem.cpp:355-363 | After a run that begins by removing a trigger, the trigger is not stored at the end unless a later operation of the run adds it again |
| TriggerSubsystem.FiredOnlyTargets | Source/OGGameplayTrigger/Private/OGGameplayTriggerSubsystem.cpp:109-119 | Fire-for-existing invokes only for triggers it targets |
| TriggerSubsystem.NothingFiredWithoutStart | Source/OGGameplayTrigger/Private/OGGameplayTriggerSubsystem.cpp:100-119 | A listener that does not listen for Start has no fire-for-existing targets, so firing for existing triggers invokes nothing for it |
| TriggerSubsystem.GameplayTriggerSubsystem.constructor | Source/OGGameplayTrigger/Public/OGGameplayTriggerSubsystem.h:149-166 | A new dispatcher has empty tables, staging areas and queue, and its invariant holds |
| TriggerSubsystem.GameplayTriggerSubsystem.DestroyObject | Source/OGGameplayTrigger/Public/OGGameplayTriggerSubsystem.h:29-32 | Destroying an object makes weak pointers to it stop resolving, so every listener that filters on it or whose callback it owns becomes invalid |
| TriggerSubsystem.GameplayTriggerSubsystem.MakeGameplayTriggerContext | Source/OGGameplayTrigger/Private/OGGameplayTriggerSubsystem.cpp:53-62 | A new context object with the given fields and empty data is appended, and its reference is returned |
| TriggerTypes.WithAdded | Source/OGGameplayTrigger/Public/OGGameplayTriggerTypes.h:124-125 | Adding to a data bank entry adds to that entry only, a missing entry counting as zero and being created |
| TriggerSubsystem.GameplayTriggerSubsystem.SetContextData | Source/OGGameplayTrigger/Public/OGGameplayTriggerTypes.h:124-125 | Writing one data entry of one context changes that entry only |
| TriggerSubsystem.GameplayTriggerSubsystem.GetTriggerContextForUpdate | Source/OGGameplayTrigger/Private/OGGameplayTriggerSubsystem.cpp:64-92 | An invalid handle, a newest pending removal, or a trigger with nothing queued and nothing stored gives null. A newest pending add or update gives a fresh copy of its context, data included. Otherwise the stored context itself is returned and nothing is allocated |
| TriggerSubsystem.GameplayTriggerSubsystem.IsTriggerActiveOrPending | Source/OGGameplayTrigger/Private/OGGameplayTriggerSubsystem.cpp:201-215 | The loop returns the answer of the newest deciding operation, or `IsTriggerActive` without one |
| TriggerSubsystem.GameplayTriggerSubsystem.IsTriggerActive | Source/OGGameplayTrigger/Private/OGGameplayTriggerSubsystem.cpp:191-199 | Active means stored under its own type; its relation to the queue scan is proved in `ActiveMeansStored` and `ProcessingKeepsActiveOrPending` |
| TriggerSubsystem.GameplayTriggerSubsystem.ActiveMeansStored | Source/OGGameplayTrigger/Private/OGGameplayTriggerSubsystem.cpp:191-199 | With nothing queued, `IsTriggerActive` agrees with active-or-pending: no queued operation can decide the answer |
| TriggerSubsystem.GameplayTriggerSubsystem.ListenerValidityAnticipatesStaging | Source/OGGameplayTrigger/Private/OGGameplayTriggerSubsystem.cpp:217-231 | Under the invariant, staging cannot fail, and a listener handle is valid iff it is live after the next staging step |
| TriggerSubsystem.GameplayTriggerSubsystem.IsListenerHandleValid | Source/OGGameplayTrigger/Private/OGGameplayTriggerSubsystem.cpp:217-231 | A handle staged for removal is invalid even while still live, and one staged for addition only is valid; that validity means being live after the next staging is `ListenerValidityAnticipatesStaging` |
| TriggerSubsystem.GameplayTriggerSubsystem.ListenerHandleIsValid | Source/OGGameplayTrigger/Private/OGGameplayTriggerTypes.cpp:31-35 | A valid listener handle is not the empty handle and the dispatcher vouches for it; what the vouching means is `ListenerValidityAnticipatesStaging` |
| TriggerSubsystem.GameplayTriggerSubsystem.EnqueueOperation | Source/OGGameplayTrigger/Private/OGGameplayTriggerSubsystem.cpp:375-379 | The operation goes to the head and is recorded as the latest enqueued |
| TriggerSubsystem.GameplayTriggerSubsystem.PeekOperation | Source/OGGameplayTrigger/Private/OGGameplayTriggerSubsystem.cpp:381-387 | Finds an operation iff the queue is non-empty; it is the tail, which is the oldest operation not yet processed |
| TriggerSubsystem.GameplayTriggerSubsystem.PopOperation | Source/OGGameplayTrigger/Private/OGGameplayTriggerSubsystem.cpp:389-394 | Drops the tail and records it as processed; on an empty queue it does nothing |
| TriggerSubsystem.GameplayTriggerSubsystem.AddTriggerListener_Internal | Source/OGGameplayTrigger/Private/OGGameplayTriggerSubsystem.cpp:365-368 | The listener is filed, under its handle, in the bucket of its type, created if missing |
| TriggerSubsystem.GameplayTriggerSubsystem.RemoveTriggerListener_Internal | Source/OGGameplayTrigger/Private/OGGameplayTriggerSubsystem.cpp:370-373 | The handle is removed from the bucket its type names, which must exist |
| TriggerSubsystem.GameplayTriggerSubsystem.ApplyPendingListenerChanges | Source/OGGameplayTrigger/Private/OGGameplayTriggerSubsystem.cpp:243-253 | The live table becomes the staged additions, then the staged removals, applied to it; no removal fails; both staging areas are empty |
| TriggerSubsystem.GameplayTriggerSubsystem.StagePendingAdds | Source/OGGameplayTrigger/Private/OGGameplayTriggerSubsystem.cpp:243-247 | The loop applies every staged addition and empties the area |
| TriggerSubsystem.GameplayTriggerSubsystem.StagePendingRemoves | Source/OGGameplayTrigger/Private/OGGameplayTriggerSubsystem.cpp:249-253 | The loop applies every staged removal and empties the set |
| TriggerSubsystem.GameplayTriggerSubsystem.StagedListenersFiledByType | Source/OGGameplayTrigger/Public/OGGameplayTriggerSubsystem.h:75 | After staging, every listener sits in the bucket of its handle's type, at most once |
| TriggerSubsystem.GameplayTriggerSubsystem.AddActiveTrigger_Internal | Source/OGGameplayTrigger/Private/OGGameplayTriggerSubsystem.cpp:320-328 | The context is stored for the handle in the bucket of the context's type |
| TriggerSubsystem.GameplayTriggerSubsystem.UpdateActiveTrigger_Internal | Source/OGGameplayTrigger/Private/OGGameplayTriggerSubsystem.cpp:330-353 | A handle not stored under its type is fatal; the same context object leaves the table as it is; a different one is stored under its own type |
| TriggerSubsystem.GameplayTriggerSubsystem.RemoveActiveTrigger_Internal | Source/OGGameplayTrigger/Private/OGGameplayTriggerSubsystem.cpp:355-363 | The handle is erased from the bucket of its type; if it is not there, the failure is fatal |
| TriggerSubsystem.GameplayTriggerSubsystem.EnqueueAndProcessOperation | Source/OGGameplayTrigger/Private/OGGameplayTriggerSubsystem.cpp:233-259 | With a non-empty queue it only enqueues and nothing else changes. With an empty queue it drains and, unless the process stopped, the operation is the first processed, everything enqueued meanwhile is processed in order until the queue is empty or the fuel runs out, and the active table is the old one with the processed operations applied in that order; what the operation did to its trigger stands unless a later processed operation undid it |
| TriggerSubsystem.GameplayTriggerSubsystem.DrainQueue | Source/OGGameplayTrigger/Private/OGGameplayTriggerSubsystem.cpp:240-258 | The loop runs until the queue is empty, the process stops or the fuel runs out; unless the process stopped, the active table is the fold of the operations processed so far, in order |
| TriggerSubsystem.GameplayTriggerSubsystem.DrainSettles | Source/OGGameplayTrigger/Private/OGGameplayTriggerSubsystem.cpp:235-241 | The first operation a drain processes is the one whose enqueue started it, and its effect on its trigger lasts unless a later processed operation undoes it |
| TriggerSubsystem.GameplayTriggerSubsystem.DrainStep | Source/OGGameplayTrigger/Private/OGGameplayTriggerSubsystem.cpp:241-257 | One round: the staged additions, then removals, are applied to the listener table, no removal failing; the active table becomes the operation's effect on it, or the process stops exactly when that effect is a failed lookup; the operation is then recorded as processed, extending the drain's fold by one; and the callbacks run as a fan-out over the staged table, recorded in the invocation log |
| TriggerSubsystem.GameplayTriggerSubsystem.StageAndProcess | Source/OGGameplayTrigger/Private/OGGameplayTriggerSubsystem.cpp:243-255 | Every staged listener change takes effect before any callback runs, and the operation's callbacks fan out over the staged table; the active table changes as for `ProcessTriggerOperation`, and one unit of fuel is spent |
| TriggerSubsystem.GameplayTriggerSubsystem.ProcessTriggerOperation | Source/OGGameplayTrigger/Private/OGGameplayTriggerSubsystem.cpp:261-295 | The table changes as the operation's add, update and remove bits say, and the process stops exactly when the lookup fails. Listeners are fanned out with the phase mask and the right context, each invocation recorded in the log in order. The operation stays queued throughout |
| TriggerSubsystem.GameplayTriggerSubsystem.ApplyAddOrUpdate | Source/OGGameplayTrigger/Private/OGGameplayTriggerSubsystem.cpp:263-278 | Add stores the carried context, update replaces a different context object, any other operation looks the trigger up; the result is the context the callbacks see |
| TriggerSubsystem.GameplayTriggerSubsystem.ProcessTriggerCallbacks | Source/OGGameplayTrigger/Private/OGGameplayTriggerSubsystem.cpp:297-318 | Each listener that was live in the context type's bucket when the fan-out began is invoked exactly once iff it is valid and accepts the phase and the trigger, and each invocation is an entry of the invocation log, in order; no listener issued before the fan-out has any other entry in the log, so none is invoked twice; every invalid one is staged for removal; the live tables are untouched, so staged changes wait |
| TriggerSubsystem.GameplayTriggerSubsystem.NotifyListener | Source/OGGameplayTrigger/Private/OGGameplayTriggerSubsystem.cpp:302-316 | One listener is invoked iff it is valid and accepts, and then the first entry the call adds to the invocation log is that invocation and every later entry names a listener issued during the call; otherwise the log is unchanged, and an invalid listener is staged for removal |
| TriggerSubsystem.GameplayTriggerSubsystem.RunCallback | Source/OGGameplayTrigger/Private/OGGameplayTriggerSubsystem.cpp:309 | A bound callback is invoked: its invocation is the next entry of the log; the requests it then runs invoke only listeners registered before it or issued during it (inside a drain, only the latter) and keep the invariant; an unbound callback changes nothing |
| TriggerSubsystem.GameplayTriggerSubsystem.Perform | Source/OGGameplayTrigger/Public/OGGameplayTriggerSubsystem.h:44-51 | Any dispatcher call a callback makes keeps the invariant, and inside a drain it changes no live table |
| TriggerSubsystem.GameplayTriggerSubsystem.AddToTriggerData | Source/OGGameplayTrigger/Public/OGGameplayTriggerSubsystem.h:84-90 | Getting an update context, changing its data and updating the trigger keeps the invariant. Inside a drain it changes no live table and invokes no listener; it queues one Update. For a trigger with nothing queued, the stored context's own data bank gets the added value in place at once. For a trigger with a queued Add or Update, a fresh copy of the newest queued context gets it and is the one queued. For an invalid, inactive or pending-removed handle nothing changes |
| TriggerSubsystem.GameplayTriggerSubsystem.StartTrigger_Internal | Source/OGGameplayTrigger/Private/OGGameplayTriggerSubsystem.cpp:161-167 | A fresh handle is stamped with the context's type. Inside a drain only its operation is queued, and contexts, tables and staging are unchanged: the trigger is not yet active but is active-or-pending unless the operation also removes it. Otherwise it is drained at once, and an added trigger is active afterwards unless a later processed operation removed it |
| TriggerSubsystem.GameplayTriggerSubsystem.CreateNewTriggerHandle | Source/OGGameplayTrigger/Private/OGGameplayTriggerSubsystem.cpp:177-183 | A fresh trigger handle with the next id and the given type, not yet active |
| TriggerSubsystem.GameplayTriggerSubsystem.CreateNewListenerHandle | Source/OGGameplayTrigger/Private/OGGameplayTriggerSubsystem.cpp:169-175 | A fresh listener handle with the next id and the given type |
| TriggerSubsystem.GameplayTriggerSubsystem.StartTrigger | Source/OGGameplayTrigger/Private/OGGameplayTriggerSubsystem.cpp:144-147 | Enqueues an Open operation with the given context: queued alone inside a drain; drained otherwise, leaving the trigger active unless a processed operation ended it |
| TriggerSubsystem.GameplayTriggerSubsystem.InstantaneousTrigger | Source/OGGameplayTrigger/Private/OGGameplayTriggerSubsystem.cpp:133-136 | Enqueues an instantaneous operation with the given context: queued alone inside a drain; drained otherwise, leaving the trigger inactive unless a processed operation re-added it |
| TriggerSubsystem.GameplayTriggerSubsystem.StartTriggerImplicitContext | Source/OGGameplayTrigger/Private/OGGameplayTriggerSubsystem.cpp:149-153 | Appends a new context with exactly the given type, tags, initiator and target (and, inside a drain, empty data), and enqueues an Open operation carrying it |
| TriggerSubsystem.GameplayTriggerSubsystem.InstantaneousTriggerImplicitContext | Source/OGGameplayTrigger/Private/OGGameplayTriggerSubsystem.cpp:138-142 | Appends a new context with exactly the given type, tags, initiator and target (and, inside a drain, empty data), and enqueues an instantaneous operation carrying it |
| TriggerSubsystem.GameplayTriggerSubsystem.UpdateTrigger | Source/OGGameplayTrigger/Private/OGGameplayTriggerSubsystem.cpp:155-159 | Enqueues an Update operation carrying the new context; inside a drain nothing else changes |
| TriggerSubsystem.GameplayTriggerSubsystem.EndTrigger | Source/OGGameplayTrigger/Private/OGGameplayTriggerSubsystem.cpp:185-189 | Enqueues a Close operation; inside a drain nothing else changes; drained at once, the trigger is inactive afterwards unless a processed operation re-added it |
| TriggerSubsystem.GameplayTriggerSubsystem.RemoveTriggerListener | Source/OGGameplayTrigger/Private/OGGameplayTriggerSubsystem.cpp:126-131 | A valid handle is staged for removal; an invalid one changes nothing |
| TriggerSubsystem.GameplayTriggerSubsystem.FireOne | Source/OGGameplayTrigger/Private/OGGameplayTriggerSubsystem.cpp:111-118 | The new listener's callback is invoked for one trigger, with phase Start, iff the listener accepts it; the invocation is the next log entry, and every later entry names a listener registered before the call or issued during it, never the new listener; otherwise nothing changes |
| TriggerSubsystem.GameplayTriggerSubsystem.FireForExisting | Source/OGGameplayTrigger/Private/OGGameplayTriggerSubsystem.cpp:109-119 | The callback is invoked immediately, with phase Start and each trigger's own context, once for each active trigger the listener accepts and for no other, each invocation an entry of the log in order, and the new listener has no other entry in the log; nothing runs and nothing changes for a listener without Start |
| TriggerSubsystem.GameplayTriggerSubsystem.FireNext | Source/OGGameplayTrigger/Private/OGGameplayTriggerSubsystem.cpp:111-118 | One round of the fire-for-existing loop: the trigger is fired for exactly when it is a target, the run of invocations stays free of repeats, and the new listener appears in the log only at the recorded positions |
| TriggerSubsystem.GameplayTriggerSubsystem.StageListener | Source/OGGameplayTrigger/Private/OGGameplayTriggerSubsystem.cpp:121 | The new listener is staged for addition under its handle |
| TriggerSubsystem.GameplayTriggerSubsystem.FireThenStage | Source/OGGameplayTrigger/Private/OGGameplayTriggerSubsystem.cpp:109-121 | Fire-for-existing runs, only when asked for, over the triggers of the type active when it begins, and then the listener is staged for addition; without the flag or without Start nothing runs and only the staging area and the registered set change |
| TriggerSubsystem.GameplayTriggerSubsystem.RegisterTriggerListener | Source/OGGameplayTrigger/Private/OGGameplayTriggerSubsystem.cpp:94-124 | An unbound callback gives the empty handle and changes nothing. Otherwise a fresh handle is made and the listener is staged for addition, not made live. Fire-for-existing invokes exactly the accepted active triggers of the type, with phase Start, as entries of the invocation log, and the new listener has no other entry; without it, or without Start, nothing runs: the log, the fatal flag, the fuel, the contexts, the queue and the tables are unchanged and the handle counter advances by one |
| TriggerHandles.IsActiveMeansStored | Source/OGGameplayTrigger/Private/OGGameplayTriggerTypes.cpp:9-17 | A trigger handle is active iff it is valid and stored under its type; the empty handle never is |
| TriggerHandles.ResetTriggerHandle | Source/OGGameplayTrigger/Private/OGGameplayTriggerTypes.cpp:19-28 | An active trigger is ended through the dispatcher (inside a drain only its Close is queued and contexts, tables, staging, fuel and histories are unchanged) and an inactive one changes nothing; the handle becomes the empty, invalid handle, so a second reset changes nothing |
| TriggerHandles.ResetListenerHandle | Source/OGGameplayTrigger/Private/OGGameplayTriggerTypes.cpp:31-46 | A valid listener is staged for removal and becomes invalid, and an invalid one changes nothing; the handle becomes the empty, invalid handle, so a second reset changes nothing |

## Left out

- Network replication is not modelled:
  - the empty network-RPC branch of `ProcessTriggerOperation`;
  - `ReplicatedTriggers`;
  - `IsTriggerTypeReplicated`, which is constantly false, so that list is
    never touched;
  - `GetLifetimeReplicatedProps`;
  - the net-serializer traits of the data bank.
- The engine object model is not modelled: `Get`, `NewObject`, garbage
  collection and strong and weak object pointers. A weak pointer is an
  object id checked against the set of destroyed objects. A handle's weak
  pointer to its dispatcher is a flag. `DestroyObject` stands for the
  engine destroying an object.
- Gameplay tags are opaque values with a validity bit, and tag containers
  are sets. The polymorphic data bank is a map from keys to integers. The
  bank is kept beside the context rather than inside it.
- A context's type, tags, initiator and target never change after it is
  made. A caller writing those fields of a context in place is not
  modelled; writing its data bank is.
- A null context passed to `StartTrigger` or `UpdateTrigger` is not
  modelled. In the model every context reference names an allocated
  context.
- `FOGHandleBase` is not part of this model. Its id generator is a counter
  that yields fresh non-zero ids, and handles compare and hash as whole
  values.
- The `WhenListenerRemoved` promise is handed out but never fulfilled in the
  source, so it is left out. The task wrapper `OGWhenGameplayTriggerTask`
  is left out too.
- Predicate filters are left out, since `DoesTriggerPassListenerFilters` is
  constantly true. The non-fatal `ensure` messages are left out.
- Callbacks are finite scripts of dispatcher requests. The requests are
  start a trigger, instantaneous trigger, add to a trigger's data through
  an update context, end, register and unregister. Arbitrary game code in a
  callback is not modelled.
- The dispatcher carries `budget`, a bound on how many operations it
  processes in its lifetime, so that reentrant draining terminates. It
  also carries `halted`, which stands for the process stopping on a failed
  `FindChecked`. Entry points require that the process has not stopped.
- EnqueueAndProcessOperation: the promise that the drain empties the queue
  is stated only while the budget lasts and the process has not stopped.
  The data banks of contexts are not stated after a drain, since callbacks
  may write them. When the call only enqueues (the queue was not empty)
  they are unchanged, and the implicit-context entry points promise an
  empty bank for the context they add only in that case.
- RegisterTriggerListener: fire-for-existing iterates a snapshot of the
  type's active triggers taken before the first callback. The source
  iterates the live bucket, which a callback run outside a drain could
  change while it is being iterated.
- ProcessTriggerCallbacks: the order in which listeners of a bucket are
  invoked is not stated, because map iteration order is unspecified. Only
  who is invoked, and how often, is stated.
- RunCallback: the contract states the logged invocation and the
  invariants a script keeps, not the combined effect of its requests.
- Perform: the contract states the invariants a request keeps, not the
  combined effect of the entry point it calls.
- AddToTriggerData: outside a drain the contract states the invariants
  kept, not the combined effect of the calls it makes, since the drain
  that follows runs callbacks.
