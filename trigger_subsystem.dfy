/** `UOGGameplayTriggerSubsystem`: the trigger dispatcher. It keeps the
    active triggers and the live listeners by trigger type, stages listener
    changes, and drains a queue of trigger operations, running listener
    callbacks as it goes. Callbacks may call back into the dispatcher. */
module TriggerSubsystem {
  import opened TriggerTypes
  import opened TriggerListeners
  import opened ListenerTables
  import opened TriggerOperations

  /** One callback invocation: which listener ran, for which trigger, with
      which phase mask and which context object. */
  datatype Invocation = Invocation(listener: ListenerHandle, trigger: TriggerHandle, phase: Flags, context: CtxId)

  /** The listeners invoked by a run of invocations. */
  function ListenersOf(entries: seq<Invocation>): set<ListenerHandle> {
    if entries == [] then {}
    else ListenersOf(entries[..|entries| - 1]) + {entries[|entries| - 1].listener}
  }

  /** The triggers a run of invocations was for. */
  function TriggersOf(entries: seq<Invocation>): set<TriggerHandle> {
    if entries == [] then {}
    else TriggersOf(entries[..|entries| - 1]) + {entries[|entries| - 1].trigger}
  }

  /** The invocations of one fan-out: each for the given trigger, phase and
      context, every recipient exactly once, and nobody else. */
  ghost predicate FanOut(entries: seq<Invocation>, trigger: TriggerHandle, phase: Flags, c: CtxId, recipients: set<ListenerHandle>) {
    && (forall i | 0 <= i < |entries| :: entries[i].trigger == trigger && entries[i].phase == phase && entries[i].context == c)
    && (forall i, j | 0 <= i < j < |entries| :: entries[i].listener != entries[j].listener)
    && ListenersOf(entries) == recipients
  }

  /** Part way through a fan-out: the invocations so far are for the given
      trigger, phase and context, no listener twice, and they reached
      exactly the recipients no longer `remaining`. */
  ghost predicate FanOutSoFar(entries: seq<Invocation>, trigger: TriggerHandle, phase: Flags, c: CtxId,
                              recipients: set<ListenerHandle>, remaining: set<ListenerHandle>) {
    && (forall i | 0 <= i < |entries| ::
          entries[i].trigger == trigger && entries[i].phase == phase && entries[i].context == c &&
          entries[i].listener !in remaining)
    && (forall i, j | 0 <= i < j < |entries| :: entries[i].listener != entries[j].listener)
    && ListenersOf(entries) == recipients - remaining
  }

  /** Visiting one more listener of the bucket, invoking it exactly when it
      is a recipient, keeps the fan-out on track. */
  lemma FanOutStep(entries: seq<Invocation>, trigger: TriggerHandle, phase: Flags, c: CtxId,
                   recipients: set<ListenerHandle>, remaining: set<ListenerHandle>, l: ListenerHandle, called: bool)
    requires FanOutSoFar(entries, trigger, phase, c, recipients, remaining)
    requires l in remaining && (called <==> l in recipients)
    ensures FanOutSoFar(if called then entries + [Invocation(l, trigger, phase, c)] else entries,
                        trigger, phase, c, recipients, remaining - {l})
  {
    if called {
      var e := entries + [Invocation(l, trigger, phase, c)];
      assert e[..|entries|] == entries;
      assert ListenersOf(e) == ListenersOf(entries) + {l};
    }
  }

  /** A fan-out that has visited the whole bucket is complete. */
  lemma FanOutDone(entries: seq<Invocation>, trigger: TriggerHandle, phase: Flags, c: CtxId, recipients: set<ListenerHandle>)
    requires FanOutSoFar(entries, trigger, phase, c, recipients, {})
    ensures FanOut(entries, trigger, phase, c, recipients)
  {
    assert recipients - {} == recipients;
  }

  /** Part way through fire-for-existing: the invocations so far are for the
      listener `r`, with phase Start and the snapshot's context, no trigger
      twice, and they reached exactly the targets no longer `remaining`. */
  ghost predicate FiredSoFar(entries: seq<Invocation>, r: ListenerHandle, snapshot: ActiveBucket,
                             targets: set<TriggerHandle>, remaining: set<TriggerHandle>) {
    && FiredForExisting(entries, r, snapshot, targets)
    && (forall i | 0 <= i < |entries| :: entries[i].trigger !in remaining)
    && TriggersOf(entries) == targets - remaining
  }

  /** Visiting one more trigger of the snapshot, firing exactly when it is a
      target, keeps fire-for-existing on track. */
  lemma FiredStep(entries: seq<Invocation>, r: ListenerHandle, snapshot: ActiveBucket,
                  targets: set<TriggerHandle>, remaining: set<TriggerHandle>, th: TriggerHandle, called: bool)
    requires FiredSoFar(entries, r, snapshot, targets, remaining)
    requires th in remaining && th in snapshot && (called <==> th in targets)
    ensures FiredSoFar(if called then entries + [Invocation(r, th, TriggerStart, snapshot[th])] else entries,
                       r, snapshot, targets, remaining - {th})
  {
    if called {
      var e := entries + [Invocation(r, th, TriggerStart, snapshot[th])];
      assert e[..|entries|] == entries;
      assert TriggersOf(e) == TriggersOf(entries) + {th};
    }
  }

  /** The active triggers of a snapshot bucket that a new listener accepts
      for the Start phase. */
  function FireForExistingTargets(snapshot: ActiveBucket, l: ListenerData, contexts: seq<TriggerContext>,
                                  destroyed: set<ObjectId>): set<TriggerHandle> {
    set th | th in snapshot && snapshot[th] < |contexts| &&
             ShouldListenerProcessTrigger(l, TriggerStart, contexts[snapshot[th]], destroyed)
  }

  /** A listener that does not listen for Start fires for no existing
      trigger, however the snapshot looks. */
  lemma NothingFiredWithoutStart(entries: seq<Invocation>, r: ListenerHandle, snapshot: ActiveBucket, l: ListenerData,
                                 contexts: seq<TriggerContext>, destroyed: set<ObjectId>)
    requires !Has(l.listenerPhases, TriggerStart)
    requires FiredForExisting(entries, r, snapshot, FireForExistingTargets(snapshot, l, contexts, destroyed))
    ensures FireForExistingTargets(snapshot, l, contexts, destroyed) == {}
    ensures entries == []
  {
    var targets := FireForExistingTargets(snapshot, l, contexts, destroyed);
    assert targets == {};
    FiredOnlyTargets(entries, r, snapshot, targets);
    NoTriggersNoEntries(entries);
  }

  /** Fire-for-existing invokes for targets only. */
  lemma {:induction false} FiredOnlyTargets(entries: seq<Invocation>, r: ListenerHandle, snapshot: ActiveBucket, targets: set<TriggerHandle>)
    requires FiredForExisting(entries, r, snapshot, targets)
    ensures TriggersOf(entries) <= targets
  {
    if entries != [] {
      FiredOnlyTargets(entries[..|entries| - 1], r, snapshot, targets);
    }
  }

  lemma NoTriggersNoEntries(entries: seq<Invocation>)
    ensures TriggersOf(entries) == {} <==> entries == []
  {
  }

  /** The invocations fire-for-existing made for the new listener `r`: phase
      Start, each for a target with the context the snapshot holds for it,
      no target twice. */
  ghost predicate FiredForExisting(entries: seq<Invocation>, r: ListenerHandle, snapshot: ActiveBucket, targets: set<TriggerHandle>) {
    && (forall i | 0 <= i < |entries| ::
          entries[i].listener == r && entries[i].phase == TriggerStart && entries[i].trigger in targets &&
          entries[i].trigger in snapshot && entries[i].context == snapshot[entries[i].trigger])
    && (forall i, j | 0 <= i < j < |entries| :: entries[i].trigger != entries[j].trigger)
  }

  /** `entries` stand in `log`, in order, at the increasing positions `at`,
      none before `start`. */
  ghost predicate LoggedAt(log: seq<Invocation>, start: nat, entries: seq<Invocation>, at: seq<nat>) {
    && |at| == |entries|
    && (forall i | 0 <= i < |at| :: LoggedEntry(log, start, at[i], entries[i]))
    && (forall i, j | 0 <= i < j < |at| :: at[i] < at[j])
  }

  ghost predicate LoggedEntry(log: seq<Invocation>, start: nat, k: nat, e: Invocation) {
    start <= k < |log| && log[k] == e
  }

  /** A growing log keeps every entry where it was. */
  lemma LoggedAtGrows(log: seq<Invocation>, log': seq<Invocation>, start: nat, entries: seq<Invocation>, at: seq<nat>)
    requires LoggedAt(log, start, entries, at) && log <= log'
    ensures LoggedAt(log', start, entries, at)
  {
    forall i | 0 <= i < |at| ensures LoggedEntry(log', start, at[i], entries[i]) {
      assert LoggedEntry(log, start, at[i], entries[i]);
    }
  }

  /** The first entry a call appends extends the run. */
  lemma LoggedAtStep(log: seq<Invocation>, log': seq<Invocation>, start: nat, entries: seq<Invocation>, at: seq<nat>, e: Invocation)
    requires LoggedAt(log, start, entries, at) && start <= |log|
    requires log + [e] <= log'
    ensures LoggedAt(log', start, entries + [e], at + [|log|])
  {
    assert log'[|log|] == (log + [e])[|log|] == e;
    assert log <= log' by {
      assert log'[..|log|] == (log + [e])[..|log|] == log;
    }
    LoggedAtGrows(log, log', start, entries, at);
    forall i | 0 <= i < |at| ensures at[i] < |log| {
      assert LoggedEntry(log, start, at[i], entries[i]);
    }
  }

  /** Every entry of `log` from position `start` on invokes a listener of
      `known`, or one whose handle was issued at or after `newFrom`. */
  ghost predicate InvokesOnly(log: seq<Invocation>, start: nat, known: set<ListenerHandle>, newFrom: HandleId) {
    forall k | start <= k < |log| :: log[k].listener in known || newFrom <= log[k].listener.id
  }

  /** A call that began at position `|log|`, when every listener it knew
      (`known'`) was already known or issued from `newFrom` on, and that
      invoked only those or listeners issued during it, keeps the run from
      `start` within `known` and `newFrom`. */
  lemma InvokesOnlyThen(log: seq<Invocation>, log': seq<Invocation>, start: nat, known: set<ListenerHandle>, newFrom: HandleId,
                        known': set<ListenerHandle>, newFrom': HandleId)
    requires log <= log' && InvokesOnly(log, start, known, newFrom) && InvokesOnly(log', |log|, known', newFrom')
    requires newFrom <= newFrom' && forall h | h in known' :: h in known || newFrom <= h.id
    ensures InvokesOnly(log', start, known, newFrom)
  {
    forall k | start <= k < |log'| ensures log'[k].listener in known || newFrom <= log'[k].listener.id {
      if k < |log| {
        assert log'[k] == log[k];
      }
    }
  }

  /** The same, for a call whose own first entry `e` is known. */
  lemma InvokesOnlyAfterOwn(log: seq<Invocation>, log': seq<Invocation>, start: nat, known: set<ListenerHandle>, newFrom: HandleId,
                            e: Invocation, known': set<ListenerHandle>, newFrom': HandleId)
    requires log + [e] <= log' && InvokesOnly(log, start, known, newFrom) && (e.listener in known || newFrom <= e.listener.id)
    requires InvokesOnly(log', |log| + 1, known', newFrom')
    requires newFrom <= newFrom' && forall h | h in known' :: h in known || newFrom <= h.id
    ensures InvokesOnly(log', start, known, newFrom)
  {
    forall k | start <= k < |log'| ensures log'[k].listener in known || newFrom <= log'[k].listener.id {
      if k < |log| {
        assert log'[k] == (log + [e])[k] == log[k];
      } else if k == |log| {
        assert log'[k] == (log + [e])[k] == e;
      }
    }
  }

  /** A call whose own first entry `e` stands at position `|log|` and that
      then invoked only listeners of `known` or issued from `newFrom` on
      invoked no other listener `e.listener` after it, so where the run
      from `start` had every entry naming that listener at a position of
      `at`, it still does with the new position added. */
  lemma OnlyOwnEntryNames(log: seq<Invocation>, log': seq<Invocation>, start: nat, at: seq<nat>, e: Invocation,
                          known: set<ListenerHandle>, newFrom: HandleId)
    requires log + [e] <= log' && start <= |log|
    requires forall k | start <= k < |log| && log[k].listener == e.listener :: k in at
    requires InvokesOnly(log', |log| + 1, known, newFrom) && e.listener !in known && e.listener.id < newFrom
    ensures forall k | start <= k < |log'| && log'[k].listener == e.listener :: k in at + [|log|]
  {
    forall k | start <= k < |log'| && log'[k].listener == e.listener ensures k in at + [|log|] {
      if k < |log| {
        assert log'[k] == (log + [e])[k] == log[k];
      }
    }
  }

  /** A call whose own first entry `e` stands at position `|log|` and that
      then invoked only listeners issued from `newFrom` on invoked no
      listener issued before `bound` after it, so where the run from
      `start` had every entry naming such a listener at a position of `at`,
      it still does with the new position added. */
  lemma OnlyOwnEntryOlder(log: seq<Invocation>, log': seq<Invocation>, start: nat, at: seq<nat>, e: Invocation,
                          bound: HandleId, newFrom: HandleId)
    requires log + [e] <= log' && start <= |log| && bound <= newFrom
    requires forall k | start <= k < |log| && log[k].listener.id < bound :: k in at
    requires InvokesOnly(log', |log| + 1, {}, newFrom)
    ensures forall k | start <= k < |log'| && log'[k].listener.id < bound :: k in at + [|log|]
  {
    forall k | start <= k < |log'| && log'[k].listener.id < bound ensures k in at + [|log|] {
      if k < |log| {
        assert log'[k] == (log + [e])[k] == log[k];
      }
    }
  }

  /** A run within `known` and `newFrom` is within any wider bounds. */
  lemma InvokesOnlyWeaken(log: seq<Invocation>, start: nat, known: set<ListenerHandle>, newFrom: HandleId,
                          known': set<ListenerHandle>, newFrom': HandleId)
    requires InvokesOnly(log, start, known, newFrom) && newFrom' <= newFrom
    requires forall h | h in known :: h in known' || newFrom' <= h.id
    ensures InvokesOnly(log, start, known', newFrom')
  {
  }

  /** The log of fire-for-existing for the new listener `r` so far: its
      invocations `fired` stand at positions `at`, `r` is invoked nowhere
      else, and every other listener invoked was `known` or issued from
      `newFrom` on (only the latter inside a drain). */
  ghost predicate FiredLog(log: seq<Invocation>, start: nat, fired: seq<Invocation>, at: seq<nat>, r: ListenerHandle,
                           known: set<ListenerHandle>, newFrom: HandleId, inDrain: bool) {
    && LoggedAt(log, start, fired, at)
    && (forall k | start <= k < |log| && log[k].listener == r :: k in at)
    && InvokesOnly(log, start, known + {r}, newFrom)
    && (inDrain ==> InvokesOnly(log, start, {r}, newFrom))
  }

  /** One more invocation `e` of `r`, after which the call invoked only
      listeners it knew (`known'`, without `r`) or issued from `newFrom'`
      on, keeps the log of fire-for-existing on track. */
  lemma FiredLogStep(log: seq<Invocation>, log': seq<Invocation>, start: nat, fired: seq<Invocation>, at: seq<nat>,
                     r: ListenerHandle, known: set<ListenerHandle>, newFrom: HandleId, inDrain: bool,
                     e: Invocation, known': set<ListenerHandle>, newFrom': HandleId)
    requires FiredLog(log, start, fired, at, r, known, newFrom, inDrain) && start <= |log|
    requires e.listener == r && log + [e] <= log'
    requires InvokesOnly(log', |log| + 1, known', newFrom')
    requires inDrain ==> InvokesOnly(log', |log| + 1, {}, newFrom')
    requires newFrom <= newFrom' && r !in known' && r.id < newFrom'
    requires forall h | h in known' :: h in known || newFrom <= h.id
    ensures FiredLog(log', start, fired + [e], at + [|log|], r, known, newFrom, inDrain)
  {
    InvokesOnlyAfterOwn(log, log', start, known + {r}, newFrom, e, known', newFrom');
    if inDrain {
      InvokesOnlyAfterOwn(log, log', start, {r}, newFrom, e, {}, newFrom');
    }
    LoggedAtStep(log, log', start, fired, at, e);
    OnlyOwnEntryNames(log, log', start, at, e, known', newFrom');
  }

  /** The run processed since `start` grows by the operation appended. */
  lemma SliceOfAppend(p: seq<PendingOp>, p': seq<PendingOp>, start: nat, op: PendingOp)
    requires p' == p + [op] && start <= |p|
    ensures p'[start..] == p[start..] + [op]
  {
  }

  /** A drain processed `ops`, in order, beginning with `op`, and left the
      active table `active`: what `op` did to its own trigger still stands
      unless a later operation of the run undid it. */
  predicate Settled(ops: seq<PendingOp>, op: PendingOp, active: ActiveTable) {
    && ops != [] && ops[0] == op
    && (AddsHandle(op, op.handle) && !RemovesHandle(op, op.handle) && NoLaterRemove(ops, op.handle) ==> ActiveIn(active, op.handle))
    && (RemovesHandle(op, op.handle) && NoLaterAdd(ops, op.handle) ==> !ActiveIn(active, op.handle))
  }

  /** No operation after the first of `ops` removes `h`. */
  predicate NoLaterRemove(ops: seq<PendingOp>, h: TriggerHandle) {
    forall i | 0 < i < |ops| :: !RemovesHandle(ops[i], h)
  }

  /** No operation after the first of `ops` adds `h`. */
  predicate NoLaterAdd(ops: seq<PendingOp>, h: TriggerHandle) {
    forall i | 0 < i < |ops| :: !AddsHandle(ops[i], h)
  }

  /** A queued operation is well formed: an Add or Update carries an
      allocated context, and an Add is for a handle issued here whose type
      is its context's type. */
  predicate WellFormedOp(op: PendingOp, contexts: seq<TriggerContext>, nextId: HandleId) {
    && CarriesContext(op, contexts)
    && (Has(op.operation, OpAddActiveTrigger) ==>
          contexts[op.storedContext.value].triggerType == op.handle.triggerType && op.handle.id < nextId)
  }

  predicate QueueWellFormed(q: seq<PendingOp>, contexts: seq<TriggerContext>, nextId: HandleId) {
    forall i | 0 <= i < |q| :: WellFormedOp(q[i], contexts, nextId)
  }

  /** An active entry holds an allocated context and a handle issued here. */
  predicate ActiveEntryOk(c: CtxId, h: TriggerHandle, contextCount: nat, nextId: HandleId) {
    c < contextCount && h.id < nextId
  }

  /** Every entry of the active table is. */
  ghost predicate ActiveWellFormed(active: ActiveTable, contextCount: nat, nextId: HandleId) {
    forall t, h | t in active && h in active[t] :: ActiveEntryOk(active[t][h], h, contextCount, nextId)
  }

  /** Listeners sit in the bucket of their handle's type, and a staged
      removal names a bucket that exists or a staged addition. */
  ghost predicate ListenersWellFormed(table: ListenerTable, adds: PendingAdds, removes: PendingRemoves) {
    && (forall t, h | t in table && h in table[t] :: h.triggerType == t)
    && (forall h | h in adds :: adds[h].triggerType == h.triggerType)
    && (forall h | h in removes :: h.triggerType in table || h in adds)
  }

  /** Every live or staged listener was registered, and every registered
      handle was issued before `nextId`. */
  ghost predicate ListenersRegistered(table: ListenerTable, adds: PendingAdds, registered: set<ListenerHandle>, nextId: HandleId) {
    && (forall h | h in registered :: h.id < nextId)
    && (forall h | h in adds :: h in registered)
    && (forall t, h | t in table && h in table[t] :: h in registered)
  }

  /** Allocating contexts and handles keeps queued operations well formed. */
  lemma QueueWellFormedGrows(q: seq<PendingOp>, contexts: seq<TriggerContext>, nextId: HandleId,
                             contexts': seq<TriggerContext>, nextId': HandleId)
    requires QueueWellFormed(q, contexts, nextId) && contexts <= contexts' && nextId <= nextId'
    ensures QueueWellFormed(q, contexts', nextId')
  {
    forall i | 0 <= i < |q| ensures WellFormedOp(q[i], contexts', nextId') {
      assert WellFormedOp(q[i], contexts, nextId);
    }
  }

  /** ... and the active table well formed. */
  lemma ActiveWellFormedGrows(active: ActiveTable, contextCount: nat, nextId: HandleId, contextCount': nat, nextId': HandleId)
    requires ActiveWellFormed(active, contextCount, nextId) && contextCount <= contextCount' && nextId <= nextId'
    ensures ActiveWellFormed(active, contextCount', nextId')
  {
  }

  /** Erasing a handle keeps the active table well formed. */
  lemma RemoveKeepsWellFormed(active: ActiveTable, h: TriggerHandle, contextCount: nat, nextId: HandleId)
    requires ActiveWellFormed(active, contextCount, nextId) && RemoveActive(active, h).Some?
    ensures ActiveWellFormed(RemoveActive(active, h).value, contextCount, nextId)
  {
  }

  /** One entry of a well-formed active table. */
  lemma ActiveEntry(active: ActiveTable, contextCount: nat, nextId: HandleId, t: GameplayTag, h: TriggerHandle)
    requires ActiveWellFormed(active, contextCount, nextId) && t in active && h in active[t]
    ensures active[t][h] < contextCount && h.id < nextId
  {
  }

  /** Storing an allocated context for an issued handle keeps the active
      table well formed. */
  lemma PutKeepsWellFormed(active: ActiveTable, t: GameplayTag, h: TriggerHandle, c: CtxId, contextCount: nat, nextId: HandleId)
    requires ActiveWellFormed(active, contextCount, nextId) && c < contextCount && h.id < nextId
    ensures ActiveWellFormed(Put(active, t, h, c), contextCount, nextId)
  {
  }

  class GameplayTriggerSubsystem {
    var listenersByType: ListenerTable
    var activeTriggersByType: ActiveTable
    var listenersPendingAdd: PendingAdds
    var listenersPendingRemove: PendingRemoves
    /** `OperationQueue`: index 0 is the head, where operations are added;
        the last element is the tail, where they are peeked and popped. */
    var operationQueue: seq<PendingOp>

    /** The context objects: a reference is an index. What a context says
        about its occurrence never changes; its data bank may. */
    var contexts: seq<TriggerContext>
    var contextData: seq<TriggerData>
    /** The next handle id `FOGHandleBase::GenerateHandle` gives out. */
    var nextId: HandleId
    /** Engine objects that have been destroyed; weak pointers to them no
        longer resolve. */
    var destroyed: set<ObjectId>
    /** A `FindChecked` failed: the process has stopped. */
    var halted: bool
    /** How many more operations the dispatcher processes in its lifetime. */
    var budget: nat

    /** Every operation ever enqueued, and those processed, in order. */
    ghost var enqueued: seq<PendingOp>
    ghost var processed: seq<PendingOp>
    /** Every callback invocation (`ExecuteIfBound` on a bound callback), in
        the order they happened. */
    ghost var invocations: seq<Invocation>
    /** Every listener handle ever staged for addition. */
    ghost var registered: set<ListenerHandle>

    /** The queue holds, newest first, exactly the enqueued operations not
        yet processed, so operations are processed in enqueue order. */
    ghost predicate QueueInOrder()
      reads this`operationQueue, this`processed, this`enqueued
    {
      && |operationQueue| + |processed| == |enqueued|
      && processed <= enqueued
      && (forall i | 0 <= i < |operationQueue| :: operationQueue[i] == enqueued[|enqueued| - 1 - i])
    }

    ghost predicate Valid()
      reads this`operationQueue, this`processed, this`enqueued, this`contexts, this`contextData, this`nextId,
            this`activeTriggersByType, this`listenersByType, this`listenersPendingAdd, this`listenersPendingRemove,
            this`registered
    {
      && QueueInOrder()
      && QueueWellFormed(operationQueue, contexts, nextId)
      && ActiveWellFormed(activeTriggersByType, |contexts|, nextId)
      && ListenersWellFormed(listenersByType, listenersPendingAdd, listenersPendingRemove)
      && ListenersRegistered(listenersByType, listenersPendingAdd, registered, nextId)
      && |contextData| == |contexts| && nextId > 0
    }

    /** What every dispatcher call keeps: fuel and the handle counter only
        move one way, no object is destroyed, contexts are only added, the
        histories and the invocation log only grow, and so does the set of
        registered listeners, by handles issued during the call only. */
    twostate predicate Grows()
      reads this
    {
      && budget <= old(budget)
      && old(nextId) <= nextId
      && destroyed == old(destroyed)
      && old(contexts) <= contexts
      && old(enqueued) <= enqueued
      && old(processed) <= processed
      && old(invocations) <= invocations
      && old(registered) <= registered
      && (forall h | h in registered :: h in old(registered) || old(nextId) <= h.id)
    }

    /** What a dispatcher call that invokes no listener of its own keeps
        besides: every listener it invoked, directly or through the calls
        its callbacks made, was registered before it began or issued
        during it. */
    twostate predicate Evolves()
      reads this
    {
      && Grows()
      && InvokesOnly(invocations, |old(invocations)|, old(registered), old(nextId))
    }

    /** What a call made while the queue is being drained keeps besides:
        operations are only enqueued, the live tables, the fatal flag and the
        fuel are untouched, and staged removals only grow. */
    twostate predicate DrainFrame()
      reads this
    {
      && operationQueue != []
      && processed == old(processed)
      && listenersByType == old(listenersByType)
      && activeTriggersByType == old(activeTriggersByType)
      && halted == old(halted) && budget == old(budget)
      && old(listenersPendingRemove) <= listenersPendingRemove
    }

    /** A call that found the queue empty enqueued `op` first and returns
        with everything processed, in order, unless it stopped or ran out of
        fuel; the active table is then the old one with the operations it
        processed applied in that order, the first of them being `op`. */
    twostate predicate Drained(op: PendingOp)
      reads this
    {
      && old(enqueued) + [op] <= enqueued
      && (!halted && budget > 0 ==> operationQueue == [] && processed == enqueued)
      && |old(processed)| <= |processed|
      && (!halted ==> ApplyAll(old(activeTriggersByType), processed[|old(processed)|..], contexts) == Some(activeTriggersByType))
      && (!halted && |old(processed)| < |processed| ==> Settled(processed[|old(processed)|..], op, activeTriggersByType))
    }

    /** A request made while the queue is being drained only queued `op`:
        nothing the drain reads or has done changed besides. */
    twostate predicate QueuedOnly(op: PendingOp)
      reads this
    {
      && operationQueue == [op] + old(operationQueue) && enqueued == old(enqueued) + [op]
      && listenersByType == old(listenersByType) && activeTriggersByType == old(activeTriggersByType)
      && listenersPendingAdd == old(listenersPendingAdd) && listenersPendingRemove == old(listenersPendingRemove)
      && halted == old(halted) && budget == old(budget) && processed == old(processed)
      && invocations == old(invocations)
    }

    /** What one drain round did besides the active table: every staged
        listener change took effect before any callback ran (each staged
        removal resolving), and the callbacks of `op` then ran as a fan-out
        over the bucket of that staged table, recorded in the invocation log
        in that order. */
    ghost predicate StagedThenCalledBack(op: PendingOp, invoked: seq<Invocation>, at: seq<nat>,
                                         listeners0: ListenerTable, adds0: PendingAdds, removes0: PendingRemoves,
                                         active0: ActiveTable, contexts0: seq<TriggerContext>, logged0: nat)
      reads this`listenersByType, this`invocations, this`halted, this`destroyed
    {
      && RemovesResolvable(ApplyPendingAdds(listeners0, adds0), removes0)
      && var staged := ApplyPendingRemoves(ApplyPendingAdds(listeners0, adds0), removes0);
      && listenersByType == staged
      && LoggedAt(invocations, logged0, invoked, at)
      && (halted || !Has(op.operation, OpProcessCallbacks) ==> invoked == [])
      && (!halted && Has(op.operation, OpProcessCallbacks) ==>
            var c := OperationContext(active0, op);
            && c.Some? && c.value < |contexts0|
            && FanOut(invoked, op.handle, PhasesOf(op.operation), c.value,
                      Recipients(BucketOf(staged, contexts0[c.value].triggerType), PhasesOf(op.operation),
                                 contexts0[c.value], destroyed)))
    }

    /** 1 while nothing is queued: a call that finds the queue empty drains
        it, which is what the termination measure accounts for. */
    function Idle(): nat
      reads this`operationQueue
    {
      if operationQueue == [] then 1 else 0
    }

    /** A fresh dispatcher that will process at most `fuel` operations. */
    constructor (fuel: nat, gone: set<ObjectId>)
      ensures Valid() && !halted && budget == fuel && destroyed == gone
      ensures listenersByType == map[] && activeTriggersByType == map[] && operationQueue == []
      ensures listenersPendingAdd == map[] && listenersPendingRemove == {} && contexts == []
      ensures enqueued == [] && invocations == [] && registered == {} && nextId == 1
    {
      listenersByType := map[];
      activeTriggersByType := map[];
      listenersPendingAdd := map[];
      listenersPendingRemove := {};
      operationQueue := [];
      contexts := [];
      contextData := [];
      nextId := 1;
      destroyed := gone;
      halted := false;
      budget := fuel;
      enqueued := [];
      processed := [];
      invocations := [];
      registered := {};
    }

    /** The engine destroys an object: weak pointers to it stop resolving,
        so a callback it owns is unbound and a listener filtering on it is
        no longer valid. */
    method DestroyObject(o: ObjectId)
      modifies this`destroyed
      ensures destroyed == old(destroyed) + {o}
      ensures WeakGet(o, destroyed) == None
      ensures forall l: ListenerData | l.instigatorFilter == Some(o) || l.targetFilter == Some(o) || (l.callback.Bound? && l.callback.owner == Some(o)) ::
        !IsListenerValid(l, destroyed)
    {
      destroyed := destroyed + {o};
    }

    // ----- Contexts -----

    /** `MakeGameplayTriggerContext`: a new context object with empty data. */
    method MakeGameplayTriggerContext(triggerType: GameplayTag, tags: set<GameplayTag>,
                                      initiator: Option<ObjectId>, target: Option<ObjectId>) returns (c: CtxId)
      requires Valid()
      modifies this`contexts, this`contextData
      ensures Valid() && c == |old(contexts)|
      ensures contexts == old(contexts) + [TriggerContext(triggerType, tags, initiator, target)]
      ensures contextData == old(contextData) + [map[]]
    {
      c := |contexts|;
      QueueWellFormedGrows(operationQueue, contexts, nextId, contexts + [TriggerContext(triggerType, tags, initiator, target)], nextId);
      ActiveWellFormedGrows(activeTriggersByType, |contexts|, nextId, |contexts| + 1, nextId);
      contexts := contexts + [TriggerContext(triggerType, tags, initiator, target)];
      contextData := contextData + [map[]];
    }

    /** A caller writes one entry of a context's additional data. */
    method SetContextData(c: CtxId, key: DataKey, value: int)
      requires Valid() && c < |contexts|
      modifies this`contextData
      ensures Valid() && |contextData| == |old(contextData)|
      ensures forall k | 0 <= k < |contextData| :: contextData[k] == if k == c then old(contextData)[c][key := value] else old(contextData)[k]
    {
      var bank: TriggerData := contextData[c][key := value];
      contextData := contextData[c := bank];
    }

    /** `GetTriggerContextForUpdate`: scan the queue from the newest
        operation; a removal refuses, an addition or update hands out a fresh
        copy of its context, and with nothing queued the stored context
        itself is handed out for in-place change. */
    method GetTriggerContextForUpdate(h: TriggerHandle) returns (r: Option<CtxId>)
      requires Valid()
      modifies this`contexts, this`contextData
      ensures Valid() && old(contexts) <= contexts
      ensures r.Some? ==> r.value < |contexts|
      ensures match UpdateSourceFor(operationQueue, activeTriggersByType, h)
        case NotFound => r.None? && contexts == old(contexts) && contextData == old(contextData)
        case Refused => r.None? && contexts == old(contexts) && contextData == old(contextData)
        case Live(c) => r == Some(c) && contexts == old(contexts) && contextData == old(contextData)
        case CopyOf(template) =>
          && template.Some? && template.value < |old(contexts)| && r == Some(|old(contexts)|)
          && contexts == old(contexts) + [old(contexts)[template.value]]
          && contextData == old(contextData) + [old(contextData)[template.value]]
    {
      if !TriggerHandleValid(h) {
        return None;
      }
      var i := 0;
      while i < |operationQueue|
        invariant 0 <= i <= |operationQueue|
        invariant forall j | 0 <= j < i :: !Decides(operationQueue[j], h)
      {
        var op := operationQueue[i];
        if op.handle == h {
          if Has(op.operation, OpRemoveActiveTrigger) {
            assert NewestDecidingOp(operationQueue, h) == Some(i);
            return None;
          }
          if Has(op.operation, OpAddActiveTrigger | OpUpdateActiveTrigger) {
            assert NewestDecidingOp(operationQueue, h) == Some(i);
            assert WellFormedOp(op, contexts, nextId);
            // A deep copy of the queued context, so changes to it do not
            // reach the pending operation.
            var template := op.storedContext.value;
            r := Some(|contexts|);
            QueueWellFormedGrows(operationQueue, contexts, nextId, contexts + [contexts[template]], nextId);
            ActiveWellFormedGrows(activeTriggersByType, |contexts|, nextId, |contexts| + 1, nextId);
            contexts := contexts + [contexts[template]];
            contextData := contextData + [contextData[template]];
            return;
          }
        }
        i := i + 1;
      }
      if h.triggerType !in activeTriggersByType {
        return None;
      }
      if h !in activeTriggersByType[h.triggerType] {
        return None;
      }
      return Some(activeTriggersByType[h.triggerType][h]);
    }

    // ----- Queries -----

    /** `IsTriggerActive`: the membership test the queue scans fall back
        on, for valid handles only. */
    predicate IsTriggerActive(h: TriggerHandle): (b: bool)
      reads this`activeTriggersByType
      ensures b <==> TriggerActiveIn(activeTriggersByType, h)
      ensures b ==> h.triggerType in activeTriggersByType && h.id != 0
    {
      if !TriggerHandleValid(h) then false
      else if h.triggerType !in activeTriggersByType then false
      else h in activeTriggersByType[h.triggerType]
    }

    /** With nothing queued, whether a trigger is in the active table is
        also whether it is active or pending. */
    lemma ActiveMeansStored(h: TriggerHandle)
      ensures operationQueue == [] ==> (IsTriggerActive(h) <==> ActiveOrPending(operationQueue, activeTriggersByType, h))
    {
    }

    /** `IsTriggerActiveOrPending`: the newest queued operation that adds,
        updates or removes the trigger decides; otherwise `IsTriggerActive`. */
    method IsTriggerActiveOrPending(h: TriggerHandle) returns (r: bool)
      ensures r == ActiveOrPending(operationQueue, activeTriggersByType, h)
    {
      var i := 0;
      while i < |operationQueue|
        invariant 0 <= i <= |operationQueue|
        invariant forall j | 0 <= j < i :: !Decides(operationQueue[j], h)
      {
        var op := operationQueue[i];
        if op.handle == h {
          if Has(op.operation, OpRemoveActiveTrigger) {
            assert NewestDecidingOp(operationQueue, h) == Some(i);
            return false;
          }
          if Has(op.operation, OpAddActiveTrigger | OpUpdateActiveTrigger) {
            assert NewestDecidingOp(operationQueue, h) == Some(i);
            return true;
          }
        }
        i := i + 1;
      }
      r := IsTriggerActive(h);
    }

    /** `IsListenerHandleValid`: a listener staged for removal is invalid
        even while it is still live; a valid one is staged for addition or
        live under its own type. */
    predicate IsListenerHandleValid(h: ListenerHandle): (b: bool)
      reads this`listenersByType, this`listenersPendingAdd, this`listenersPendingRemove
      ensures h in listenersPendingRemove ==> !b
      ensures b ==> h in listenersPendingAdd || (h.triggerType in listenersByType && h in listenersByType[h.triggerType])
      ensures h !in listenersPendingRemove && h in listenersPendingAdd ==> b
    {
      if h in listenersPendingRemove then false
      else if h in listenersPendingAdd then true
      else if h.triggerType !in listenersByType then false
      else h in listenersByType[h.triggerType]
    }

    /** `IsListenerHandleValid` holds exactly when the listener will be live
        after the next staging step, which the drain runs before the next
        operation. */
    lemma ListenerValidityAnticipatesStaging(h: ListenerHandle)
      requires Valid()
      ensures RemovesResolvable(ApplyPendingAdds(listenersByType, listenersPendingAdd), listenersPendingRemove)
      ensures var staged := ApplyPendingRemoves(ApplyPendingAdds(listenersByType, listenersPendingAdd), listenersPendingRemove);
        IsListenerHandleValid(h) <==> h.triggerType in staged && h in staged[h.triggerType]
    {
      AddsMakeRemovesResolvable(listenersByType, listenersPendingAdd, listenersPendingRemove);
      ValidityAnticipatesStaging(listenersByType, listenersPendingAdd, listenersPendingRemove, h);
    }

    /** `FOGTriggerListenerHandle::IsValid`: a non-empty id, a valid tag, a
        live dispatcher, and the dispatcher vouches for it. */
    predicate ListenerHandleIsValid(h: ListenerHandle): (b: bool)
      reads this`listenersByType, this`listenersPendingAdd, this`listenersPendingRemove
      ensures b ==> IsListenerHandleValid(h) && h != EmptyListenerHandle
    {
      BaseHandleValid(h.id) && h.triggerType.IsValid() && h.subsystemBound && IsListenerHandleValid(h)
    }

    // ----- The operation queue -----

    /** `EnqueueOperation`: add at the head. */
    method EnqueueOperation(op: PendingOp)
      requires Valid() && WellFormedOp(op, contexts, nextId)
      modifies this`operationQueue, this`enqueued
      ensures Valid() && operationQueue == [op] + old(operationQueue) && enqueued == old(enqueued) + [op]
    {
      operationQueue := [op] + operationQueue;
      enqueued := enqueued + [op];
    }

    /** `PeekOperation`: the operation at the tail, which is the oldest one
        not yet processed. */
    method PeekOperation() returns (found: bool, op: PendingOp)
      requires Valid()
      ensures found <==> operationQueue != []
      ensures found ==> op == operationQueue[|operationQueue| - 1] && |processed| < |enqueued| && op == enqueued[|processed|]
    {
      if operationQueue == [] {
        return false, PendingOp(EmptyTriggerHandle, OpNone, None);
      }
      return true, operationQueue[|operationQueue| - 1];
    }

    /** `PopOperation`: drop the tail, which is the oldest operation, once it
        has been processed. */
    method PopOperation()
      requires Valid()
      modifies this`operationQueue, this`processed
      ensures Valid()
      ensures old(operationQueue) == [] ==> operationQueue == [] && processed == old(processed)
      ensures old(operationQueue) != [] ==>
        && operationQueue == old(operationQueue)[..|old(operationQueue)| - 1]
        && processed == old(processed) + [old(operationQueue)[|old(operationQueue)| - 1]]
    {
      if operationQueue == [] {
        return;
      }
      processed := processed + [operationQueue[|operationQueue| - 1]];
      operationQueue := operationQueue[..|operationQueue| - 1];
    }

    // ----- Listener staging -----

    /** `AddTriggerListener_Internal`. */
    method AddTriggerListener_Internal(h: ListenerHandle, l: ListenerData)
      modifies this`listenersByType
      ensures listenersByType == AddListener(old(listenersByType), h, l)
    {
      var bucket := if l.triggerType in listenersByType then listenersByType[l.triggerType] else map[];
      listenersByType := listenersByType[l.triggerType := bucket[h := l]];
    }

    /** `RemoveTriggerListener_Internal`; the bucket must exist. */
    method RemoveTriggerListener_Internal(h: ListenerHandle)
      requires h.triggerType in listenersByType
      modifies this`listenersByType
      ensures listenersByType == RemoveListener(old(listenersByType), h)
    {
      listenersByType := listenersByType[h.triggerType := listenersByType[h.triggerType] - {h}];
    }

    /** The staging step the drain runs before every operation: all staged
        additions, then all staged removals, then both staging areas are
        emptied. */
    method ApplyPendingListenerChanges()
      requires Valid()
      modifies this`listenersByType, this`listenersPendingAdd, this`listenersPendingRemove
      ensures Valid()
      ensures RemovesResolvable(ApplyPendingAdds(old(listenersByType), old(listenersPendingAdd)), old(listenersPendingRemove))
      ensures listenersByType ==
              ApplyPendingRemoves(ApplyPendingAdds(old(listenersByType), old(listenersPendingAdd)), old(listenersPendingRemove))
      ensures listenersPendingAdd == map[] && listenersPendingRemove == {}
    {
      AddsMakeRemovesResolvable(listenersByType, listenersPendingAdd, listenersPendingRemove);
      StagedListenersFiledByType(listenersByType, listenersPendingAdd, listenersPendingRemove);
      StagedListenersRegistered(listenersByType, listenersPendingAdd, listenersPendingRemove, registered, nextId);
      ghost var added := ApplyPendingAdds(listenersByType, listenersPendingAdd);
      ghost var staged := ApplyPendingRemoves(added, listenersPendingRemove);
      StagePendingAdds();
      assert listenersByType == added;
      StagePendingRemoves();
      assert listenersByType == staged;
      assert ListenersWellFormed(listenersByType, listenersPendingAdd, listenersPendingRemove);
    }

    /** Add every staged listener, in any order, then empty the staging
        area. */
    method StagePendingAdds()
      modifies this`listenersByType, this`listenersPendingAdd
      ensures listenersByType == ApplyPendingAdds(old(listenersByType), old(listenersPendingAdd))
      ensures listenersPendingAdd == map[]
    {
      var adds := listenersPendingAdd;
      var remaining := adds.Keys;
      NothingStaged(listenersByType);
      assert adds - remaining == map[];
      while remaining != {}
        invariant remaining <= adds.Keys
        invariant listenersByType == ApplyPendingAdds(old(listenersByType), adds - remaining)
        invariant listenersPendingAdd == adds
        decreases remaining
      {
        var h :| h in remaining;
        ApplyPendingAddsStep(old(listenersByType), adds - (remaining - {h}), h);
        assert adds - (remaining - {h}) - {h} == adds - remaining;
        AddTriggerListener_Internal(h, adds[h]);
        remaining := remaining - {h};
      }
      assert adds - {} == adds;
      listenersPendingAdd := map[];
    }

    /** Remove every staged listener, in any order, then empty the staging
        area. */
    method StagePendingRemoves()
      requires RemovesResolvable(listenersByType, listenersPendingRemove)
      modifies this`listenersByType, this`listenersPendingRemove
      ensures listenersByType == ApplyPendingRemoves(old(listenersByType), old(listenersPendingRemove))
      ensures listenersPendingRemove == {}
    {
      var removes := listenersPendingRemove;
      var toRemove := removes;
      NothingStaged(listenersByType);
      assert removes - toRemove == {};
      while toRemove != {}
        invariant toRemove <= removes
        invariant RemovesResolvable(old(listenersByType), removes - toRemove)
        invariant listenersByType == ApplyPendingRemoves(old(listenersByType), removes - toRemove)
        invariant listenersPendingRemove == removes
        decreases toRemove
      {
        var h :| h in toRemove;
        ApplyPendingRemovesStep(old(listenersByType), removes - (toRemove - {h}), h);
        assert removes - (toRemove - {h}) - {h} == removes - toRemove;
        RemoveTriggerListener_Internal(h);
        toRemove := toRemove - {h};
      }
      assert removes - {} == removes;
      listenersPendingRemove := {};
    }

    /** Staging keeps every listener in the bucket of its handle's type. */
    static lemma StagedListenersFiledByType(table: ListenerTable, adds: PendingAdds, removes: PendingRemoves)
      requires ListenersWellFormed(table, adds, removes)
      requires RemovesResolvable(ApplyPendingAdds(table, adds), removes)
      ensures ListenersWellFormed(ApplyPendingRemoves(ApplyPendingAdds(table, adds), removes), map[], {})
    {
      var staged := ApplyPendingRemoves(ApplyPendingAdds(table, adds), removes);
      forall t: GameplayTag, h: ListenerHandle | t in staged && h in staged[t] ensures h.triggerType == t {
        if h !in adds {
          assert h !in AddsOfType(adds, t);
        }
      }
    }

    /** Staging makes live only listeners that were live or staged, so
        only registered ones. */
    static lemma StagedListenersRegistered(table: ListenerTable, adds: PendingAdds, removes: PendingRemoves,
                                           registered: set<ListenerHandle>, nextId: HandleId)
      requires ListenersRegistered(table, adds, registered, nextId)
      requires RemovesResolvable(ApplyPendingAdds(table, adds), removes)
      ensures ListenersRegistered(ApplyPendingRemoves(ApplyPendingAdds(table, adds), removes), map[], registered, nextId)
    {
      var staged := ApplyPendingRemoves(ApplyPendingAdds(table, adds), removes);
      forall t: GameplayTag, h: ListenerHandle | t in staged && h in staged[t] ensures h in registered {
        if h !in adds {
          assert h !in AddsOfType(adds, t);
        }
      }
    }

    // ----- The active table -----

    /** `AddActiveTrigger_Internal`: store the context under its own type. */
    method AddActiveTrigger_Internal(h: TriggerHandle, c: CtxId)
      requires c < |contexts|
      modifies this`activeTriggersByType
      ensures activeTriggersByType == Put(old(activeTriggersByType), contexts[c].triggerType, h, c)
    {
      var t := contexts[c].triggerType;
      activeTriggersByType := Put(activeTriggersByType, t, h, c);
    }

    /** `UpdateActiveTrigger_Internal`: the handle must be stored under its
        type; a different context object replaces the stored one, filed
        under the new context's type. */
    method UpdateActiveTrigger_Internal(h: TriggerHandle, c: CtxId)
      requires c < |contexts|
      modifies this`activeTriggersByType, this`halted
      ensures halted <==> old(halted) || !ActiveIn(old(activeTriggersByType), h)
      ensures !ActiveIn(old(activeTriggersByType), h) ==> activeTriggersByType == old(activeTriggersByType)
      ensures ActiveIn(old(activeTriggersByType), h) ==>
        activeTriggersByType ==
          if old(activeTriggersByType)[h.triggerType][h] == c then old(activeTriggersByType)
          else Put(old(activeTriggersByType), contexts[c].triggerType, h, c)
    {
      if !ActiveIn(activeTriggersByType, h) {
        halted := true;
        return;
      }
      var current := activeTriggersByType[h.triggerType][h];
      if current != c {
        activeTriggersByType := Put(activeTriggersByType, contexts[c].triggerType, h, c);
      }
    }

    /** `RemoveActiveTrigger_Internal`: the handle must be stored under its
        type, and is erased from that bucket. */
    method RemoveActiveTrigger_Internal(h: TriggerHandle)
      modifies this`activeTriggersByType, this`halted
      ensures halted <==> old(halted) || RemoveActive(old(activeTriggersByType), h).None?
      ensures activeTriggersByType ==
        match RemoveActive(old(activeTriggersByType), h)
        case None => old(activeTriggersByType)
        case Some(a) => a
    {
      if !ActiveIn(activeTriggersByType, h) {
        halted := true;
        return;
      }
      activeTriggersByType := activeTriggersByType[h.triggerType := activeTriggersByType[h.triggerType] - {h}];
    }

    // ----- Processing, with callbacks that call back in -----

    /** `EnqueueAndProcessOperation`: enqueue at the head; only a call that
        found the queue empty drains it, one tail operation at a time, and
        the active table follows the operations it processes, in order. */
    method EnqueueAndProcessOperation(op: PendingOp)
      requires Valid() && !halted && WellFormedOp(op, contexts, nextId)
      modifies this
      decreases budget, Idle(), 0, 0
      ensures Valid() && Evolves()
      ensures old(operationQueue) != [] ==> QueuedOnly(op) && unchanged(this`contexts, this`contextData, this`nextId)
      ensures old(operationQueue) == [] ==> Drained(op)
    {
      var shouldProcess := operationQueue == [];
      EnqueueOperation(op);
      if !shouldProcess {
        return;
      }
      DrainQueue();
      if !halted && |old(processed)| < |processed| {
        DrainSettles(op);
      }
    }

    /** The drain loop: process the operation at the tail, one at a time,
        until the queue is empty, the process stops or the fuel runs out;
        the active table follows the processed operations in order. */
    method DrainQueue()
      requires Valid() && !halted && operationQueue != []
      modifies this
      decreases budget, Idle(), 7, 2
      ensures Valid() && Evolves()
      ensures !halted && budget > 0 ==> operationQueue == [] && processed == enqueued
      ensures !halted ==> ApplyAll(old(activeTriggersByType), processed[|old(processed)|..], contexts) == Some(activeTriggersByType)
    {
      assert processed[|old(processed)|..] == [];
      var found, current := PeekOperation();
      while found && !halted && budget > 0
        invariant Valid() && Evolves()
        invariant found <==> operationQueue != []
        invariant found ==> current == operationQueue[|operationQueue| - 1]
        invariant !halted ==> ApplyAll(old(activeTriggersByType), processed[|old(processed)|..], contexts) == Some(activeTriggersByType)
        decreases budget
      {
        ghost var invoked, at := DrainStep(current, old(activeTriggersByType), |old(processed)|);
        found, current := PeekOperation();
      }
    }

    /** One round of the drain loop: stage the listener changes and process
        the operation at the tail (`StageAndProcess`, which spends one unit
        of fuel), then pop it unless the process stopped. If the active
        table was `start0` with the operations processed since position
        `from` applied in order, it still is. */
    method DrainStep(op: PendingOp, ghost start0: ActiveTable, ghost from: nat) returns (ghost invoked: seq<Invocation>, ghost at: seq<nat>)
      requires Valid() && !halted && budget > 0 && operationQueue != [] && op == operationQueue[|operationQueue| - 1]
      requires from <= |processed| && ApplyAll(start0, processed[from..], contexts) == Some(activeTriggersByType)
      modifies this
      decreases budget, Idle(), 7, 1
      ensures Valid() && Evolves() && budget < old(budget)
      ensures WellFormedOp(op, old(contexts), old(nextId))
      ensures RemovesResolvable(ApplyPendingAdds(old(listenersByType), old(listenersPendingAdd)), old(listenersPendingRemove))
      ensures listenersByType == ApplyPendingRemoves(ApplyPendingAdds(old(listenersByType), old(listenersPendingAdd)), old(listenersPendingRemove))
      ensures halted <==> ApplyOperation(old(activeTriggersByType), op, old(contexts)).None?
      ensures !halted ==> activeTriggersByType == ApplyOperation(old(activeTriggersByType), op, old(contexts)).value
      ensures !halted ==> processed == old(processed) + [op]
      ensures !halted ==> ApplyAll(start0, processed[from..], contexts) == Some(activeTriggersByType)
      ensures StagedThenCalledBack(op, invoked, at, old(listenersByType), old(listenersPendingAdd), old(listenersPendingRemove),
                                   old(activeTriggersByType), old(contexts), |old(invocations)|)
    {
      invoked, at := StageAndProcess(op, start0, from);
      if !halted {
        PopOperation();
        SliceOfAppend(old(processed), processed, from, op);
      }
    }

    /** The first operation a drain processes is the one that started it,
        and its effect on its own trigger lasts unless a later operation of
        the drain undoes it. */
    twostate lemma DrainSettles(op: PendingOp)
      requires old(Valid()) && old(operationQueue) == [] && old(WellFormedOp(op, contexts, nextId))
      requires Valid() && !halted && Evolves() && old(enqueued) + [op] <= enqueued
      requires |old(processed)| < |processed|
      requires ApplyAll(old(activeTriggersByType), processed[|old(processed)|..], contexts) == Some(activeTriggersByType)
      ensures Settled(processed[|old(processed)|..], op, activeTriggersByType)
    {
      var ops := processed[|old(processed)|..];
      assert old(processed) == old(enqueued);
      assert ops[0] == processed[|old(processed)|] == enqueued[|old(enqueued)|] == op;
      if AddsHandle(op, op.handle) && !RemovesHandle(op, op.handle) && NoLaterRemove(ops, op.handle) {
        StartedStaysActive(old(activeTriggersByType), ops, contexts, op.handle);
      }
      if RemovesHandle(op, op.handle) && NoLaterAdd(ops, op.handle) {
        InstantaneousStaysInactive(old(activeTriggersByType), ops, contexts, op.handle);
      }
    }

    /** The work of one round: every staged listener change takes effect
        before any callback runs, then the operation at the tail is
        processed, its callbacks fanning out over the staged table, and
        one unit of fuel is spent. */
    method StageAndProcess(op: PendingOp, ghost start0: ActiveTable, ghost from: nat) returns (ghost invoked: seq<Invocation>, ghost at: seq<nat>)
      requires Valid() && !halted && budget > 0 && operationQueue != [] && op == operationQueue[|operationQueue| - 1]
      requires from <= |processed| && ApplyAll(start0, processed[from..], contexts) == Some(activeTriggersByType)
      modifies this
      decreases budget, Idle(), 6, 0
      ensures Valid() && Evolves()
      ensures WellFormedOp(op, old(contexts), old(nextId))
      ensures halted <==> ApplyOperation(old(activeTriggersByType), op, old(contexts)).None?
      ensures !halted ==> activeTriggersByType == ApplyOperation(old(activeTriggersByType), op, old(contexts)).value
      ensures processed == old(processed) && operationQueue != [] && budget < old(budget)
      ensures !halted ==> ApplyAll(start0, processed[from..] + [op], contexts) == Some(activeTriggersByType)
      ensures StagedThenCalledBack(op, invoked, at, old(listenersByType), old(listenersPendingAdd), old(listenersPendingRemove),
                                   old(activeTriggersByType), old(contexts), |old(invocations)|)
    {
      ApplyPendingListenerChanges();
      invoked, at := ProcessTriggerOperation(op);
      if !halted {
        ApplyAllThenOne(start0, old(processed)[from..], op, old(contexts), contexts, old(activeTriggersByType));
      }
      budget := budget - 1;
    }

    /** `ProcessTriggerOperation` for the operation at the tail: apply its
        addition or update (or look its trigger up), fan out to listeners
        with the operation's phase bits, then apply its removal. A failed
        lookup stops the process before any callback runs. */
    method ProcessTriggerOperation(op: PendingOp) returns (ghost invoked: seq<Invocation>, ghost at: seq<nat>)
      requires Valid() && !halted && operationQueue != [] && op == operationQueue[|operationQueue| - 1]
      modifies this
      decreases budget, Idle(), 5, 0
      ensures Valid() && Evolves() && processed == old(processed) && operationQueue != [] && budget == old(budget)
      ensures listenersByType == old(listenersByType) && old(listenersPendingRemove) <= listenersPendingRemove
      ensures WellFormedOp(op, old(contexts), old(nextId))
      ensures halted <==> ApplyOperation(old(activeTriggersByType), op, old(contexts)).None?
      ensures !halted ==> activeTriggersByType == ApplyOperation(old(activeTriggersByType), op, old(contexts)).value
      ensures LoggedAt(invocations, |old(invocations)|, invoked, at)
      ensures halted || !Has(op.operation, OpProcessCallbacks) ==> invoked == []
      ensures !halted && Has(op.operation, OpProcessCallbacks) ==>
        var c := OperationContext(old(activeTriggersByType), op).value;
        && c < |old(contexts)|
        && FanOut(invoked, op.handle, PhasesOf(op.operation), c,
                  Recipients(BucketOf(old(listenersByType), old(contexts)[c].triggerType), PhasesOf(op.operation),
                             old(contexts)[c], destroyed))
    {
      invoked, at := [], [];
      assert WellFormedOp(op, contexts, nextId);
      var c := ApplyAddOrUpdate(op);
      if halted {
        return;
      }
      if Has(op.operation, OpProcessCallbacks) {
        invoked, at := ProcessTriggerCallbacks(op.handle, PhasesOf(op.operation), c);
      }
      // The NetworkRPC bit asks for nothing here.
      if Has(op.operation, OpRemoveActiveTrigger) {
        RemoveKeepsWellFormed(activeTriggersByType, op.handle, |contexts|, nextId);
        RemoveActiveTrigger_Internal(op.handle);
      }
    }

    /** The first half of `ProcessTriggerOperation`: store the carried
        context of an Add or Update, or look the trigger up, and yield the
        context the callbacks see. */
    method ApplyAddOrUpdate(op: PendingOp) returns (c: CtxId)
      requires Valid() && !halted && WellFormedOp(op, contexts, nextId)
      modifies this`activeTriggersByType, this`halted
      ensures Valid()
      ensures halted <==> AddOrUpdate(old(activeTriggersByType), op, contexts).None?
      ensures halted ==> activeTriggersByType == old(activeTriggersByType)
      ensures !halted ==>
        && activeTriggersByType == AddOrUpdate(old(activeTriggersByType), op, contexts).value
        && ActiveIn(activeTriggersByType, op.handle)
        && OperationContext(old(activeTriggersByType), op) == Some(c) && c < |contexts|
    {
      if Has(op.operation, OpAddActiveTrigger) {
        c := op.storedContext.value;
        PutKeepsWellFormed(activeTriggersByType, contexts[c].triggerType, op.handle, c, |contexts|, nextId);
        AddActiveTrigger_Internal(op.handle, c);
      } else if Has(op.operation, OpUpdateActiveTrigger) {
        c := op.storedContext.value;
        if ActiveIn(activeTriggersByType, op.handle) {
          ActiveEntry(activeTriggersByType, |contexts|, nextId, op.handle.triggerType, op.handle);
          PutKeepsWellFormed(activeTriggersByType, contexts[c].triggerType, op.handle, c, |contexts|, nextId);
        }
        UpdateActiveTrigger_Internal(op.handle, c);
      } else {
        if !ActiveIn(activeTriggersByType, op.handle) {
          halted := true;
          return 0;
        }
        c := activeTriggersByType[op.handle.triggerType][op.handle];
        ActiveEntry(activeTriggersByType, |contexts|, nextId, op.handle.triggerType, op.handle);
      }
    }

    /** `ProcessTriggerCallbacks`: in the bucket of the context's type, invoke
        every valid listener that accepts the phase and the trigger, once,
        and stage every invalid listener for removal. Staged changes made by
        the callbacks take effect only after this fan-out. */
    method ProcessTriggerCallbacks(h: TriggerHandle, phase: Flags, c: CtxId) returns (ghost invoked: seq<Invocation>, ghost at: seq<nat>)
      requires Valid() && !halted && operationQueue != [] && c < |contexts|
      modifies this
      decreases budget, Idle(), 4, 0
      ensures Valid() && Evolves() && DrainFrame()
      ensures FanOut(invoked, h, phase, c,
                     Recipients(BucketOf(old(listenersByType), old(contexts)[c].triggerType), phase, old(contexts)[c], destroyed))
      ensures Expired(BucketOf(old(listenersByType), old(contexts)[c].triggerType), destroyed) <= listenersPendingRemove
      ensures LoggedAt(invocations, |old(invocations)|, invoked, at)
      ensures forall k | |old(invocations)| <= k < |invocations| && invocations[k].listener.id < old(nextId) :: k in at
    {
      invoked, at := [], [];
      var t := contexts[c].triggerType;
      ghost var trigger0 := contexts[c];
      ghost var recipients := Recipients(BucketOf(listenersByType, t), phase, trigger0, destroyed);
      ghost var expired := Expired(BucketOf(listenersByType, t), destroyed);
      if t !in listenersByType {
        return;
      }
      var bucket := listenersByType[t];
      var remaining := bucket.Keys;
      while remaining != {}
        invariant remaining <= bucket.Keys
        invariant Valid() && Evolves() && DrainFrame() && !halted
        invariant c < |contexts| && contexts[c] == trigger0
        invariant FanOutSoFar(invoked, h, phase, c, recipients, remaining)
        invariant forall l | l in expired && l !in remaining :: l in listenersPendingRemove
        invariant LoggedAt(invocations, |old(invocations)|, invoked, at)
        invariant forall k | |old(invocations)| <= k < |invocations| && invocations[k].listener.id < old(nextId) :: k in at
        decreases remaining
      {
        var lh :| lh in remaining;
        var listener := bucket[lh];
        ghost var log, registered0, nextId0 := invocations, registered, nextId;
        var called := NotifyListener(lh, listener, h, phase, c);
        FanOutStep(invoked, h, phase, c, recipients, remaining, lh, called);
        InvokesOnlyThen(log, invocations, |old(invocations)|, old(registered), old(nextId), registered0, nextId0);
        if called {
          LoggedAtStep(log, invocations, |old(invocations)|, invoked, at, Invocation(lh, h, phase, c));
          OnlyOwnEntryOlder(log, invocations, |old(invocations)|, at, Invocation(lh, h, phase, c), old(nextId), nextId0);
          invoked, at := invoked + [Invocation(lh, h, phase, c)], at + [|log|];
        } else {
          LoggedAtGrows(log, invocations, |old(invocations)|, invoked, at);
        }
        remaining := remaining - {lh};
      }
      FanOutDone(invoked, h, phase, c, recipients);
    }

    /** The body of the fan-out loop for one listener of the bucket: a
        valid listener that accepts the phase and the trigger is invoked
        (`called`), an invalid one is staged for removal. */
    method NotifyListener(lh: ListenerHandle, listener: ListenerData, h: TriggerHandle, phase: Flags, c: CtxId)
      returns (called: bool)
      requires Valid() && !halted && operationQueue != [] && c < |contexts| && lh.triggerType in listenersByType
      requires lh in registered
      modifies this
      decreases budget, Idle(), 3, DelegateSize(listener.callback) + 1
      ensures Valid() && Evolves() && DrainFrame()
      ensures called <==> IsListenerValid(listener, destroyed) && ShouldListenerProcessTrigger(listener, phase, old(contexts)[c], destroyed)
      ensures !IsListenerValid(listener, destroyed) ==> lh in listenersPendingRemove
      ensures called ==>
        && old(invocations) + [Invocation(lh, h, phase, c)] <= invocations
        && InvokesOnly(invocations, |old(invocations)| + 1, {}, old(nextId))
      ensures !called ==> invocations == old(invocations)
    {
      called := false;
      if IsListenerValid(listener, destroyed) {
        if ShouldListenerProcessTrigger(listener, phase, contexts[c], destroyed) {
          called := true;
          RunCallback(listener.callback, lh, h, phase, c);
          InvokesOnlyAfterOwn(old(invocations), invocations, |old(invocations)|, old(registered), old(nextId),
                              Invocation(lh, h, phase, c), old(registered), old(nextId));
        }
      } else {
        listenersPendingRemove := listenersPendingRemove + {lh};
      }
    }

    /** `ExecuteIfBound` on a callback: a bound callback is invoked, which
        the invocation log records first, and then issues its requests in
        order, as the listener `self`, for the trigger `trigger` with phase
        mask `phase` and context `c`, and stops if the process stops. An
        unbound callback does nothing. */
    method RunCallback(d: Delegate, self: ListenerHandle, trigger: TriggerHandle, phase: Flags, c: CtxId)
      requires Valid() && !halted
      modifies this
      decreases budget, Idle(), 3, DelegateSize(d)
      ensures Valid() && Grows()
      ensures old(operationQueue) != [] ==> DrainFrame()
      ensures IsBound(d, old(destroyed)) ==>
        && old(invocations) + [Invocation(self, trigger, phase, c)] <= invocations
        && InvokesOnly(invocations, |old(invocations)| + 1, old(registered), old(nextId))
        && (old(operationQueue) != [] ==> InvokesOnly(invocations, |old(invocations)| + 1, {}, old(nextId)))
      ensures !IsBound(d, old(destroyed)) ==> unchanged(this)
    {
      if !IsBound(d, destroyed) {
        return;
      }
      invocations := invocations + [Invocation(self, trigger, phase, c)];
      var script := d.script;
      var i := 0;
      while i < |script| && !halted
        invariant 0 <= i <= |script|
        invariant Valid() && Grows()
        invariant old(operationQueue) != [] ==> DrainFrame()
        invariant old(invocations) + [Invocation(self, trigger, phase, c)] <= invocations
        invariant InvokesOnly(invocations, |old(invocations)| + 1, old(registered), old(nextId))
        invariant old(operationQueue) != [] ==> InvokesOnly(invocations, |old(invocations)| + 1, {}, old(nextId))
      {
        RequestSmallerThanScript(script, i);
        ghost var log, registered0, nextId0 := invocations, registered, nextId;
        Perform(script[i], self, trigger, c);
        InvokesOnlyThen(log, invocations, |old(invocations)| + 1, old(registered), old(nextId), registered0, nextId0);
        if old(operationQueue) != [] {
          InvokesOnlyThen(log, invocations, |old(invocations)| + 1, {}, old(nextId), {}, nextId0);
        }
        i := i + 1;
      }
    }

    /** One dispatcher call made by a callback. */
    method Perform(req: Request, self: ListenerHandle, trigger: TriggerHandle, c: CtxId)
      requires Valid() && !halted
      modifies this
      decreases budget, Idle(), 3, RequestSize(req)
      ensures Valid() && Evolves()
      ensures old(operationQueue) != [] ==> DrainFrame() && InvokesOnly(invocations, |old(invocations)|, {}, old(nextId))
    {
      match req
      case StartNew(triggerType, tags, initiator, target, instantaneous) =>
        if instantaneous {
          var _ := InstantaneousTriggerImplicitContext(triggerType, tags, initiator, target);
        } else {
          var _ := StartTriggerImplicitContext(triggerType, tags, initiator, target);
        }
      case AddToData(ref, key, delta) =>
        AddToTriggerData(if ref.InvokingTrigger? then trigger else ref.handle, key, delta);
      case End(ref) =>
        EndTrigger(if ref.InvokingTrigger? then trigger else ref.handle);
      case Register(triggerType, phases, callback, filterInstigator, filterTarget, fireForExisting) =>
        var _, _, _ := RegisterTriggerListener(triggerType, phases, callback, filterInstigator, filterTarget, fireForExisting);
      case Unregister(ref) =>
        RemoveTriggerListener(if ref.ThisListener? then self else ref.handle);
    }

    /** A callback adds `delta` to one data entry of a trigger: it asks for
        the trigger's update context, changes it, and sends it back with
        `UpdateTrigger`; nothing happens when no context is handed out. */
    method AddToTriggerData(h: TriggerHandle, key: DataKey, delta: int)
      requires Valid() && !halted
      modifies this
      decreases budget, Idle(), 2, 0
      ensures Valid() && Evolves()
      ensures old(operationQueue) != [] ==> DrainFrame() && InvokesOnly(invocations, |old(invocations)|, {}, old(nextId))
      // Inside a drain: the stored context's bank is written in place, a
      // queued context's bank is written on a fresh copy, and one Update is
      // queued for whichever was written.
      ensures old(operationQueue) != [] ==> match UpdateSourceFor(old(operationQueue), old(activeTriggersByType), h)
        case Live(c) =>
          && c < |old(contextData)| && contexts == old(contexts) && nextId == old(nextId)
          && contextData == old(contextData)[c := WithAdded(old(contextData)[c], key, delta)]
          && QueuedOnly(PendingOp(h, TriggerTypes.UpdateTrigger, Some(c)))
        case CopyOf(t) =>
          && t.Some? && t.value < |old(contextData)| && t.value < |old(contexts)| && nextId == old(nextId)
          && contexts == old(contexts) + [old(contexts)[t.value]]
          && contextData == old(contextData) + [WithAdded(old(contextData)[t.value], key, delta)]
          && QueuedOnly(PendingOp(h, TriggerTypes.UpdateTrigger, Some(|old(contexts)|)))
        case _ => unchanged(this)
    {
      var r := GetTriggerContextForUpdate(h);
      if r.Some? {
        var data := contextData[r.value];
        SetContextData(r.value, key, WithAdded(data, key, delta)[key]);
        UpdateTrigger(h, r.value);
      }
    }

    // ----- Lifecycle requests -----

    /** `StartTrigger_Internal`: a fresh handle stamped with the context's
        type, and an operation for it. While a drain is under way the
        operation only waits in the queue: the trigger is not active yet, but
        it is active-or-pending unless the operation also removes it. */
    method StartTrigger_Internal(c: CtxId, operations: Flags) returns (r: TriggerHandle)
      requires Valid() && !halted && c < |contexts| && Has(operations, OpAddActiveTrigger)
      modifies this
      decreases budget, Idle(), 1, 0
      ensures r == TriggerHandle(old(nextId), old(contexts)[c].triggerType, true)
      ensures Valid() && Evolves()
      ensures old(operationQueue) != [] ==> DrainFrame() && QueuedOnly(PendingOp(r, operations, Some(c)))
      ensures old(operationQueue) != [] ==> contexts == old(contexts) && contextData == old(contextData) && nextId == old(nextId) + 1
      ensures old(operationQueue) != [] ==> !TriggerActiveIn(activeTriggersByType, r)
      ensures old(operationQueue) != [] ==>
        ActiveOrPending(operationQueue, activeTriggersByType, r) == !Has(operations, OpRemoveActiveTrigger)
      ensures old(operationQueue) == [] ==> Drained(PendingOp(r, operations, Some(c)))
    {
      r := CreateNewTriggerHandle(contexts[c].triggerType);
      var op := PendingOp(r, operations, Some(c));
      EnqueueAndProcessOperation(op);
      if old(operationQueue) != [] {
        EnqueueDecides(old(operationQueue), activeTriggersByType, op);
      }
    }

    /** `CreateNewTriggerHandle`. */
    method CreateNewTriggerHandle(t: GameplayTag) returns (r: TriggerHandle)
      requires Valid()
      modifies this`nextId
      ensures Valid() && r == TriggerHandle(old(nextId), t, true) && nextId == old(nextId) + 1
      ensures !TriggerActiveIn(activeTriggersByType, r)
    {
      r := TriggerHandle(nextId, t, true);
      QueueWellFormedGrows(operationQueue, contexts, nextId, contexts, nextId + 1);
      ActiveWellFormedGrows(activeTriggersByType, |contexts|, nextId, |contexts|, nextId + 1);
      nextId := nextId + 1;
    }

    /** `CreateNewListenerHandle`. */
    method CreateNewListenerHandle(t: GameplayTag) returns (r: ListenerHandle)
      requires Valid()
      modifies this`nextId
      ensures Valid() && r == ListenerHandle(old(nextId), t, true) && nextId == old(nextId) + 1
    {
      r := ListenerHandle(nextId, t, true);
      QueueWellFormedGrows(operationQueue, contexts, nextId, contexts, nextId + 1);
      ActiveWellFormedGrows(activeTriggersByType, |contexts|, nextId, |contexts|, nextId + 1);
      nextId := nextId + 1;
    }

    /** `StartTrigger`: open a trigger that stays active until ended. */
    method StartTrigger(c: CtxId) returns (r: TriggerHandle)
      requires Valid() && !halted && c < |contexts|
      modifies this
      decreases budget, Idle(), 2, 0
      ensures r == TriggerHandle(old(nextId), old(contexts)[c].triggerType, true)
      ensures Valid() && Evolves()
      ensures old(operationQueue) != [] ==> DrainFrame() && QueuedOnly(PendingOp(r, OpenTrigger, Some(c)))
      ensures old(operationQueue) != [] ==> contexts == old(contexts) && contextData == old(contextData) && nextId == old(nextId) + 1
      ensures old(operationQueue) == [] ==> Drained(PendingOp(r, OpenTrigger, Some(c)))
    {
      r := StartTrigger_Internal(c, OpenTrigger);
    }

    /** `InstantaneousTrigger`: add, fan out with Start|End, remove. */
    method InstantaneousTrigger(c: CtxId) returns (r: TriggerHandle)
      requires Valid() && !halted && c < |contexts|
      modifies this
      decreases budget, Idle(), 2, 0
      ensures r == TriggerHandle(old(nextId), old(contexts)[c].triggerType, true)
      ensures Valid() && Evolves()
      ensures old(operationQueue) != [] ==> DrainFrame() && QueuedOnly(PendingOp(r, TriggerTypes.InstantaneousTrigger, Some(c)))
      ensures old(operationQueue) != [] ==> contexts == old(contexts) && contextData == old(contextData) && nextId == old(nextId) + 1
      ensures old(operationQueue) == [] ==> Drained(PendingOp(r, TriggerTypes.InstantaneousTrigger, Some(c)))
    {
      r := StartTrigger_Internal(c, TriggerTypes.InstantaneousTrigger);
    }

    /** `StartTriggerImplicitContext`. */
    method StartTriggerImplicitContext(triggerType: GameplayTag, tags: set<GameplayTag>,
                                       initiator: Option<ObjectId>, target: Option<ObjectId>) returns (r: TriggerHandle)
      requires Valid() && !halted
      modifies this
      decreases budget, Idle(), 2, 0
      ensures r == TriggerHandle(old(nextId), triggerType, true)
      ensures Valid() && Evolves()
      ensures |old(contexts)| < |contexts| && contexts[|old(contexts)|] == TriggerContext(triggerType, tags, initiator, target)
      ensures old(operationQueue) != [] ==> DrainFrame() && QueuedOnly(PendingOp(r, OpenTrigger, Some(|old(contexts)|)))
      ensures old(operationQueue) != [] ==>
        && contexts == old(contexts) + [TriggerContext(triggerType, tags, initiator, target)]
        && contextData == old(contextData) + [map[]] && nextId == old(nextId) + 1
      ensures old(operationQueue) == [] ==> Drained(PendingOp(r, OpenTrigger, Some(|old(contexts)|)))
    {
      var c := MakeGameplayTriggerContext(triggerType, tags, initiator, target);
      r := StartTrigger_Internal(c, OpenTrigger);
    }

    /** `InstantaneousTriggerImplicitContext`. */
    method InstantaneousTriggerImplicitContext(triggerType: GameplayTag, tags: set<GameplayTag>,
                                               initiator: Option<ObjectId>, target: Option<ObjectId>) returns (r: TriggerHandle)
      requires Valid() && !halted
      modifies this
      decreases budget, Idle(), 2, 0
      ensures r == TriggerHandle(old(nextId), triggerType, true)
      ensures Valid() && Evolves()
      ensures |old(contexts)| < |contexts| && contexts[|old(contexts)|] == TriggerContext(triggerType, tags, initiator, target)
      ensures old(operationQueue) != [] ==> DrainFrame() && QueuedOnly(PendingOp(r, TriggerTypes.InstantaneousTrigger, Some(|old(contexts)|)))
      ensures old(operationQueue) != [] ==>
        && contexts == old(contexts) + [TriggerContext(triggerType, tags, initiator, target)]
        && contextData == old(contextData) + [map[]] && nextId == old(nextId) + 1
      ensures old(operationQueue) == [] ==> Drained(PendingOp(r, TriggerTypes.InstantaneousTrigger, Some(|old(contexts)|)))
    {
      var c := MakeGameplayTriggerContext(triggerType, tags, initiator, target);
      r := StartTrigger_Internal(c, TriggerTypes.InstantaneousTrigger);
    }

    /** `UpdateTrigger`: an Update operation carrying the new context. */
    method UpdateTrigger(h: TriggerHandle, c: CtxId)
      requires Valid() && !halted && c < |contexts|
      modifies this
      decreases budget, Idle(), 1, 0
      ensures Valid() && Evolves()
      ensures old(operationQueue) != [] ==> DrainFrame() && QueuedOnly(PendingOp(h, TriggerTypes.UpdateTrigger, Some(c)))
      ensures old(operationQueue) != [] ==> unchanged(this`contexts, this`contextData, this`nextId)
      ensures old(operationQueue) == [] ==> Drained(PendingOp(h, TriggerTypes.UpdateTrigger, Some(c)))
    {
      EnqueueAndProcessOperation(PendingOp(h, TriggerTypes.UpdateTrigger, Some(c)));
    }

    /** `EndTrigger`: a Close operation. */
    method EndTrigger(h: TriggerHandle)
      requires Valid() && !halted
      modifies this
      decreases budget, Idle(), 1, 0
      ensures Valid() && Evolves()
      ensures old(operationQueue) != [] ==> DrainFrame() && QueuedOnly(PendingOp(h, CloseTrigger, None))
      ensures old(operationQueue) != [] ==> unchanged(this`contexts, this`contextData, this`nextId)
      ensures old(operationQueue) == [] ==> Drained(PendingOp(h, CloseTrigger, None))
    {
      EnqueueAndProcessOperation(PendingOp(h, CloseTrigger, None));
    }

    // ----- Listener requests -----

    /** `RemoveTriggerListener`: stage a removal, for a valid handle only. */
    method RemoveTriggerListener(h: ListenerHandle)
      requires Valid()
      modifies this`listenersPendingRemove
      ensures Valid()
      ensures listenersPendingRemove == if old(ListenerHandleIsValid(h)) then old(listenersPendingRemove) + {h} else old(listenersPendingRemove)
    {
      if !ListenerHandleIsValid(h) {
        return;
      }
      listenersPendingRemove := listenersPendingRemove + {h};
    }

    /** The body of the fire-for-existing loop for one trigger: the new
        listener's bound callback is invoked, with phase Start, when the
        listener accepts the trigger's context (`called`). */
    method FireOne(r: ListenerHandle, l: ListenerData, th: TriggerHandle, c: CtxId) returns (called: bool)
      requires Valid() && !halted && c < |contexts| && IsBound(l.callback, destroyed)
      modifies this
      decreases budget, Idle(), 3, DelegateSize(l.callback) + 1
      ensures Valid() && Grows()
      ensures old(operationQueue) != [] ==> DrainFrame()
      ensures called <==> ShouldListenerProcessTrigger(l, TriggerStart, old(contexts)[c], destroyed)
      ensures called ==>
        && old(invocations) + [Invocation(r, th, TriggerStart, c)] <= invocations
        && InvokesOnly(invocations, |old(invocations)| + 1, old(registered), old(nextId))
        && (old(operationQueue) != [] ==> InvokesOnly(invocations, |old(invocations)| + 1, {}, old(nextId)))
      ensures !called ==> unchanged(this)
    {
      called := ShouldListenerProcessTrigger(l, TriggerStart, contexts[c], destroyed);
      if called {
        RunCallback(l.callback, r, th, TriggerStart, c);
      }
    }

    /** The fire-for-existing loop of `RegisterTriggerListener`: for each
        trigger of the snapshot `triggers` whose context the new listener
        `r` accepts for the Start phase, run its callback once with that
        context. */
    method FireForExisting(r: ListenerHandle, l: ListenerData, triggers: ActiveBucket)
      returns (ghost fired: seq<Invocation>, ghost at: seq<nat>)
      requires Valid() && !halted && IsBound(l.callback, destroyed)
      requires forall th | th in triggers :: triggers[th] < |contexts|
      requires r !in registered && r.id < nextId
      modifies this
      decreases budget, Idle(), 3, DelegateSize(l.callback) + 3
      ensures Valid() && Grows()
      ensures old(operationQueue) != [] ==> DrainFrame()
      ensures FiredForExisting(fired, r, triggers, FireForExistingTargets(triggers, l, old(contexts), destroyed))
      ensures !halted ==> TriggersOf(fired) == FireForExistingTargets(triggers, l, old(contexts), destroyed)
      ensures !Has(l.listenerPhases, TriggerStart) ==> fired == [] && unchanged(this)
      ensures LoggedAt(invocations, |old(invocations)|, fired, at)
      ensures forall k | |old(invocations)| <= k < |invocations| && invocations[k].listener == r :: k in at
      ensures InvokesOnly(invocations, |old(invocations)|, old(registered) + {r}, old(nextId))
      ensures old(operationQueue) != [] ==> InvokesOnly(invocations, |old(invocations)|, {r}, old(nextId))
    {
      fired, at := [], [];
      ghost var targets := FireForExistingTargets(triggers, l, contexts, destroyed);
      var remaining := triggers.Keys;
      while remaining != {} && !halted
        invariant remaining <= triggers.Keys
        invariant Valid() && Grows()
        invariant old(operationQueue) != [] ==> DrainFrame()
        invariant FiredSoFar(fired, r, triggers, targets, remaining)
        invariant IsBound(l.callback, destroyed)
        invariant !Has(l.listenerPhases, TriggerStart) ==> unchanged(this)
        invariant r !in registered
        invariant FiredLog(invocations, |old(invocations)|, fired, at, r, old(registered), old(nextId), old(operationQueue) != [])
        decreases remaining
      {
        var th :| th in remaining;
        fired, at := FireNext(r, l, th, triggers, targets, remaining, fired, at,
                              |old(invocations)|, old(registered), old(nextId), old(operationQueue) != [], old(contexts));
        remaining := remaining - {th};
      }
      assert !halted ==> targets - remaining == targets;
      if !Has(l.listenerPhases, TriggerStart) {
        NothingFiredWithoutStart(fired, r, triggers, l, old(contexts), destroyed);
      }
    }

    /** One round of the fire-for-existing loop: visit the trigger `th` of
        the snapshot, firing for it exactly when it is a target, and keep
        the run of invocations and the log on track. */
    method FireNext(r: ListenerHandle, l: ListenerData, th: TriggerHandle, triggers: ActiveBucket,
                    ghost targets: set<TriggerHandle>, ghost remaining: set<TriggerHandle>,
                    ghost fired: seq<Invocation>, ghost at: seq<nat>,
                    ghost start: nat, ghost known: set<ListenerHandle>, ghost newFrom: HandleId, ghost inDrain: bool,
                    ghost contexts0: seq<TriggerContext>)
      returns (ghost fired': seq<Invocation>, ghost at': seq<nat>)
      requires Valid() && !halted && IsBound(l.callback, destroyed)
      requires th in remaining && remaining <= triggers.Keys && triggers[th] < |contexts0| && contexts0 <= contexts
      requires targets == FireForExistingTargets(triggers, l, contexts0, destroyed)
      requires FiredSoFar(fired, r, triggers, targets, remaining)
      requires r !in registered && r.id < newFrom <= nextId && start <= |invocations|
      requires forall h | h in registered :: h in known || newFrom <= h.id
      requires FiredLog(invocations, start, fired, at, r, known, newFrom, inDrain)
      requires inDrain ==> operationQueue != []
      modifies this
      decreases budget, Idle(), 3, DelegateSize(l.callback) + 2
      ensures Valid() && Grows() && r !in registered && IsBound(l.callback, destroyed)
      ensures old(operationQueue) != [] ==> DrainFrame()
      ensures FiredSoFar(fired', r, triggers, targets, remaining - {th})
      ensures FiredLog(invocations, start, fired', at', r, known, newFrom, inDrain)
      ensures !Has(l.listenerPhases, TriggerStart) ==> unchanged(this)
    {
      var c := triggers[th];
      ghost var log := invocations;
      var called := FireOne(r, l, th, c);
      FiredStep(fired, r, triggers, targets, remaining, th, called);
      fired', at' := fired, at;
      if called {
        ghost var e := Invocation(r, th, TriggerStart, c);
        FiredLogStep(log, invocations, start, fired, at, r, known, newFrom, inDrain, e, old(registered), old(nextId));
        fired', at' := fired + [e], at + [|log|];
      }
    }

    /** The part of `RegisterTriggerListener` after the new listener `r`
        got its handle, issued as `issued`: fire for existing triggers, only
        when asked for and only for the triggers of its type active when it
        begins, then stage the listener for addition. */
    method FireThenStage(r: ListenerHandle, l: ListenerData, fireForExisting: bool, ghost issued: HandleId)
      returns (ghost fired: seq<Invocation>, ghost at: seq<nat>)
      requires Valid() && !halted && IsBound(l.callback, destroyed)
      requires r !in registered && r.id == issued && nextId == issued + 1 && l.triggerType == r.triggerType
      modifies this
      decreases budget, Idle(), 3, DelegateSize(l.callback) + 4
      ensures Valid() && budget <= old(budget) && old(nextId) <= nextId && destroyed == old(destroyed)
      ensures old(contexts) <= contexts && old(enqueued) <= enqueued && old(processed) <= processed
      ensures old(invocations) <= invocations && old(registered) <= registered
      ensures forall h | h in registered :: h in old(registered) || issued <= h.id
      ensures InvokesOnly(invocations, |old(invocations)|, old(registered), issued)
      ensures old(operationQueue) != [] ==> DrainFrame() && InvokesOnly(invocations, |old(invocations)|, {}, issued)
      ensures r in listenersPendingAdd && listenersPendingAdd[r] == l && r in registered
      ensures
        var snapshot := BucketIn(old(activeTriggersByType), l.triggerType);
        var targets := if fireForExisting then FireForExistingTargets(snapshot, l, old(contexts), destroyed) else {};
        && FiredForExisting(fired, r, snapshot, targets)
        && (!halted ==> TriggersOf(fired) == targets)
      ensures !fireForExisting || !Has(l.listenerPhases, TriggerStart) ==>
        && fired == [] && listenersPendingAdd == old(listenersPendingAdd)[r := l] && registered == old(registered) + {r}
        && unchanged(this`listenersByType, this`listenersPendingRemove, this`operationQueue, this`activeTriggersByType,
                     this`nextId, this`halted, this`budget, this`invocations, this`contexts, this`contextData,
                     this`enqueued, this`processed, this`destroyed)
      ensures LoggedAt(invocations, |old(invocations)|, fired, at)
      ensures forall k | |old(invocations)| <= k < |invocations| && invocations[k].listener == r :: k in at
    {
      fired, at := [], [];
      if fireForExisting {
        var triggers := if l.triggerType in activeTriggersByType then activeTriggersByType[l.triggerType] else map[];
        forall th | th in triggers ensures triggers[th] < |contexts| {
          ActiveEntry(activeTriggersByType, |contexts|, nextId, l.triggerType, th);
        }
        fired, at := FireForExisting(r, l, triggers);
      }
      InvokesOnlyWeaken(invocations, |old(invocations)|, old(registered) + {r}, old(nextId), old(registered), issued);
      if old(operationQueue) != [] {
        InvokesOnlyWeaken(invocations, |old(invocations)|, {r}, old(nextId), {}, issued);
      }
      StageListener(r, l);
    }

    /** Stage a new listener for addition. */
    method StageListener(r: ListenerHandle, data: ListenerData)
      requires Valid() && data.triggerType == r.triggerType && r.id < nextId
      modifies this`listenersPendingAdd, this`registered
      ensures Valid() && listenersPendingAdd == old(listenersPendingAdd)[r := data]
      ensures registered == old(registered) + {r}
    {
      listenersPendingAdd := listenersPendingAdd[r := data];
      registered := registered + {r};
    }

    /** `RegisterTriggerListener`: an unbound callback is refused with the
        empty handle and nothing changes. Otherwise a fresh handle is made;
        with fire-for-existing, the callback first runs once, with phase
        Start, for each trigger of the type then active that the listener
        accepts (`fired`); then the listener is staged for addition, not
        made live. */
    method RegisterTriggerListener(triggerType: GameplayTag, phases: Flags, d: Delegate,
                                   filterInstigator: Option<ObjectId>, filterTarget: Option<ObjectId>,
                                   fireForExisting: bool) returns (r: ListenerHandle, ghost fired: seq<Invocation>, ghost at: seq<nat>)
      requires Valid() && !halted
      modifies this
      decreases budget, Idle(), 3, DelegateSize(d) + 5
      ensures Valid() && Evolves()
      ensures old(operationQueue) != [] ==> DrainFrame() && InvokesOnly(invocations, |old(invocations)|, {}, old(nextId))
      ensures !IsBound(d, old(destroyed)) ==> r == EmptyListenerHandle && fired == [] && unchanged(this)
      ensures IsBound(d, old(destroyed)) ==>
        && r == ListenerHandle(old(nextId), triggerType, true)
        && r in listenersPendingAdd && r in registered && r !in old(registered)
        && listenersPendingAdd[r] == ListenerData(triggerType, phases, filterInstigator, filterTarget, d)
      ensures IsBound(d, old(destroyed)) && (!fireForExisting || !Has(phases, TriggerStart)) ==>
        && listenersPendingAdd == old(listenersPendingAdd)[r := ListenerData(triggerType, phases, filterInstigator, filterTarget, d)]
        && fired == [] && listenersByType == old(listenersByType) && listenersPendingRemove == old(listenersPendingRemove)
        && operationQueue == old(operationQueue) && activeTriggersByType == old(activeTriggersByType)
        && nextId == old(nextId) + 1 && registered == old(registered) + {r}
        && unchanged(this`halted, this`budget, this`invocations, this`contexts, this`contextData,
                     this`enqueued, this`processed, this`destroyed)
      ensures IsBound(d, old(destroyed)) ==>
        var snapshot := BucketIn(old(activeTriggersByType), triggerType);
        var targets := if fireForExisting then
          FireForExistingTargets(snapshot, ListenerData(triggerType, phases, filterInstigator, filterTarget, d), old(contexts), destroyed)
          else {};
        && FiredForExisting(fired, r, snapshot, targets)
        && (!halted ==> TriggersOf(fired) == targets)
      ensures LoggedAt(invocations, |old(invocations)|, fired, at)
      ensures forall k | |old(invocations)| <= k < |invocations| && invocations[k].listener == r :: k in at
    {
      fired, at := [], [];
      if !IsBound(d, destroyed) {
        return EmptyListenerHandle, fired, at;
      }
      var data := ListenerData(triggerType, phases, filterInstigator, filterTarget, d);
      r := CreateNewListenerHandle(triggerType);
      fired, at := FireThenStage(r, data, fireForExisting, old(nextId));
    }
  }
}
