/** Queued trigger operations and the active-trigger table, as values: the
    newest-first queue scans behind `IsTriggerActiveOrPending` and
    `GetTriggerContextForUpdate`, and the table effect of processing one
    operation. */
module TriggerOperations {
  import opened TriggerTypes

  /** `FOGPendingTriggerOperation`: the handle, the flag set, and the context
      an Add or Update operation carries. */
  datatype PendingOp = PendingOp(handle: TriggerHandle, operation: Flags, storedContext: Option<CtxId>)

  /** One per-type bucket of `ActiveTriggersByType` (`TriggerMap`). */
  type ActiveBucket = map<TriggerHandle, CtxId>

  /** `TMap<FGameplayTag, TriggerMap>`. */
  type ActiveTable = map<GameplayTag, ActiveBucket>

  /** The handle is stored in the bucket its own type names. */
  predicate ActiveIn(active: ActiveTable, h: TriggerHandle) {
    h.triggerType in active && h in active[h.triggerType]
  }

  /** `IsTriggerActive`. */
  predicate TriggerActiveIn(active: ActiveTable, h: TriggerHandle) {
    TriggerHandleValid(h) && ActiveIn(active, h)
  }

  /** An operation that ends the queue scans for its handle: it removes the
      trigger, or adds or updates it. */
  predicate Decides(op: PendingOp, h: TriggerHandle) {
    op.handle == h &&
    (Has(op.operation, OpRemoveActiveTrigger) || Has(op.operation, OpAddActiveTrigger | OpUpdateActiveTrigger))
  }

  /** Position of the newest queued operation that decides `h`; index 0 is
      the head of the queue, where operations are enqueued. */
  function NewestDecidingOp(q: seq<PendingOp>, h: TriggerHandle): (r: Option<nat>)
    ensures r.Some? ==> r.value < |q| && Decides(q[r.value], h)
    ensures r.Some? ==> forall j | 0 <= j < r.value :: !Decides(q[j], h)
    ensures r.None? ==> forall j | 0 <= j < |q| :: !Decides(q[j], h)
  {
    if q == [] then None
    else if Decides(q[0], h) then Some(0)
    else match NewestDecidingOp(q[1..], h) {
      case None => None
      case Some(i) => Some(i + 1)
    }
  }

  /** `IsTriggerActiveOrPending`: the newest deciding operation answers
      (a removal says no, an addition or update says yes), and without one
      the active table does. */
  predicate ActiveOrPending(q: seq<PendingOp>, active: ActiveTable, h: TriggerHandle) {
    match NewestDecidingOp(q, h)
    case Some(i) => !Has(q[i].operation, OpRemoveActiveTrigger)
    case None => TriggerActiveIn(active, h)
  }

  /** What `GetTriggerContextForUpdate` hands out. */
  datatype UpdateSource =
    | NotFound                          // invalid handle, or no stored context
    | Refused                           // the newest deciding operation removes the trigger
    | CopyOf(template: Option<CtxId>)   // a fresh copy of the newest queued context
    | Live(context: CtxId)              // the stored context itself

  function UpdateSourceFor(q: seq<PendingOp>, active: ActiveTable, h: TriggerHandle): UpdateSource {
    if !TriggerHandleValid(h) then NotFound
    else match NewestDecidingOp(q, h)
      case Some(i) =>
        if Has(q[i].operation, OpRemoveActiveTrigger) then Refused else CopyOf(q[i].storedContext)
      case None =>
        if ActiveIn(active, h) then Live(active[h.triggerType][h]) else NotFound
  }

  /** An Add or Update operation carries a context the heap holds. */
  predicate CarriesContext(op: PendingOp, contexts: seq<TriggerContext>) {
    Has(op.operation, OpAddActiveTrigger | OpUpdateActiveTrigger) ==>
      op.storedContext.Some? && op.storedContext.value < |contexts|
  }

  function BucketIn(active: ActiveTable, t: GameplayTag): ActiveBucket {
    if t in active then active[t] else map[]
  }

  /** `FindOrAdd(t).Add(h, c)`. */
  function Put(active: ActiveTable, t: GameplayTag, h: TriggerHandle, c: CtxId): ActiveTable {
    active[t := BucketIn(active, t)[h := c]]
  }

  /** The table effect of `ProcessTriggerOperation` before its callbacks:
      Add stores the context under its own type; Update looks the handle up
      and stores the context only when it is a different object; any other
      operation looks the handle up. `None` is a failed `FindChecked`. */
  function AddOrUpdate(active: ActiveTable, op: PendingOp, contexts: seq<TriggerContext>): Option<ActiveTable>
    requires CarriesContext(op, contexts)
  {
    if Has(op.operation, OpAddActiveTrigger) then
      var c := op.storedContext.value;
      Some(Put(active, contexts[c].triggerType, op.handle, c))
    else if !ActiveIn(active, op.handle) then None
    else if Has(op.operation, OpUpdateActiveTrigger) then
      var c := op.storedContext.value;
      if active[op.handle.triggerType][op.handle] == c then Some(active)
      else Some(Put(active, contexts[c].triggerType, op.handle, c))
    else Some(active)
  }

  /** `RemoveActiveTrigger_Internal`: `None` is a failed `FindChecked` or
      `FindAndRemoveChecked`. */
  function RemoveActive(active: ActiveTable, h: TriggerHandle): Option<ActiveTable> {
    if !ActiveIn(active, h) then None
    else Some(active[h.triggerType := active[h.triggerType] - {h}])
  }

  /** The table effect of processing one operation. */
  function ApplyOperation(active: ActiveTable, op: PendingOp, contexts: seq<TriggerContext>): Option<ActiveTable>
    requires CarriesContext(op, contexts)
  {
    match AddOrUpdate(active, op, contexts)
    case None => None
    case Some(a) => if Has(op.operation, OpRemoveActiveTrigger) then RemoveActive(a, op.handle) else Some(a)
  }

  /** The context the callbacks of an operation see: the carried one for Add
      and Update, the stored one otherwise. */
  function OperationContext(active: ActiveTable, op: PendingOp): Option<CtxId> {
    if Has(op.operation, OpAddActiveTrigger) || Has(op.operation, OpUpdateActiveTrigger) then op.storedContext
    else if ActiveIn(active, op.handle) then Some(active[op.handle.triggerType][op.handle])
    else None
  }

  /** Processing an operation fails exactly when it is not an addition and
      its handle is not stored under the handle's type. */
  lemma {:induction false} ApplyOperationFailsOnMissingHandle(active: ActiveTable, op: PendingOp, contexts: seq<TriggerContext>)
    requires CarriesContext(op, contexts)
    requires Has(op.operation, OpAddActiveTrigger) ==> contexts[op.storedContext.value].triggerType == op.handle.triggerType
    ensures ApplyOperation(active, op, contexts).None? <==> !Has(op.operation, OpAddActiveTrigger) && !ActiveIn(active, op.handle)
  {
    if Has(op.operation, OpAddActiveTrigger) {
      var a := Put(active, op.handle.triggerType, op.handle, op.storedContext.value);
      assert AddOrUpdate(active, op, contexts) == Some(a);
      assert ActiveIn(a, op.handle);
    } else if ActiveIn(active, op.handle) {
      var a := AddOrUpdate(active, op, contexts).value;
      assert ActiveIn(a, op.handle);
    }
  }

  /** Enqueuing an operation that decides its handle makes it the newest
      deciding operation for that handle. */
  lemma EnqueueDecides(q: seq<PendingOp>, active: ActiveTable, op: PendingOp)
    requires Decides(op, op.handle)
    ensures NewestDecidingOp([op] + q, op.handle) == Some(0)
    ensures ActiveOrPending([op] + q, active, op.handle) == !Has(op.operation, OpRemoveActiveTrigger)
    ensures TriggerHandleValid(op.handle) && !Has(op.operation, OpRemoveActiveTrigger) ==>
              UpdateSourceFor([op] + q, active, op.handle) == CopyOf(op.storedContext)
  {
  }

  /** Enqueuing an operation on one handle leaves both scans for every other
      handle unchanged. */
  lemma {:induction false} EnqueueOtherHandle(q: seq<PendingOp>, active: ActiveTable, op: PendingOp, h: TriggerHandle)
    requires op.handle != h
    ensures ActiveOrPending([op] + q, active, h) == ActiveOrPending(q, active, h)
    ensures UpdateSourceFor([op] + q, active, h) == UpdateSourceFor(q, active, h)
  {
    assert ([op] + q)[1..] == q;
    match NewestDecidingOp(q, h)
    case None =>
    case Some(i) => assert ([op] + q)[i + 1] == q[i];
  }

  /** Dropping the oldest operation keeps the newest deciding operation for a
      handle when that operation is not the oldest one. */
  lemma {:induction false} NewestDecidingOpWithoutTail(q: seq<PendingOp>, h: TriggerHandle)
    requires q != []
    ensures var r := NewestDecidingOp(q, h);
      NewestDecidingOp(q[..|q| - 1], h) == if r == Some(|q| - 1) then None else r
    decreases |q|
  {
    var p := q[..|q| - 1];
    if |q| == 1 {
      assert p == [];
    } else if Decides(q[0], h) {
      assert p[0] == q[0];
    } else {
      assert p[0] == q[0];
      assert p[1..] == q[1..][..|q[1..]| - 1];
      NewestDecidingOpWithoutTail(q[1..], h);
    }
  }

  /** Processing the oldest queued operation and popping it leaves
      `IsTriggerActiveOrPending` unchanged for every valid handle, provided
      an addition for that handle files it under the handle's own type. */
  lemma {:induction false} ProcessingKeepsActiveOrPending(q: seq<PendingOp>, active: ActiveTable, contexts: seq<TriggerContext>, h: TriggerHandle)
    requires q != []
    requires CarriesContext(q[|q| - 1], contexts)
    requires ApplyOperation(active, q[|q| - 1], contexts).Some?
    requires TriggerHandleValid(h)
    requires var op := q[|q| - 1];
      op.handle == h && Has(op.operation, OpAddActiveTrigger) ==> contexts[op.storedContext.value].triggerType == h.triggerType
    ensures ActiveOrPending(q, active, h) ==
            ActiveOrPending(q[..|q| - 1], ApplyOperation(active, q[|q| - 1], contexts).value, h)
  {
    var op := q[|q| - 1];
    var a := AddOrUpdate(active, op, contexts).value;
    var after := ApplyOperation(active, op, contexts).value;
    NewestDecidingOpWithoutTail(q, h);
    // Membership of h survives the additions, updates and removals of other handles.
    assert ActiveIn(a, h) == ActiveIn(active, h) || (op.handle == h && ActiveIn(a, h));
    if op.handle != h {
      assert ActiveIn(after, h) == ActiveIn(a, h);
      assert ActiveIn(a, h) == ActiveIn(active, h);
    } else if Has(op.operation, OpRemoveActiveTrigger) {
      assert !ActiveIn(after, h);
    } else if Has(op.operation, OpAddActiveTrigger) || Has(op.operation, OpUpdateActiveTrigger) {
      assert ActiveIn(after, h);
    } else {
      assert after == active;
    }
  }

  /** An update enqueued for a valid handle makes the next request for an
      update context copy the updated context, so successive updates made
      while operations are queued build on each other. */
  lemma UpdatesCompound(q: seq<PendingOp>, active: ActiveTable, h: TriggerHandle, c: CtxId)
    requires TriggerHandleValid(h)
    ensures UpdateSourceFor([PendingOp(h, UpdateTrigger, Some(c))] + q, active, h) == CopyOf(Some(c))
  {
    assert Has(UpdateTrigger, OpAddActiveTrigger | OpUpdateActiveTrigger);
    assert !Has(UpdateTrigger, OpRemoveActiveTrigger);
  }

  /** Processing a Close operation succeeds exactly when its trigger is
      stored, and then ends that trigger and no other. */
  lemma CloseEndsOnlyItsTrigger(active: ActiveTable, h: TriggerHandle, contexts: seq<TriggerContext>, g: TriggerHandle)
    ensures ApplyOperation(active, PendingOp(h, CloseTrigger, None), contexts).Some? <==> ActiveIn(active, h)
    ensures ApplyOperation(active, PendingOp(h, CloseTrigger, None), contexts).Some? ==>
      var a := ApplyOperation(active, PendingOp(h, CloseTrigger, None), contexts).value;
      && !ActiveIn(a, h)
      && (g != h ==> (ActiveIn(a, g) <==> ActiveIn(active, g)))
  {
    assert !Has(CloseTrigger, OpAddActiveTrigger) && !Has(CloseTrigger, OpUpdateActiveTrigger);
    assert Has(CloseTrigger, OpRemoveActiveTrigger);
  }

  /** An update whose new context has another type files the trigger under
      that type as well, and leaves the entry under the handle's own type
      in place; a later removal erases only the latter. */
  lemma {:induction false} UpdateAcrossTypesKeepsOldEntry(active: ActiveTable, h: TriggerHandle, c: CtxId, contexts: seq<TriggerContext>)
    requires c < |contexts| && ActiveIn(active, h)
    requires active[h.triggerType][h] != c && contexts[c].triggerType != h.triggerType
    ensures var op := PendingOp(h, UpdateTrigger, Some(c));
      && ApplyOperation(active, op, contexts).Some?
      && var a := ApplyOperation(active, op, contexts).value;
      && ActiveIn(a, h) && a[h.triggerType][h] == active[h.triggerType][h]
      && contexts[c].triggerType in a && h in a[contexts[c].triggerType] && a[contexts[c].triggerType][h] == c
      && RemoveActive(a, h).Some?
      && var b := RemoveActive(a, h).value;
      && !ActiveIn(b, h) && contexts[c].triggerType in b && h in b[contexts[c].triggerType]
  {
    assert !Has(UpdateTrigger, OpAddActiveTrigger) && Has(UpdateTrigger, OpUpdateActiveTrigger);
    assert !Has(UpdateTrigger, OpRemoveActiveTrigger);
  }

  /** The table after processing `ops` in order, oldest first. `None` when
      one of them fails, or does not carry an allocated context. */
  function ApplyAll(active: ActiveTable, ops: seq<PendingOp>, contexts: seq<TriggerContext>): Option<ActiveTable>
    decreases |ops|
  {
    if ops == [] then Some(active)
    else match ApplyAll(active, ops[..|ops| - 1], contexts)
      case None => None
      case Some(a) =>
        var op := ops[|ops| - 1];
        if CarriesContext(op, contexts) then ApplyOperation(a, op, contexts) else None
  }

  /** Processing one more operation extends the fold by that operation. */
  lemma ApplyAllStep(active: ActiveTable, ops: seq<PendingOp>, op: PendingOp, contexts: seq<TriggerContext>)
    requires ApplyAll(active, ops, contexts).Some? && CarriesContext(op, contexts)
    ensures ApplyAll(active, ops + [op], contexts) == ApplyOperation(ApplyAll(active, ops, contexts).value, op, contexts)
  {
    assert (ops + [op])[..|ops|] == ops;
  }

  /** Allocating more contexts does not change what an operation does. */
  lemma ApplyOperationExtends(active: ActiveTable, op: PendingOp, contexts: seq<TriggerContext>, contexts': seq<TriggerContext>)
    requires CarriesContext(op, contexts) && contexts <= contexts'
    ensures CarriesContext(op, contexts') && ApplyOperation(active, op, contexts') == ApplyOperation(active, op, contexts)
  {
    if Has(op.operation, OpAddActiveTrigger | OpUpdateActiveTrigger) {
      assert contexts'[op.storedContext.value] == contexts[op.storedContext.value];
    }
  }

  /** ... nor what a run of operations does. */
  lemma {:induction false} ApplyAllExtends(active: ActiveTable, ops: seq<PendingOp>, contexts: seq<TriggerContext>, contexts': seq<TriggerContext>)
    requires ApplyAll(active, ops, contexts).Some? && contexts <= contexts'
    ensures ApplyAll(active, ops, contexts') == ApplyAll(active, ops, contexts)
    decreases |ops|
  {
    if ops != [] {
      var init := ops[..|ops| - 1];
      ApplyAllExtends(active, init, contexts, contexts');
      ApplyOperationExtends(ApplyAll(active, init, contexts).value, ops[|ops| - 1], contexts, contexts');
    }
  }

  /** The operation removes the trigger `h`. */
  predicate RemovesHandle(op: PendingOp, h: TriggerHandle) {
    op.handle == h && Has(op.operation, OpRemoveActiveTrigger)
  }

  /** The operation adds the trigger `h`. */
  predicate AddsHandle(op: PendingOp, h: TriggerHandle) {
    op.handle == h && Has(op.operation, OpAddActiveTrigger)
  }

  /** An operation that does not remove `h` keeps it stored. */
  lemma ApplyKeepsActive(active: ActiveTable, op: PendingOp, contexts: seq<TriggerContext>, h: TriggerHandle)
    requires CarriesContext(op, contexts) && ApplyOperation(active, op, contexts).Some?
    requires ActiveIn(active, h) && !RemovesHandle(op, h)
    ensures ActiveIn(ApplyOperation(active, op, contexts).value, h)
  {
    var a := AddOrUpdate(active, op, contexts).value;
    assert ActiveIn(a, h);
  }

  /** An operation that does not add `h` keeps it out. */
  lemma ApplyKeepsInactive(active: ActiveTable, op: PendingOp, contexts: seq<TriggerContext>, h: TriggerHandle)
    requires CarriesContext(op, contexts) && ApplyOperation(active, op, contexts).Some?
    requires !ActiveIn(active, h) && !AddsHandle(op, h)
    ensures !ActiveIn(ApplyOperation(active, op, contexts).value, h)
  {
    var a := AddOrUpdate(active, op, contexts).value;
    assert !ActiveIn(a, h);
  }

  /** A run whose first operation adds `h`, filed under its own type and not
      removed by that operation, leaves `h` stored unless a later operation
      removes it. */
  lemma {:induction false} StartedStaysActive(active: ActiveTable, ops: seq<PendingOp>, contexts: seq<TriggerContext>, h: TriggerHandle)
    requires ApplyAll(active, ops, contexts).Some?
    requires ops != [] && AddsHandle(ops[0], h) && !RemovesHandle(ops[0], h)
    requires CarriesContext(ops[0], contexts) && contexts[ops[0].storedContext.value].triggerType == h.triggerType
    requires forall i | 0 < i < |ops| :: !RemovesHandle(ops[i], h)
    ensures ActiveIn(ApplyAll(active, ops, contexts).value, h)
    decreases |ops|
  {
    var init := ops[..|ops| - 1];
    var op := ops[|ops| - 1];
    if |ops| == 1 {
      assert init == [];
      var a := Put(active, h.triggerType, h, ops[0].storedContext.value);
      assert AddOrUpdate(active, op, contexts) == Some(a);
      assert ActiveIn(a, h);
    } else {
      assert init[0] == ops[0];
      StartedStaysActive(active, init, contexts, h);
      ApplyKeepsActive(ApplyAll(active, init, contexts).value, op, contexts, h);
    }
  }

  /** A run whose first operation adds and removes `h` leaves `h` out unless a
      later operation adds it again. */
  lemma {:induction false} InstantaneousStaysInactive(active: ActiveTable, ops: seq<PendingOp>, contexts: seq<TriggerContext>, h: TriggerHandle)
    requires ApplyAll(active, ops, contexts).Some?
    requires ops != [] && ops[0].handle == h && Has(ops[0].operation, OpRemoveActiveTrigger)
    requires forall i | 0 < i < |ops| :: !AddsHandle(ops[i], h)
    ensures !ActiveIn(ApplyAll(active, ops, contexts).value, h)
    decreases |ops|
  {
    var init := ops[..|ops| - 1];
    var op := ops[|ops| - 1];
    if |ops| == 1 {
      assert init == [];
    } else {
      assert init[0] == ops[0];
      InstantaneousStaysInactive(active, init, contexts, h);
      ApplyKeepsInactive(ApplyAll(active, init, contexts).value, op, contexts, h);
    }
  }

  /** The fold over a run, computed while fewer contexts existed, extended
      by one more operation. */
  lemma ApplyAllThenOne(active: ActiveTable, ops: seq<PendingOp>, op: PendingOp,
                        contexts: seq<TriggerContext>, contexts': seq<TriggerContext>, a: ActiveTable)
    requires ApplyAll(active, ops, contexts) == Some(a) && CarriesContext(op, contexts) && contexts <= contexts'
    ensures ApplyAll(active, ops + [op], contexts') == ApplyOperation(a, op, contexts)
  {
    ApplyAllExtends(active, ops, contexts, contexts');
    ApplyOperationExtends(a, op, contexts, contexts');
    ApplyAllStep(active, ops, op, contexts');
  }
}
