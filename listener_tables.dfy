/** The live listener table (`ListenersByType`), the two staging areas
    (`ListenersPendingAdd`, `ListenersPendingRemove`) and the fan-out
    selection, as values. Tables are keyed by the whole listener handle. */
module ListenerTables {
  import opened TriggerTypes
  import opened TriggerListeners

  /** One per-type bucket (`ListenerMap`): a handle maps to at most one
      listener. */
  type Bucket = map<ListenerHandle, ListenerData>

  /** `TMap<FGameplayTag, ListenerMap>`. */
  type ListenerTable = map<GameplayTag, Bucket>

  /** Staged additions (`ListenersPendingAdd`). */
  type PendingAdds = map<ListenerHandle, ListenerData>

  /** Staged removals (`ListenersPendingRemove`). */
  type PendingRemoves = set<ListenerHandle>

  function BucketOf(table: ListenerTable, t: GameplayTag): Bucket {
    if t in table then table[t] else map[]
  }

  function AddedTypes(adds: PendingAdds): set<GameplayTag> {
    set h | h in adds :: adds[h].triggerType
  }

  function AddsOfType(adds: PendingAdds, t: GameplayTag): Bucket {
    map h | h in adds && adds[h].triggerType == t :: adds[h]
  }

  /** Every staged listener goes into the bucket of its own trigger type
      (created if missing), replacing an entry under the same handle. */
  function ApplyPendingAdds(table: ListenerTable, adds: PendingAdds): ListenerTable {
    map t | t in table.Keys + AddedTypes(adds) :: BucketOf(table, t) + AddsOfType(adds, t)
  }

  /** `FindChecked` in `RemoveTriggerListener_Internal` succeeds for every
      staged removal: the bucket named by the handle's type exists. */
  predicate RemovesResolvable(table: ListenerTable, removes: PendingRemoves) {
    forall h | h in removes :: h.triggerType in table
  }

  function RemovedOfType(removes: PendingRemoves, t: GameplayTag): set<ListenerHandle> {
    set h | h in removes && h.triggerType == t
  }

  /** Every staged removal erases its handle from the bucket named by the
      handle's type; buckets themselves are never erased. */
  function ApplyPendingRemoves(table: ListenerTable, removes: PendingRemoves): ListenerTable
    requires RemovesResolvable(table, removes)
  {
    map t | t in table :: table[t] - RemovedOfType(removes, t)
  }

  /** `IsListenerHandleValid` over the three collections. */
  predicate ListenerHandleValidIn(table: ListenerTable, adds: PendingAdds, removes: PendingRemoves, h: ListenerHandle) {
    if h in removes then false
    else if h in adds then true
    else h.triggerType in table && h in table[h.triggerType]
  }

  /** Staging adds first and removes second: a listener staged for addition
      lands in the bucket of its type unless it is also staged for removal,
      a listener staged for removal is gone from the bucket its handle
      names, and every other entry is left as it was. */
  lemma {:induction false} StagingOutcome(table: ListenerTable, adds: PendingAdds, removes: PendingRemoves, t: GameplayTag, h: ListenerHandle)
    requires RemovesResolvable(ApplyPendingAdds(table, adds), removes)
    ensures var staged := ApplyPendingRemoves(ApplyPendingAdds(table, adds), removes);
      && (h in removes && h.triggerType == t ==> t in staged && h !in staged[t])
      && (h in adds && adds[h].triggerType == t && !(h in removes && h.triggerType == t) ==>
            t in staged && h in staged[t] && staged[t][h] == adds[h])
      && (h !in adds && h !in removes ==>
            (t in staged && h in staged[t] <==> t in table && h in table[t]) &&
            (t in table && h in table[t] ==> staged[t][h] == table[t][h]))
  {
    var added := ApplyPendingAdds(table, adds);
    if h in removes && h.triggerType == t {
      assert t in added;
      assert h in RemovedOfType(removes, t);
    }
    if h in adds && adds[h].triggerType == t {
      assert t in AddedTypes(adds);
      assert h in AddsOfType(adds, t);
      if !(h in removes && h.triggerType == t) {
        assert h !in RemovedOfType(removes, t);
      }
    }
    if h !in adds && h !in removes {
      assert h !in AddsOfType(adds, t);
      assert h !in RemovedOfType(removes, t);
    }
  }

  /** `IsListenerHandleValid` anticipates the next staging step: for a handle
      whose staged listener carries the handle's own trigger type, it holds
      exactly when the handle will be live once the staged additions and
      removals have been applied. */
  lemma ValidityAnticipatesStaging(table: ListenerTable, adds: PendingAdds, removes: PendingRemoves, h: ListenerHandle)
    requires RemovesResolvable(ApplyPendingAdds(table, adds), removes)
    requires h in adds ==> adds[h].triggerType == h.triggerType
    ensures var staged := ApplyPendingRemoves(ApplyPendingAdds(table, adds), removes);
      ListenerHandleValidIn(table, adds, removes, h) <==> h.triggerType in staged && h in staged[h.triggerType]
  {
    StagingOutcome(table, adds, removes, h.triggerType, h);
  }

  /** A listener registered and removed within the same window between two
      operations never becomes live. */
  lemma RemovalWinsOverAddition(table: ListenerTable, adds: PendingAdds, removes: PendingRemoves, h: ListenerHandle)
    requires RemovesResolvable(ApplyPendingAdds(table, adds), removes)
    requires h in adds && h in removes && adds[h].triggerType == h.triggerType
    requires forall t | t in table :: h !in table[t]
    ensures var staged := ApplyPendingRemoves(ApplyPendingAdds(table, adds), removes);
      forall t | t in staged :: h !in staged[t]
  {
    var staged := ApplyPendingRemoves(ApplyPendingAdds(table, adds), removes);
    forall t | t in staged
      ensures h !in staged[t]
    {
      if t == h.triggerType {
        StagingOutcome(table, adds, removes, t, h);
      } else {
        assert h !in AddsOfType(adds, t);
      }
    }
  }

  /** The listeners a fan-out invokes: valid ones that accept the phase and
      the trigger (lines 303-311 of the dispatcher). */
  function Recipients(bucket: Bucket, phase: Flags, trigger: TriggerContext, destroyed: set<ObjectId>): set<ListenerHandle> {
    set h | h in bucket && IsListenerValid(bucket[h], destroyed) && ShouldListenerProcessTrigger(bucket[h], phase, trigger, destroyed)
  }

  /** The listeners a fan-out stages for removal instead of invoking. */
  function Expired(bucket: Bucket, destroyed: set<ObjectId>): set<ListenerHandle> {
    set h | h in bucket && !IsListenerValid(bucket[h], destroyed)
  }

  /** A fan-out splits the bucket: every listener of it is invoked, expired
      or skipped, never both invoked and expired, and one whose phase mask
      misses the phase is never invoked. */
  lemma FanOutPartitionsBucket(bucket: Bucket, phase: Flags, trigger: TriggerContext, destroyed: set<ObjectId>)
    ensures Recipients(bucket, phase, trigger, destroyed) !! Expired(bucket, destroyed)
    ensures Recipients(bucket, phase, trigger, destroyed) + Expired(bucket, destroyed) <= bucket.Keys
    ensures forall h | h in bucket && !Has(bucket[h].listenerPhases, phase) :: h !in Recipients(bucket, phase, trigger, destroyed)
  {
  }

  /** Adding a listener under a new handle changes who a fan-out invokes by
      that listener alone, and only if it is valid and accepts the trigger. */
  lemma RecipientsAfterAdd(bucket: Bucket, h: ListenerHandle, l: ListenerData, phase: Flags, trigger: TriggerContext,
                           destroyed: set<ObjectId>)
    requires h !in bucket
    ensures Recipients(bucket[h := l], phase, trigger, destroyed) ==
      Recipients(bucket, phase, trigger, destroyed) +
      (if IsListenerValid(l, destroyed) && ShouldListenerProcessTrigger(l, phase, trigger, destroyed) then {h} else {})
  {
  }

  /** Removing a listener takes it, and only it, out of every fan-out. */
  lemma RecipientsAfterRemove(bucket: Bucket, h: ListenerHandle, phase: Flags, trigger: TriggerContext, destroyed: set<ObjectId>)
    ensures Recipients(bucket - {h}, phase, trigger, destroyed) == Recipients(bucket, phase, trigger, destroyed) - {h}
  {
  }

  /** `AddTriggerListener_Internal`: `FindOrAdd` the bucket of the listener's
      type and add the listener under its handle. */
  function AddListener(table: ListenerTable, h: ListenerHandle, l: ListenerData): ListenerTable {
    table[l.triggerType := BucketOf(table, l.triggerType)[h := l]]
  }

  /** `RemoveTriggerListener_Internal`: `FindChecked` the bucket the handle
      names and remove the handle from it. */
  function RemoveListener(table: ListenerTable, h: ListenerHandle): ListenerTable
    requires h.triggerType in table
  {
    table[h.triggerType := table[h.triggerType] - {h}]
  }

  lemma AddedTypesStep(adds: PendingAdds, h: ListenerHandle)
    requires h in adds
    ensures AddedTypes(adds) == AddedTypes(adds - {h}) + {adds[h].triggerType}
  {
    var rest := adds - {h};
    forall t | t in AddedTypes(adds) ensures t in AddedTypes(rest) + {adds[h].triggerType} {
      var g :| g in adds && adds[g].triggerType == t;
      if g != h { assert g in rest; }
    }
  }

  lemma AddsOfTypeStep(adds: PendingAdds, h: ListenerHandle, t: GameplayTag)
    requires h in adds
    ensures AddsOfType(adds, t) ==
            if t == adds[h].triggerType then AddsOfType(adds - {h}, t)[h := adds[h]] else AddsOfType(adds - {h}, t)
  {
  }

  lemma AddsOfUnaddedType(adds: PendingAdds, t: GameplayTag)
    requires t !in AddedTypes(adds)
    ensures AddsOfType(adds, t) == map[]
  {
    forall h | h in adds ensures adds[h].triggerType != t {
      assert adds[h].triggerType in AddedTypes(adds);
    }
  }

  lemma BucketAfterAdds(table: ListenerTable, adds: PendingAdds, t: GameplayTag)
    ensures BucketOf(ApplyPendingAdds(table, adds), t) == BucketOf(table, t) + AddsOfType(adds, t)
  {
    if t !in table.Keys + AddedTypes(adds) {
      AddsOfUnaddedType(adds, t);
    }
  }

  lemma AddStepAt(table: ListenerTable, adds: PendingAdds, h: ListenerHandle, t: GameplayTag)
    requires h in adds
    ensures BucketOf(ApplyPendingAdds(table, adds), t) == BucketOf(AddListener(ApplyPendingAdds(table, adds - {h}), h, adds[h]), t)
  {
    var rest := adds - {h};
    var before := ApplyPendingAdds(table, rest);
    AddsOfTypeStep(adds, h, t);
    BucketAfterAdds(table, rest, t);
    BucketAfterAdds(table, adds, t);
  }

  /** Applying the staged additions one at a time, in any order, builds the
      same table as applying them all. */
  lemma {:induction false} ApplyPendingAddsStep(table: ListenerTable, adds: PendingAdds, h: ListenerHandle)
    requires h in adds
    ensures ApplyPendingAdds(table, adds) == AddListener(ApplyPendingAdds(table, adds - {h}), h, adds[h])
  {
    var lhs := ApplyPendingAdds(table, adds);
    var rhs := AddListener(ApplyPendingAdds(table, adds - {h}), h, adds[h]);
    AddedTypesStep(adds, h);
    assert lhs.Keys == rhs.Keys;
    forall t | t in lhs.Keys ensures lhs[t] == rhs[t] {
      AddStepAt(table, adds, h, t);
    }
  }

  /** Applying the staged removals one at a time, in any order, builds the
      same table as applying them all. */
  lemma {:induction false} ApplyPendingRemovesStep(table: ListenerTable, removes: PendingRemoves, h: ListenerHandle)
    requires RemovesResolvable(table, removes) && h in removes
    ensures ApplyPendingRemoves(table, removes) == RemoveListener(ApplyPendingRemoves(table, removes - {h}), h)
  {
    var rest := removes - {h};
    var lhs := ApplyPendingRemoves(table, removes);
    var rhs := RemoveListener(ApplyPendingRemoves(table, rest), h);
    forall t | t in lhs.Keys ensures lhs[t] == rhs[t] {
      if t == h.triggerType {
        assert RemovedOfType(removes, t) == RemovedOfType(rest, t) + {h};
      } else {
        assert RemovedOfType(removes, t) == RemovedOfType(rest, t);
      }
    }
  }

  /** When every staged removal names a bucket that exists or a staged
      listener of the handle's own type, the removals are resolvable once
      the additions are applied. */
  lemma AddsMakeRemovesResolvable(table: ListenerTable, adds: PendingAdds, removes: PendingRemoves)
    requires forall h | h in adds :: adds[h].triggerType == h.triggerType
    requires forall h | h in removes :: h.triggerType in table || h in adds
    ensures RemovesResolvable(ApplyPendingAdds(table, adds), removes)
  {
    forall h | h in removes ensures h.triggerType in ApplyPendingAdds(table, adds) {
      if h in adds { assert h.triggerType in AddedTypes(adds); }
    }
  }

  /** Nothing staged, nothing changes. */
  lemma NothingStaged(table: ListenerTable)
    ensures ApplyPendingAdds(table, map[]) == table
    ensures ApplyPendingRemoves(table, {}) == table
  {
    assert AddedTypes(map[]) == {};
    forall t | t in table ensures ApplyPendingAdds(table, map[])[t] == table[t] {
      assert AddsOfType(map[], t) == map[];
    }
    forall t | t in table ensures ApplyPendingRemoves(table, {})[t] == table[t] {
      assert RemovedOfType({}, t) == {};
    }
  }
}
