/** The handle operations that call back into the dispatcher:
    `FOGGameplayTriggerHandle::IsActive`/`Reset` and
    `FOGTriggerListenerHandle::Reset`. A handle's weak pointer to its
    dispatcher is the `subsystemBound` flag; the dispatcher it points to is
    passed in. */
module TriggerHandles {
  import opened TriggerTypes
  import opened TriggerOperations
  import opened TriggerSubsystem

  /** `FOGGameplayTriggerHandle::IsActive`. */
  predicate IsActive(h: TriggerHandle, sub: GameplayTriggerSubsystem)
    reads sub`activeTriggersByType
  {
    TriggerHandleValid(h) && sub.IsTriggerActive(h)
  }

  /** A handle is active exactly when it is valid and stored under its own
      type; the empty handle never is. */
  lemma IsActiveMeansStored(h: TriggerHandle, sub: GameplayTriggerSubsystem)
    ensures IsActive(h, sub) <==> TriggerHandleValid(h) && ActiveIn(sub.activeTriggersByType, h)
    ensures !IsActive(EmptyTriggerHandle, sub)
  {
  }

  /** `FOGGameplayTriggerHandle::Reset`: an active trigger is ended through
      its dispatcher, and the handle becomes the empty handle. Resetting a
      handle that is not active changes nothing in the dispatcher. */
  method ResetTriggerHandle(h: TriggerHandle, sub: GameplayTriggerSubsystem) returns (r: TriggerHandle)
    requires sub.Valid() && !sub.halted
    modifies sub
    ensures r == EmptyTriggerHandle && !TriggerHandleValid(r) && !IsActive(r, sub)
    ensures sub.Valid()
    ensures !old(IsActive(h, sub)) ==> unchanged(sub)
    ensures old(IsActive(h, sub)) && old(sub.operationQueue) != [] ==>
      && sub.QueuedOnly(PendingOp(h, CloseTrigger, None))
      && unchanged(sub`contexts, sub`contextData, sub`nextId, sub`destroyed)
    ensures old(IsActive(h, sub)) && old(sub.operationQueue) == [] ==> sub.Drained(PendingOp(h, CloseTrigger, None))
  {
    if IsActive(h, sub) {
      sub.EndTrigger(h);
    }
    r := EmptyTriggerHandle;
  }

  /** `FOGTriggerListenerHandle::Reset`: a valid listener is staged for
      removal through its dispatcher, and the handle becomes the empty
      handle, which is never valid. */
  method ResetListenerHandle(h: ListenerHandle, sub: GameplayTriggerSubsystem) returns (r: ListenerHandle)
    requires sub.Valid()
    modifies sub`listenersPendingRemove
    ensures r == EmptyListenerHandle && !sub.ListenerHandleIsValid(r)
    ensures sub.Valid()
    ensures !old(sub.ListenerHandleIsValid(h)) ==> unchanged(sub)
    ensures old(sub.ListenerHandleIsValid(h)) ==>
      && sub.listenersPendingRemove == old(sub.listenersPendingRemove) + {h}
      && !sub.IsListenerHandleValid(h)
      && unchanged(sub`listenersByType, sub`listenersPendingAdd, sub`activeTriggersByType, sub`operationQueue)
  {
    if sub.ListenerHandleIsValid(h) {
      sub.RemoveTriggerListener(h);
    }
    r := EmptyListenerHandle;
  }
}
