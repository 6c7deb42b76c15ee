/** Listener registrations (`FOGTriggerListenerData`) and the callbacks they
    carry. A callback is data: a finite script of dispatcher requests that it
    issues each time it is invoked. */
module TriggerListeners {
  import opened TriggerTypes

  /** Which trigger a scripted request is about: the one the callback was
      invoked for, or a handle the callback captured. */
  datatype TriggerRef = InvokingTrigger | GivenTrigger(handle: TriggerHandle)

  /** Which listener a scripted request is about: the invoked listener itself,
      or a captured listener handle. */
  datatype ListenerRef = ThisListener | GivenListener(handle: ListenerHandle)

  /** One dispatcher call a callback makes. */
  datatype Request =
    /** Make a context and start it (`StartTriggerImplicitContext`), or fire it
        as an instantaneous trigger (`InstantaneousTriggerImplicitContext`). */
    | StartNew(triggerType: GameplayTag, tags: set<GameplayTag>, initiator: Option<ObjectId>,
               target: Option<ObjectId>, instantaneous: bool)
    /** `GetTriggerContextForUpdate`, add `delta` to one data entry of the
        context it hands out, then `UpdateTrigger` with that context. */
    | AddToData(trigger: TriggerRef, key: DataKey, delta: int)
    /** `EndTrigger`. */
    | End(trigger: TriggerRef)
    /** `RegisterTriggerListener`. */
    | Register(triggerType: GameplayTag, phases: Flags, callback: Delegate,
               filterInstigator: Option<ObjectId>, filterTarget: Option<ObjectId>, fireForExisting: bool)
    /** `RemoveTriggerListener`. */
    | Unregister(listener: ListenerRef)

  /** `FOGTriggerDelegate`: unbound, or bound to a script. A delegate bound
      through an owner object stops being bound when that object is
      destroyed; one bound to a free lambda (no owner) stays bound. */
  datatype Delegate = Unbound | Bound(owner: Option<ObjectId>, script: seq<Request>)

  predicate IsBound(d: Delegate, destroyed: set<ObjectId>) {
    d.Bound? && (d.owner.Some? ==> d.owner.value !in destroyed)
  }

  /** `FOGTriggerListenerData`. `bFilterOnInstigator` and `bFilterOnTarget`
      are `instigatorFilter.Some?` and `targetFilter.Some?`: the constructor
      sets them from whether the filter object was non-null. */
  datatype ListenerData = ListenerData(
    triggerType: GameplayTag,
    listenerPhases: Flags,
    instigatorFilter: Option<ObjectId>,
    targetFilter: Option<ObjectId>,
    callback: Delegate)

  /** `TWeakObjectPtr::IsValid`. */
  predicate WeakValid(o: ObjectId, destroyed: set<ObjectId>) {
    o !in destroyed
  }

  /** `TWeakObjectPtr::Get`: the object while it lives, null afterwards. */
  function WeakGet(o: ObjectId, destroyed: set<ObjectId>): Option<ObjectId> {
    if o in destroyed then None else Some(o)
  }

  /** `FOGTriggerListenerData::IsListenerValid`: a valid listener's callback
      is bound and each filter it sets still resolves to a live object. */
  predicate IsListenerValid(l: ListenerData, destroyed: set<ObjectId>): (b: bool)
    ensures b ==> IsBound(l.callback, destroyed)
    ensures b && l.instigatorFilter.Some? ==> WeakGet(l.instigatorFilter.value, destroyed) == l.instigatorFilter
    ensures b && l.targetFilter.Some? ==> WeakGet(l.targetFilter.value, destroyed) == l.targetFilter
  {
    && IsBound(l.callback, destroyed)
    && (l.instigatorFilter.Some? ==> WeakValid(l.instigatorFilter.value, destroyed))
    && (l.targetFilter.Some? ==> WeakValid(l.targetFilter.value, destroyed))
  }

  /** `FOGTriggerListenerData::ShouldListenerProcessTrigger`: a listener
      accepts only a phase its mask shares a bit with, and a trigger whose
      initiator and target are what its filters resolve to. */
  predicate ShouldListenerProcessTrigger(l: ListenerData, phase: Flags, trigger: TriggerContext, destroyed: set<ObjectId>): (b: bool)
    ensures b ==> l.listenerPhases & phase != 0
    ensures b && l.instigatorFilter.Some? ==> trigger.initiator == WeakGet(l.instigatorFilter.value, destroyed)
    ensures b && l.targetFilter.Some? ==> trigger.target == WeakGet(l.targetFilter.value, destroyed)
  {
    && Has(l.listenerPhases, phase)
    && (l.instigatorFilter.Some? ==> trigger.initiator == WeakGet(l.instigatorFilter.value, destroyed))
    && (l.targetFilter.Some? ==> trigger.target == WeakGet(l.targetFilter.value, destroyed))
  }

  /** A listener without identity filters accepts a trigger exactly when its
      phase mask meets the trigger's phase, whoever initiated or is targeted
      by it. */
  lemma UnfilteredListenerIgnoresIdentities(l: ListenerData, phase: Flags, a: TriggerContext, b: TriggerContext, destroyed: set<ObjectId>)
    requires l.instigatorFilter.None? && l.targetFilter.None?
    ensures ShouldListenerProcessTrigger(l, phase, a, destroyed) <==> Has(l.listenerPhases, phase)
    ensures ShouldListenerProcessTrigger(l, phase, a, destroyed) == ShouldListenerProcessTrigger(l, phase, b, destroyed)
  {
  }

  /** A valid listener filtered on instigator `i` accepts a trigger only if
      that trigger was initiated by `i`, and likewise for the target. */
  lemma FiltersMatchByIdentity(l: ListenerData, phase: Flags, t: TriggerContext, destroyed: set<ObjectId>)
    requires IsListenerValid(l, destroyed)
    ensures ShouldListenerProcessTrigger(l, phase, t, destroyed) <==>
              && Has(l.listenerPhases, phase)
              && (l.instigatorFilter.Some? ==> t.initiator == l.instigatorFilter)
              && (l.targetFilter.Some? ==> t.target == l.targetFilter)
  {
  }

  /** An instantaneous trigger's single phase mask `Start|End` reaches every
      listener that subscribed to either of its two phases. */
  lemma InstantaneousReachesStartOrEndListeners(l: ListenerData)
    ensures Has(l.listenerPhases, PhasesOf(InstantaneousTrigger)) <==>
              (Has(l.listenerPhases, TriggerStart) || Has(l.listenerPhases, TriggerEnd))
  {
    CompositePhases();
  }

  // Sizes of requests and scripts, used as termination measures for the
  // reentrant calls a script makes.

  function RequestSize(r: Request): (n: nat)
    ensures n >= 1
  {
    match r
    case Register(_, _, callback, _, _, _) => DelegateSize(callback) + 6
    case _ => 1
  }

  function DelegateSize(d: Delegate): nat {
    match d
    case Unbound => 0
    case Bound(_, script) => ScriptSize(script) + 1
  }

  function ScriptSize(s: seq<Request>): nat
    decreases s
  {
    if s == [] then 0 else RequestSize(s[0]) + ScriptSize(s[1..])
  }

  /** Every request of a script is smaller than the script, so running a
      bound delegate's script request by request goes down in size. */
  lemma {:induction false} RequestSmallerThanScript(s: seq<Request>, i: nat)
    requires i < |s|
    ensures RequestSize(s[i]) <= ScriptSize(s)
    decreases s
  {
    if i > 0 {
      RequestSmallerThanScript(s[1..], i - 1);
    }
  }
}
