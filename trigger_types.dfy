/** Value types shared by the gameplay-trigger dispatcher: the operation and
    phase bit-flags, tags, object identities, handles and trigger contexts. */
module TriggerTypes {

  datatype Option<T> = None | Some(value: T)

  /** An 8-bit flag set, as `EOGTriggerOperationFlags` and
      `EOGTriggerListenerPhases` are `uint8` enums. */
  type Flags = bv8

  // Operation flags: one bit per kind of work an operation asks for.
  const OpNone: Flags := 0
  const OpAddActiveTrigger: Flags := 1
  /** The `TriggerUpdate` bit; an Update operation carries it. */
  const OpUpdateActiveTrigger: Flags := 2
  const OpProcessCallbacks: Flags := 4
  const OpNetworkRPC: Flags := 8
  const OpRemoveActiveTrigger: Flags := 16

  // Composite operations.
  const InstantaneousTrigger: Flags := OpAddActiveTrigger | OpProcessCallbacks | OpRemoveActiveTrigger
  const NetworkedInstantaneous: Flags := InstantaneousTrigger | OpNetworkRPC
  const OpenTrigger: Flags := OpAddActiveTrigger | OpProcessCallbacks
  const CloseTrigger: Flags := OpProcessCallbacks | OpRemoveActiveTrigger
  const UpdateTrigger: Flags := OpUpdateActiveTrigger | OpProcessCallbacks

  // Listener phases share the bit positions of the operations they describe.
  const PhaseNone: Flags := 0
  const TriggerStart: Flags := OpAddActiveTrigger
  const TriggerUpdate: Flags := OpUpdateActiveTrigger
  const TriggerEnd: Flags := OpRemoveActiveTrigger
  const AllPhases: Flags := TriggerStart | TriggerUpdate | TriggerEnd

  predicate Has(f: Flags, bits: Flags) {
    f & bits != 0
  }

  /** The phase mask handed to listeners for an operation: the operation's
      flags masked with `All`. Each phase bit is set exactly when the
      operation bit it shares a position with is set, and no other bit
      survives. */
  function PhasesOf(op: Flags): (p: Flags)
    ensures p & !AllPhases == 0
    ensures Has(p, TriggerStart) <==> Has(op, OpAddActiveTrigger)
    ensures Has(p, TriggerUpdate) <==> Has(op, OpUpdateActiveTrigger)
    ensures Has(p, TriggerEnd) <==> Has(op, OpRemoveActiveTrigger)
    ensures !Has(p, OpProcessCallbacks) && !Has(p, OpNetworkRPC)
  {
    op & AllPhases
  }

  predicate SingleBit(f: Flags) {
    f != 0 && f & (f - 1) == 0
  }

  /** The five operation flags are distinct single bits. */
  lemma OperationFlagsAreSingleBits()
    ensures OpAddActiveTrigger == 1 && OpUpdateActiveTrigger == 2 && OpProcessCallbacks == 4
    ensures OpNetworkRPC == 8 && OpRemoveActiveTrigger == 16
    ensures SingleBit(OpAddActiveTrigger) && SingleBit(OpUpdateActiveTrigger) && SingleBit(OpProcessCallbacks)
    ensures SingleBit(OpNetworkRPC) && SingleBit(OpRemoveActiveTrigger)
  {
  }

  /** `All` shares no bit with the two flags that are not phases, and the
      three phases it gathers are distinct bits. */
  lemma AllPhasesLayout()
    ensures !Has(AllPhases, OpProcessCallbacks) && !Has(AllPhases, OpNetworkRPC)
    ensures TriggerStart != TriggerUpdate && TriggerUpdate != TriggerEnd && TriggerStart != TriggerEnd
  {
  }

  /** The phase mask each composite operation delivers to listeners. */
  lemma CompositePhases()
    ensures PhasesOf(InstantaneousTrigger) == TriggerStart | TriggerEnd
    ensures PhasesOf(NetworkedInstantaneous) == PhasesOf(InstantaneousTrigger)
    ensures PhasesOf(OpenTrigger) == TriggerStart
    ensures PhasesOf(CloseTrigger) == TriggerEnd
    ensures PhasesOf(UpdateTrigger) == TriggerUpdate
    ensures Has(InstantaneousTrigger, OpProcessCallbacks) && Has(OpenTrigger, OpProcessCallbacks)
    ensures Has(CloseTrigger, OpProcessCallbacks) && Has(UpdateTrigger, OpProcessCallbacks)
  {
  }

  /** A gameplay tag: an opaque name, or the empty (invalid) tag. */
  datatype GameplayTag = EmptyTag | NamedTag(name: nat) {
    predicate IsValid() { NamedTag? }
  }

  /** Identity of an engine object (initiator, target, filter object,
      delegate owner). Liveness is tracked separately, by the set of
      destroyed objects. */
  type ObjectId = nat

  /** Handle identifiers; 0 is the empty handle. */
  type HandleId = nat

  /** Reference to a context object in the context heap. */
  type CtxId = nat

  /** A key into a context's additional-data bank. */
  type DataKey = nat

  /** `FOGGameplayTriggerHandle`: the base id, the trigger type stamped on it,
      and whether its weak reference to the dispatcher still resolves. */
  datatype TriggerHandle = TriggerHandle(id: HandleId, triggerType: GameplayTag, subsystemBound: bool)

  /** `FOGTriggerListenerHandle`, with the same three parts. */
  datatype ListenerHandle = ListenerHandle(id: HandleId, triggerType: GameplayTag, subsystemBound: bool)

  /** `FOGHandleBase::EmptyHandle`, and the state `Reset` leaves a handle in:
      empty id, empty tag, no dispatcher. */
  const EmptyTriggerHandle := TriggerHandle(0, EmptyTag, false)
  const EmptyListenerHandle := ListenerHandle(0, EmptyTag, false)

  /** `FOGHandleBase::IsValid`: a non-empty id. */
  predicate BaseHandleValid(id: HandleId) {
    id != 0
  }

  /** `FOGGameplayTriggerHandle::IsValid`: only a handle the dispatcher
      issued (a non-zero id) and that still points to it is valid, so the
      empty handle, and every handle `Reset` leaves, is not. */
  predicate TriggerHandleValid(h: TriggerHandle): (b: bool)
    ensures b ==> h.id != 0 && h.subsystemBound && h != EmptyTriggerHandle
  {
    BaseHandleValid(h.id) && h.triggerType.IsValid() && h.subsystemBound
  }

  /** `UOGGameplayTriggerContext`: one trigger occurrence or span. These
      fields are set when the context is made and never change afterwards;
      its `AdditionalData` bank, which callers may change, is kept beside it
      (`TriggerData`). */
  datatype TriggerContext = TriggerContext(
    triggerType: GameplayTag,
    triggerTags: set<GameplayTag>,
    initiator: Option<ObjectId>,
    target: Option<ObjectId>)

  /** `FOGTriggerData`, the context's additional data bank. */
  type TriggerData = map<DataKey, int>

  /** The bank after adding `delta` under `key`, a missing entry counting
      as zero. */
  function WithAdded(data: TriggerData, key: DataKey, delta: int): (r: TriggerData)
    ensures r.Keys == data.Keys + {key}
    ensures key in data ==> r[key] == data[key] + delta
    ensures key !in data ==> r[key] == delta
    ensures forall k | k in data && k != key :: r[k] == data[k]
  {
    data[key := (if key in data then data[key] else 0) + delta]
  }
}
