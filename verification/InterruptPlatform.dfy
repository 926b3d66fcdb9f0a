/**
 The bounded interrupt source table (kernel/src/device/interrupt.rs:187-393).

 The abstract table maps each bound source to its generation and state.  The class
 keeps it in a slot array whose generations are counted per slot.
 */
module InterruptPlatform {
  import opened Wrappers

  datatype Binding = Binding(domain: nat, source: nat, generation: nat)

  datatype SourceState = SrcReserved | SrcArmed | SrcMasked

  datatype Source = Source(generation: nat, state: SourceState)

  type Sources = map<nat, Source>

  datatype PlatformError = Capacity | SourceInUse | InvalidSource | StaleBinding | BadState

  datatype AckOutcome = Rearmed | PendingAfterRace

  /** The binding names the current generation of a bound source. */
  predicate Exact(domain: nat, sources: Sources, b: Binding) {
    b.domain == domain && b.source in sources && sources[b.source].generation == b.generation
  }

  predicate ExactIn(domain: nat, sources: Sources, b: Binding, state: SourceState) {
    Exact(domain, sources, b) && sources[b.source].state == state
  }

  function SetState(sources: Sources, b: Binding, state: SourceState): Sources
    requires b.source in sources
  {
    sources[b.source := sources[b.source].(state := state)]
  }

  /** Preparing a delivery masks an armed source. */
  function PrepareDelivery(domain: nat, sources: Sources, b: Binding): Result<Sources, PlatformError> {
    if !Exact(domain, sources, b) then Failure(StaleBinding)
    else if sources[b.source].state == SrcReserved then Failure(BadState)
    else Success(SetState(sources, b, SrcMasked))
  }

  function AcknowledgeSource(domain: nat, sources: Sources, b: Binding): Result<(), PlatformError> {
    if !Exact(domain, sources, b) then Failure(StaleBinding)
    else if sources[b.source].state != SrcMasked then Failure(BadState)
    else Success(())
  }

  function CompleteAck(sources: Sources, b: Binding, outcome: AckOutcome): Sources
    requires b.source in sources
  {
    if outcome == Rearmed then SetState(sources, b, SrcArmed) else sources
  }

  predicate ReservedSource(source: nat) { source == 0 || source == 4 }

  datatype SourceRecord = SourceRecord(source: nat, generation: nat, state: SourceState)

  datatype SourceSlot = SourceSlot(generation: nat, record: Option<SourceRecord>)

  predicate OpenSlot(slot: SourceSlot) { slot.record.None? && slot.generation != U64_MAX }

  /** The slot holds exactly this source and generation. */
  predicate HoldsBinding(slot: SourceSlot, b: Binding) {
    slot.record.Some? && slot.record.value.source == b.source && slot.record.value.generation == b.generation
  }

  // ----- The slot array, one lock region at a time -----

  predicate HoldsSource(slot: SourceSlot, source: nat) { slot.record.Some? && slot.record.value.source == source }

  /** Lowest slot from `from` on that can take a source. */
  function FirstOpen(slots: seq<SourceSlot>, from: nat): (r: Option<nat>)
    requires from <= |slots|
    ensures r.Some? ==> from <= r.value < |slots| && OpenSlot(slots[r.value])
    ensures r.Some? ==> forall j :: from <= j < r.value ==> !OpenSlot(slots[j])
    ensures r.None? ==> forall j :: from <= j < |slots| ==> !OpenSlot(slots[j])
    decreases |slots| - from
  {
    if from == |slots| then None
    else if OpenSlot(slots[from]) then Some(from)
    else FirstOpen(slots, from + 1)
  }

  /** Lowest slot from `from` on that holds exactly this source and generation. */
  function FirstHolding(slots: seq<SourceSlot>, b: Binding, from: nat): (r: Option<nat>)
    requires from <= |slots|
    ensures r.Some? ==> from <= r.value < |slots| && HoldsBinding(slots[r.value], b)
    ensures r.None? ==> forall j :: from <= j < |slots| ==> !HoldsBinding(slots[j], b)
    decreases |slots| - from
  {
    if from == |slots| then None
    else if HoldsBinding(slots[from], b) then Some(from)
    else FirstHolding(slots, b, from + 1)
  }

  function FindSlot(domain: nat, slots: seq<SourceSlot>, b: Binding): Option<nat> {
    if b.domain != domain then None else FirstHolding(slots, b, 0)
  }

  /** Where this binding's record is, if it is there in one of these states. */
  function FindIn(domain: nat, slots: seq<SourceSlot>, b: Binding, states: set<SourceState>): (r: Option<nat>)
    ensures r.Some? ==> r.value < |slots| && HoldsBinding(slots[r.value], b) && slots[r.value].record.value.state in states
  {
    match FindSlot(domain, slots, b)
    case Some(i) => if slots[i].record.value.state in states then Some(i) else None
    case None => None
  }

  function WithState(slots: seq<SourceSlot>, i: nat, state: SourceState): seq<SourceSlot>
    requires i < |slots| && slots[i].record.Some?
  {
    slots[i := slots[i].(record := Some(slots[i].record.value.(state := state)))]
  }

  function Erased(slots: seq<SourceSlot>, i: nat): seq<SourceSlot>
    requires i < |slots|
  {
    slots[i := slots[i].(record := None)]
  }

  /** Everything that is done to the slot array. */
  datatype SlotOp =
    | ReserveOp(source: nat)
    | CancelOp(b: Binding)
    | DeliverOp(b: Binding)
    | CommitOp(b: Binding)
    | MaskOp(b: Binding)
    | CompleteOp(b: Binding, outcome: AckOutcome)
    | ReleaseOp(b: Binding)

  /** What a reservation of this source answers. */
  function ReserveAnswer(domain: nat, slots: seq<SourceSlot>, source: nat): Result<Binding, PlatformError> {
    if ReservedSource(source) then Failure(InvalidSource)
    else if exists i :: 0 <= i < |slots| && HoldsSource(slots[i], source) then Failure(SourceInUse)
    else
      match FirstOpen(slots, 0)
      case None => Failure(Capacity)
      case Some(i) => Success(Binding(domain, source, slots[i].generation + 1))
  }

  /** The slot array after one operation; an operation that is refused changes nothing. */
  function AfterOp(domain: nat, slots: seq<SourceSlot>, op: SlotOp): seq<SourceSlot> {
    match op
    case ReserveOp(source) =>
      (match ReserveAnswer(domain, slots, source)
       case Failure(_) => slots
       case Success(b) =>
         slots[FirstOpen(slots, 0).value := SourceSlot(b.generation, Some(SourceRecord(source, b.generation, SrcReserved)))])
    case CancelOp(b) =>
      (match FindIn(domain, slots, b, {SrcReserved}) case None => slots case Some(i) => Erased(slots, i))
    case DeliverOp(b) =>
      (match FindIn(domain, slots, b, {SrcArmed, SrcMasked}) case None => slots case Some(i) => WithState(slots, i, SrcMasked))
    case CommitOp(b) =>
      (match FindIn(domain, slots, b, {SrcReserved}) case None => slots case Some(i) => WithState(slots, i, SrcArmed))
    case MaskOp(b) =>
      (match FindIn(domain, slots, b, {SrcArmed, SrcMasked}) case None => slots case Some(i) => WithState(slots, i, SrcMasked))
    case CompleteOp(b, outcome) =>
      (match FindIn(domain, slots, b, {SrcMasked})
       case None => slots
       case Some(i) => if outcome == Rearmed then WithState(slots, i, SrcArmed) else slots)
    case ReleaseOp(b) =>
      (match FindIn(domain, slots, b, {SrcMasked}) case None => slots case Some(i) => Erased(slots, i))
  }

  /** The source went into the lowest usable slot, under that slot's next generation. */
  ghost predicate FillsFirst(before: seq<SourceSlot>, after: seq<SourceSlot>, source: nat, generation: nat) {
    exists i: nat ::
      && i < |before| && before[i].record.None? && before[i].generation != U64_MAX && generation == before[i].generation + 1
      && (forall j :: 0 <= j < i ==> before[j].record.Some? || before[j].generation == U64_MAX)
      && after == before[i := SourceSlot(generation, Some(SourceRecord(source, generation, SrcReserved)))]
  }

  class InterruptPlatformModel {
    const domain: nat
    const slots: array<SourceSlot>
    /** The abstract table, where each source lives, and every binding ever issued. */
    ghost var table: Sources
    ghost var place: map<nat, nat>
    ghost var issued: set<Binding>

    ghost predicate Valid() reads this, slots {
      && table.Keys == place.Keys
      && (forall source :: source in place ==>
            && place[source] < slots.Length
            && slots[place[source]].record == Some(SourceRecord(source, table[source].generation, table[source].state)))
      && (forall i :: 0 <= i < slots.Length && slots[i].record.Some? ==>
            var r := slots[i].record.value; r.source in place && place[r.source] == i && r.generation <= slots[i].generation)
      && (slots.Length == 1 ==> forall b :: b in issued ==> b.generation <= slots[0].generation)
    }

    constructor (domain: nat, capacity: nat)
      ensures Valid() && fresh(slots) && this.domain == domain && slots.Length == capacity
      ensures table == map[] && issued == {} && forall i :: 0 <= i < capacity ==> slots[i] == SourceSlot(0, None)
    {
      this.domain := domain;
      slots := new SourceSlot[capacity](_ => SourceSlot(0, None));
      table, place, issued := map[], map[], {};
    }

    /** The slot that owns an exact binding, if any. */
    method FindExact(b: Binding) returns (found: Option<nat>)
      requires Valid()
      ensures found.Some? <==> Exact(domain, table, b)
      ensures found.Some? ==> found.value == place[b.source]
      ensures found == FindSlot(domain, slots[..], b)
    {
      if b.domain != domain {
        return None;
      }
      var i := 0;
      while i < slots.Length
        invariant i <= slots.Length
        invariant forall j :: 0 <= j < i ==> !HoldsBinding(slots[j], b)
        invariant FirstHolding(slots[..], b, 0) == FirstHolding(slots[..], b, i)
      {
        if HoldsBinding(slots[i], b) {
          return Some(i);
        }
        i := i + 1;
      }
      found := None;
    }

    /** Writes a new state into an owned record. */
    method Write(i: nat, b: Binding, state: SourceState)
      requires Valid() && Exact(domain, table, b) && place[b.source] == i
      modifies this`table, slots
      ensures Valid() && table == SetState(old(table), b, state)
      ensures slots[..] == WithState(old(slots[..]), i, state)
    {
      slots[i] := slots[i].(record := Some(slots[i].record.value.(state := state)));
      table := SetState(table, b, state);
    }

    /** Empties an owned slot; its generation stays. */
    method Erase(i: nat, b: Binding)
      requires Valid() && Exact(domain, table, b) && place[b.source] == i
      modifies this`table, this`place, slots
      ensures Valid() && table == old(table) - {b.source} && place == old(place) - {b.source}
      ensures slots[..] == Erased(old(slots[..]), i)
    {
      slots[i] := slots[i].(record := None);
      table := table - {b.source};
      place := place - {b.source};
    }

    method InUse(source: nat) returns (used: bool)
      requires Valid()
      ensures used <==> source in table
      ensures used <==> exists i :: 0 <= i < |slots[..]| && HoldsSource(slots[..][i], source)
    {
      var i := 0;
      while i < slots.Length
        invariant i <= slots.Length
        invariant forall j :: 0 <= j < i && slots[j].record.Some? ==> slots[j].record.value.source != source
      {
        if HoldsSource(slots[i], source) {
          assert HoldsSource(slots[..][i], source);
          return true;
        }
        i := i + 1;
      }
      used := false;
    }

    method FindOpen() returns (found: Option<nat>)
      ensures found == FirstOpen(slots[..], 0)
    {
      var i := 0;
      while i < slots.Length
        invariant i <= slots.Length
        invariant FirstOpen(slots[..], 0) == FirstOpen(slots[..], i)
      {
        if OpenSlot(slots[i]) {
          return Some(i);
        }
        i := i + 1;
      }
      found := None;
    }

    /**
     Binds a free source.  The two reserved lines are refused first, then a source
     already bound, then a full table.  With a single slot no binding ever recurs.
     */
    method ReserveSource(source: nat) returns (r: Result<Binding, PlatformError>)
      requires Valid()
      modifies this, slots
      ensures Valid()
      ensures r == ReserveAnswer(domain, old(slots[..]), source) && slots[..] == AfterOp(domain, old(slots[..]), ReserveOp(source))
      ensures r == Failure(InvalidSource) <==> source == 0 || source == 4
      ensures r == Failure(SourceInUse) <==> !ReservedSource(source) && source in old(table)
      ensures r == Failure(Capacity) <==>
              && !ReservedSource(source) && source !in old(table)
              && forall i :: 0 <= i < slots.Length ==> old(slots[i]).record.Some? || old(slots[i]).generation == U64_MAX
      ensures r.Failure? ==> r.error in {InvalidSource, SourceInUse, Capacity}
      ensures r.Failure? ==> table == old(table) && issued == old(issued)
      ensures r.Success? ==>
                && r.value.domain == domain && r.value.source == source && r.value.generation > 0
                && FillsFirst(old(slots[..]), slots[..], source, r.value.generation)
                && table == old(table)[source := Source(r.value.generation, SrcReserved)]
                && issued == old(issued) + {r.value}
      ensures r.Success? && slots.Length == 1 ==> r.value !in old(issued)
    {
      if ReservedSource(source) {
        return Failure(InvalidSource);
      }
      var used := InUse(source);
      if used {
        return Failure(SourceInUse);
      }
      var open := FindOpen();
      if open.None? {
        return Failure(Capacity);
      }
      var b := Occupy(open.value, source);
      r := Success(b);
    }

    /** Binds a free source in an open slot. */
    method Occupy(i: nat, source: nat) returns (b: Binding)
      requires Valid() && i < slots.Length && OpenSlot(slots[i]) && source !in table
      modifies this, slots
      ensures Valid() && b == Binding(domain, source, old(slots[i]).generation + 1)
      ensures slots[..] == old(slots[..])[i := SourceSlot(b.generation, Some(SourceRecord(source, b.generation, SrcReserved)))]
      ensures table == old(table)[source := Source(b.generation, SrcReserved)] && issued == old(issued) + {b}
      ensures slots.Length == 1 ==> b !in old(issued)
    {
      var generation := slots[i].generation + 1;
      slots[i] := SourceSlot(generation, Some(SourceRecord(source, generation, SrcReserved)));
      table := table[source := Source(generation, SrcReserved)];
      place := place[source := i];
      b := Binding(domain, source, generation);
      issued := issued + {b};
    }

    ghost predicate HasOpen() reads this, slots {
      exists i :: 0 <= i < slots.Length && slots[i].record.None? && slots[i].generation != U64_MAX
    }

    /** The same, seen from the abstract table. */
    method Reserve(source: nat) returns (r: Result<Binding, PlatformError>)
      requires Valid()
      modifies this, slots
      ensures Valid()
      ensures r == ReserveAnswer(domain, old(slots[..]), source)
      ensures r == Failure(InvalidSource) <==> source == 0 || source == 4
      ensures r == Failure(SourceInUse) <==> !ReservedSource(source) && source in old(table)
      ensures r == Failure(Capacity) <==> !ReservedSource(source) && source !in old(table) && !old(HasOpen())
      ensures r.Failure? ==> r.error in {InvalidSource, SourceInUse, Capacity}
      ensures r.Success? ==>
                && r.value == Binding(domain, source, r.value.generation)
                && table == old(table)[source := Source(r.value.generation, SrcReserved)]
      ensures r.Failure? ==> table == old(table)
    {
      r := ReserveSource(source);
    }

    /** Cancels a reservation this caller holds. */
    method CancelHeld(b: Binding)
      requires Valid() && ExactIn(domain, table, b, SrcReserved)
      modifies this, slots
      ensures Valid() && table == old(table) - {b.source}
    {
      var cancelled := CancelSource(b);
    }

    method CancelSource(b: Binding) returns (r: Result<(), PlatformError>)
      requires Valid()
      modifies this, slots
      ensures Valid() && issued == old(issued)
      ensures r == Failure(StaleBinding) <==> !Exact(domain, old(table), b)
      ensures r == Failure(BadState) <==> Exact(domain, old(table), b) && old(table)[b.source].state != SrcReserved
      ensures r.Failure? ==> r.error in {StaleBinding, BadState} && table == old(table)
      ensures r.Success? ==> old(ExactIn(domain, table, b, SrcReserved)) && table == old(table) - {b.source}
      ensures slots[..] == AfterOp(domain, old(slots[..]), CancelOp(b))
    {
      var i := FindExact(b);
      if i.None? {
        return Failure(StaleBinding);
      }
      if slots[i.value].record.value.state != SrcReserved {
        return Failure(BadState);
      }
      Erase(i.value, b);
      r := Success(());
    }

    method PrepareSourceDelivery(b: Binding) returns (r: Result<(), PlatformError>)
      requires Valid()
      modifies this`table, slots
      ensures Valid()
      ensures match PrepareDelivery(domain, old(table), b)
              case Success(after) => r == Success(()) && table == after
              case Failure(e) => r == Failure(e) && table == old(table)
      ensures r == Failure(StaleBinding) <==> !Exact(domain, old(table), b)
      ensures r == Failure(BadState) <==> ExactIn(domain, old(table), b, SrcReserved)
      ensures r.Failure? ==> r.error in {StaleBinding, BadState}
      ensures r.Success? ==> table == SetState(old(table), b, SrcMasked)
      ensures slots[..] == AfterOp(domain, old(slots[..]), DeliverOp(b))
    {
      var i := FindExact(b);
      if i.None? {
        return Failure(StaleBinding);
      }
      var state := slots[i.value].record.value.state;
      if state == SrcReserved {
        return Failure(BadState);
      }
      Write(i.value, b, SrcMasked);
      r := Success(());
    }

    /** No-fail: the caller holds the exact reservation. */
    method CommitSource(b: Binding)
      requires Valid() && ExactIn(domain, table, b, SrcReserved)
      modifies this`table, slots
      ensures Valid() && table == SetState(old(table), b, SrcArmed)
      ensures slots[..] == AfterOp(domain, old(slots[..]), CommitOp(b))
    {
      var i := FindExact(b);
      Write(i.value, b, SrcArmed);
    }

    /** No-fail: the caller owns a committed source. */
    method MaskSource(b: Binding)
      requires Valid() && Exact(domain, table, b) && table[b.source].state != SrcReserved
      modifies this`table, slots
      ensures Valid() && table == SetState(old(table), b, SrcMasked)
      ensures slots[..] == AfterOp(domain, old(slots[..]), MaskOp(b))
    {
      var i := FindExact(b);
      Write(i.value, b, SrcMasked);
    }

    method Acknowledge(b: Binding) returns (r: Result<(), PlatformError>)
      requires Valid()
      ensures r == AcknowledgeSource(domain, table, b)
      ensures r.Success? <==> ExactIn(domain, table, b, SrcMasked)
      ensures r == Failure(StaleBinding) <==> !Exact(domain, table, b)
      ensures r.Failure? ==> r.error in {StaleBinding, BadState}
    {
      var i := FindExact(b);
      if i.None? {
        return Failure(StaleBinding);
      }
      if slots[i.value].record.value.state != SrcMasked {
        return Failure(BadState);
      }
      r := Success(());
    }

    /** No-fail: the caller holds a prepared acknowledgement of a masked source. */
    method CompleteAcknowledgement(b: Binding, outcome: AckOutcome)
      requires Valid() && ExactIn(domain, table, b, SrcMasked)
      modifies this`table, slots
      ensures Valid() && table == CompleteAck(old(table), b, outcome)
      ensures outcome == Rearmed ==> table == SetState(old(table), b, SrcArmed)
      ensures outcome == PendingAfterRace ==> table == old(table)
      ensures slots[..] == AfterOp(domain, old(slots[..]), CompleteOp(b, outcome))
    {
      var i := FindExact(b);
      if outcome == Rearmed {
        Write(i.value, b, SrcArmed);
      }
    }

    /** No-fail: the caller retires an exact masked source. */
    method ReleaseSource(b: Binding)
      requires Valid() && ExactIn(domain, table, b, SrcMasked)
      modifies this, slots
      ensures Valid() && table == old(table) - {b.source} && issued == old(issued)
      ensures slots[..] == AfterOp(domain, old(slots[..]), ReleaseOp(b))
    {
      var i := FindExact(b);
      Erase(i.value, b);
    }

    /** Retires a committed source at once: mask, then release. */
    method RetireSource(b: Binding)
      requires Valid() && Exact(domain, table, b) && table[b.source].state != SrcReserved
      modifies this, slots
      ensures Valid() && table == old(table) - {b.source}
    {
      hide Valid;
      MaskSource(b);
      ReleaseSource(b);
      assert table == old(table) - {b.source};
    }
  }
}
