/**
 The bounded authority that owns typed Interrupt records
 (kernel/src/device/interrupt.rs:498-887, 950-1138).

 The abstract table maps each object to its record; the class keeps it in an array
 of optional records and searches it the way the kernel does.
 */
module InterruptAuthority {
  import opened Wrappers
  import opened InterruptPlatform
  import opened InterruptState

  type ObjectId = nat
  type Pin = nat

  const OBJECT_TYPE_DEVICE_RESOURCE: nat := 17
  const OBJECT_TYPE_INTERRUPT: nat := 16

  /** The move-only proof that an object lost its last reference. */
  datatype FinalRelease = FinalRelease(id: ObjectId)

  datatype Record = Record(
    id: ObjectId,
    binding: Binding,
    parent: Pin,
    state: IntState,
    pendingRelease: Option<FinalRelease>,
    retrying: bool)

  type Records = map<ObjectId, Record>

  datatype InterruptError =
    | Full
    | InvalidObject
    | IdentityInUse
    | WrongState
    | FinalizationMismatch

  /** Another live record already has this object or this source. */
  predicate Conflicts(r: Record, id: ObjectId, binding: Binding) {
    r.id == id || r.binding.source == binding.source || r.binding == binding
  }

  ghost predicate Clash(records: Records, id: ObjectId, binding: Binding) {
    exists o :: o in records && Conflicts(records[o], id, binding)
  }

  function Fresh(id: ObjectId, binding: Binding, parent: Pin): Record {
    Record(id, binding, parent, Creating, None, false)
  }

  predicate ExactRecord(records: Records, id: ObjectId, binding: Binding) {
    id in records && records[id].binding == binding
  }

  function SetRecordState(records: Records, id: ObjectId, state: IntState): Records
    requires id in records
  {
    records[id := records[id].(state := state)]
  }

  /** The record that a delivery for `binding` reaches. */
  predicate Reaches(r: Record, binding: Binding) { r.binding == binding && Live(r.state) }

  /** A deferred retirement nobody is working on. */
  predicate Retryable(r: Record) {
    r.state.Finalizing? && r.pendingRelease.Some? && !r.retrying
  }

  ghost predicate OneRecordPerSource(records: Records) {
    && (forall o :: o in records ==> records[o].id == o)
    && (forall o, q :: o in records && q in records && records[o].binding.source == records[q].binding.source ==> o == q)
  }

  class InterruptRecords {
    const slots: array<Option<Record>>
    ghost var table: Records
    ghost var place: map<ObjectId, nat>

    ghost predicate Valid() reads this, slots {
      && table.Keys == place.Keys
      && (forall o :: o in place ==> place[o] < slots.Length && slots[place[o]] == Some(table[o]))
      && (forall i :: 0 <= i < slots.Length && slots[i].Some? ==>
            var o := slots[i].value.id; o in place && place[o] == i)
      && OneRecordPerSource(table)
    }

    constructor (capacity: nat)
      ensures Valid() && fresh(slots) && slots.Length == capacity && table == map[]
    {
      slots := new Option<Record>[capacity](_ => None);
      table, place := map[], map[];
    }

    method FindObject(id: ObjectId) returns (found: Option<nat>)
      requires Valid()
      ensures found.Some? <==> id in table
      ensures found.Some? ==> found.value == place[id]
    {
      var i := 0;
      while i < slots.Length
        invariant i <= slots.Length
        invariant forall j :: 0 <= j < i && slots[j].Some? ==> slots[j].value.id != id
      {
        if slots[i].Some? && slots[i].value.id == id {
          return Some(i);
        }
        i := i + 1;
      }
      found := None;
    }

    /** Replaces a record by one with the same identity. */
    method Write(i: nat, r: Record)
      requires Valid() && i < slots.Length && slots[i].Some?
      requires r.id == slots[i].value.id && r.binding == slots[i].value.binding
      modifies this`table, slots
      ensures Valid() && table == old(table)[r.id := r]
    {
      slots[i] := Some(r);
      table := table[r.id := r];
    }

    method AnyClash(id: ObjectId, binding: Binding) returns (clash: bool)
      requires Valid()
      ensures clash <==> Clash(table, id, binding)
    {
      var i := 0;
      while i < slots.Length
        invariant i <= slots.Length
        invariant forall j :: 0 <= j < i && slots[j].Some? ==> !Conflicts(slots[j].value, id, binding)
      {
        if slots[i].Some? && Conflicts(slots[i].value, id, binding) {
          assert slots[i].value.id in table;
          return true;
        }
        i := i + 1;
      }
      clash := false;
    }

    method FindOpen() returns (found: Option<nat>)
      ensures found.Some? ==> found.value < slots.Length && slots[found.value].None?
      ensures found.None? ==> forall i :: 0 <= i < slots.Length ==> slots[i].Some?
    {
      var i := 0;
      while i < slots.Length
        invariant i <= slots.Length
        invariant forall j :: 0 <= j < i ==> slots[j].Some?
      {
        if slots[i].None? {
          return Some(i);
        }
        i := i + 1;
      }
      found := None;
    }

    /** Fills an empty slot with a record that clashes with no other. */
    method Insert(i: nat, r: Record)
      requires Valid() && i < slots.Length && slots[i].None? && !Clash(table, r.id, r.binding)
      modifies this, slots
      ensures Valid() && r.id !in old(table) && table == old(table)[r.id := r]
    {
      assert forall o :: o in table ==> !Conflicts(table[o], r.id, r.binding);
      assert r.id !in table;
      slots[i] := Some(r);
      table := table[r.id := r];
      place := place[r.id := i];
    }

    ghost predicate HasRoom() reads this, slots {
      exists i :: 0 <= i < slots.Length && slots[i].None?
    }

    /** Adds a record in the Creating state, never a second one for an object or source. */
    method Bind(creationType: nat, id: ObjectId, parentType: nat, parent: Pin, binding: Binding)
      returns (r: Result<(), InterruptError>)
      requires Valid()
      modifies this, slots
      ensures Valid()
      ensures r == Failure(InvalidObject) <==>
              creationType != OBJECT_TYPE_INTERRUPT || parentType != OBJECT_TYPE_DEVICE_RESOURCE
      ensures r == Failure(IdentityInUse) <==>
              && creationType == OBJECT_TYPE_INTERRUPT && parentType == OBJECT_TYPE_DEVICE_RESOURCE
              && Clash(old(table), id, binding)
      ensures r.Failure? ==> table == old(table) && r.error in {InvalidObject, IdentityInUse, Full}
      ensures Clash(old(table), id, binding) <==> id in old(table) || exists o :: o in old(table) && old(table)[o].binding.source == binding.source
      ensures r == Failure(Full) <==>
              && creationType == OBJECT_TYPE_INTERRUPT && parentType == OBJECT_TYPE_DEVICE_RESOURCE
              && !Clash(old(table), id, binding) && !old(HasRoom())
      ensures r.Success? ==> id !in old(table) && table == old(table)[id := Record(id, binding, parent, Creating, None, false)]
    {
      if creationType != OBJECT_TYPE_INTERRUPT || parentType != OBJECT_TYPE_DEVICE_RESOURCE {
        return Failure(InvalidObject);
      }
      var clash := AnyClash(id, binding);
      if clash {
        return Failure(IdentityInUse);
      }
      var open := FindOpen();
      if open.None? {
        return Failure(Full);
      }
      Insert(open.value, Fresh(id, binding, parent));
      r := Success(());
    }

    /** No-fail: the caller has just bound this object. */
    method CommitArmed(id: ObjectId, binding: Binding)
      requires Valid() && ExactRecord(table, id, binding) && table[id].state == Creating
      modifies this`table, slots
      ensures Valid() && table == SetRecordState(old(table), id, Armed)
    {
      var i := FindObject(id);
      Write(i.value, slots[i.value].value.(state := Armed));
    }

    method FindReached(binding: Binding) returns (found: Option<nat>)
      requires Valid()
      ensures found.Some? ==>
                && found.value < slots.Length && slots[found.value].Some? && Reaches(slots[found.value].value, binding)
                && slots[found.value].value.id in table
                && table[slots[found.value].value.id] == slots[found.value].value
      ensures found.None? ==> forall o :: o in table ==> !Reaches(table[o], binding)
    {
      var i := 0;
      while i < slots.Length
        invariant i <= slots.Length
        invariant forall j :: 0 <= j < i && slots[j].Some? ==> !Reaches(slots[j].value, binding)
      {
        if slots[i].Some? && Reaches(slots[i].value, binding) {
          return Some(i);
        }
        i := i + 1;
      }
      found := None;
    }

    /** Reaches the one live record with this binding, or rejects and changes nothing. */
    method DeliverClassified(binding: Binding) returns (target: Option<ObjectId>, disposition: Disposition)
      requires Valid()
      modifies this`table, slots
      ensures Valid()
      ensures target.None? ==> disposition == Rejected && table == old(table)
      ensures target.None? <==> forall o :: o in old(table) ==> !Reaches(old(table)[o], binding)
      ensures target.Some? ==>
                && target.value in old(table) && Reaches(old(table)[target.value], binding)
                && disposition == Delivered(old(table)[target.value].state).1 != Rejected
                && table == SetRecordState(old(table), target.value, Delivered(old(table)[target.value].state).0)
      ensures target.Some? ==>
                && old(table)[target.value].binding == binding
                && match old(table)[target.value].state
                   case Armed => disposition == FirstPending && table == SetRecordState(old(table), target.value, Pending(false))
                   case Pending(_) => disposition == CoalescedPending && table == SetRecordState(old(table), target.value, Pending(true))
                   case AckPrepared(_) => disposition == AckRace && table == SetRecordState(old(table), target.value, AckPrepared(true))
                   case _ => false
      ensures target.None? <==>
                forall o :: o in old(table) && old(table)[o].binding == binding ==> old(table)[o].state in {Creating, Finalizing}
    {
      var i := FindReached(binding);
      if i.None? {
        return None, Rejected;
      }
      var record := slots[i.value].value;
      var (state, how) := Delivered(record.state);
      assert Reaches(table[record.id], binding);
      Write(i.value, record.(state := state));
      target, disposition := Some(record.id), how;
    }

    method PrepareAcknowledgement(objectType: nat, id: ObjectId) returns (r: Result<(AckKind, Binding), InterruptError>)
      requires Valid()
      modifies this`table, slots
      ensures Valid()
      ensures r == Failure(InvalidObject) <==> objectType != OBJECT_TYPE_INTERRUPT || id !in old(table)
      ensures r.Failure? ==> r.error in {InvalidObject, WrongState} && table == old(table)
      ensures r.Success? ==>
                && id in old(table) && PrepareAck(old(table)[id].state).Some?
                && r.value == (PrepareAck(old(table)[id].state).value.1, old(table)[id].binding)
                && table == SetRecordState(old(table), id, PrepareAck(old(table)[id].state).value.0)
      ensures r == Failure(WrongState) <==>
                objectType == OBJECT_TYPE_INTERRUPT && id in old(table) && !old(table)[id].state.Pending?
      ensures r.Success? <==> objectType == OBJECT_TYPE_INTERRUPT && id in old(table) && old(table)[id].state.Pending?
      ensures r.Success? ==>
                if old(table)[id].state.coalesced
                then r.value.0 == Coalesced && table == SetRecordState(old(table), id, Pending(false))
                else r.value.0 == Rearm && table == SetRecordState(old(table), id, AckPrepared(false))
    {
      if objectType != OBJECT_TYPE_INTERRUPT {
        return Failure(InvalidObject);
      }
      var i := FindObject(id);
      if i.None? {
        return Failure(InvalidObject);
      }
      var record := slots[i.value].value;
      match PrepareAck(record.state)
      case None => r := Failure(WrongState);
      case Some((state, kind)) =>
        Write(i.value, record.(state := state));
        r := Success((kind, record.binding));
    }

    /** No-fail: the caller holds the prepared transaction. */
    method FinishAcknowledgement(id: ObjectId, binding: Binding) returns (outcome: AckOutcome)
      requires Valid() && ExactRecord(table, id, binding) && table[id].state.AckPrepared?
      modifies this`table, slots
      ensures Valid() && outcome == FinishAck(old(table)[id].state).1
      ensures table == SetRecordState(old(table), id, FinishAck(old(table)[id].state).0)
      ensures if old(table)[id].state.raced
              then outcome == PendingAfterRace && table == SetRecordState(old(table), id, Pending(false))
              else outcome == Rearmed && table == SetRecordState(old(table), id, Armed)
    {
      var i := FindObject(id);
      var record := slots[i.value].value;
      var (state, o) := FinishAck(record.state);
      Write(i.value, record.(state := state));
      outcome := o;
    }

    method RestorePendingAfterFailure(id: ObjectId, binding: Binding)
      requires Valid() && ExactRecord(table, id, binding)
      modifies this`table, slots
      ensures Valid() && table == SetRecordState(old(table), id, RestorePending(old(table)[id].state))
      ensures match old(table)[id].state
              case AckPrepared(raced) => table == SetRecordState(old(table), id, Pending(raced))
              case _ => table == old(table)
    {
      var i := FindObject(id);
      var record := slots[i.value].value;
      Write(i.value, record.(state := RestorePending(record.state)));
    }

    /** First lock region of a finalization: find the binding to retire. */
    method LookUpFinal(releaseType: nat, release: FinalRelease) returns (r: Result<Binding, InterruptError>)
      requires Valid()
      ensures r.Success? <==>
              releaseType == OBJECT_TYPE_INTERRUPT && release.id in table && Live(table[release.id].state)
      ensures r.Success? <==>
              && releaseType == OBJECT_TYPE_INTERRUPT && release.id in table
              && (table[release.id].state.Armed? || table[release.id].state.Pending? || table[release.id].state.AckPrepared?)
      ensures r.Success? ==> r.value == table[release.id].binding
      ensures r.Failure? ==> r.error == FinalizationMismatch
    {
      if releaseType != OBJECT_TYPE_INTERRUPT {
        return Failure(FinalizationMismatch);
      }
      var i := FindObject(release.id);
      if i.None? || !Live(slots[i.value].value.state) {
        return Failure(FinalizationMismatch);
      }
      r := Success(slots[i.value].value.binding);
    }

    method MarkFinalizing(id: ObjectId, binding: Binding)
      requires Valid() && ExactRecord(table, id, binding) && Live(table[id].state)
      modifies this`table, slots
      ensures Valid() && table == SetRecordState(old(table), id, Finalizing)
    {
      var i := FindObject(id);
      Write(i.value, slots[i.value].value.(state := Finalizing));
    }

    /** Parks the release in the record; there was none before. */
    method StageRelease(release: FinalRelease, binding: Binding)
      requires Valid() && ExactRecord(table, release.id, binding)
      requires table[release.id].state.Finalizing? && table[release.id].pendingRelease.None?
      modifies this`table, slots
      ensures Valid()
      ensures table == old(table)[release.id := old(table)[release.id].(pendingRelease := Some(release))]
    {
      var i := FindObject(release.id);
      Write(i.value, slots[i.value].value.(pendingRelease := Some(release)));
    }

    predicate Wanted(r: Record, only: Option<Binding>) {
      Retryable(r) && (only.Some? ==> r.binding == only.value)
    }

    /** Claims one retryable record, the first or the exact one, for this caller alone. */
    method BeginRetry(only: Option<Binding>) returns (r: Option<(ObjectId, Binding)>)
      requires Valid()
      modifies this`table, slots
      ensures Valid()
      ensures r.None? ==> table == old(table) && forall o :: o in table ==> !Wanted(table[o], only)
      ensures r.Some? ==>
                var o := r.value.0;
                && o in old(table) && Wanted(old(table)[o], only) && r.value.1 == old(table)[o].binding
                && table == old(table)[o := old(table)[o].(retrying := true)]
                && old(table)[o].state == Finalizing && old(table)[o].pendingRelease.Some? && !old(table)[o].retrying
      ensures r.None? ==>
                forall o :: o in table && table[o].state == Finalizing && table[o].pendingRelease.Some? && !table[o].retrying ==>
                  only.Some? && table[o].binding != only.value
    {
      var i := 0;
      while i < slots.Length
        invariant i <= slots.Length
        invariant table == old(table) && Valid()
        invariant forall j :: 0 <= j < i && slots[j].Some? ==> !Wanted(slots[j].value, only)
      {
        if slots[i].Some? && Wanted(slots[i].value, only) {
          var record := slots[i].value;
          Write(i, record.(retrying := true));
          return Some((record.id, record.binding));
        }
        i := i + 1;
      }
      r := None;
    }

    method EndRetry(id: ObjectId, binding: Binding)
      requires Valid() && ExactRecord(table, id, binding) && table[id].retrying
      modifies this`table, slots
      ensures Valid() && table == old(table)[id := old(table)[id].(retrying := false)]
    {
      var i := FindObject(id);
      Write(i.value, slots[i.value].value.(retrying := false));
    }

    /** Moves a finalizing record out, with everything it owns. */
    method TakeFinalized(id: ObjectId, binding: Binding) returns (record: Record)
      requires Valid() && ExactRecord(table, id, binding) && table[id].state.Finalizing?
      modifies this, slots
      ensures Valid() && record == old(table)[id] && table == old(table) - {id}
    {
      var i := FindObject(id);
      record := slots[i.value].value;
      slots[i.value] := None;
      table := table - {id};
      place := place - {id};
    }

    method CurrentSignals(objectType: nat, id: ObjectId) returns (r: Result<bool, InterruptError>)
      requires Valid()
      ensures objectType == OBJECT_TYPE_INTERRUPT && id in table ==> r == Success(Count(table[id].state) > 0)
      ensures objectType == OBJECT_TYPE_INTERRUPT && id in table ==> r == Success(table[id].state.Pending? || table[id].state.AckPrepared?)
      ensures objectType != OBJECT_TYPE_INTERRUPT || id !in table ==> r == Failure(InvalidObject)
    {
      if objectType != OBJECT_TYPE_INTERRUPT {
        return Failure(InvalidObject);
      }
      var i := FindObject(id);
      if i.None? {
        return Failure(InvalidObject);
      }
      r := Success(Signaled(slots[i.value].value.state));
    }
  }
}
