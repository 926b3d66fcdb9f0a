/**
 The sequential transactions over both tables: creation with roll-back, completion of
 an acknowledgement, and synchronous finalization
 (kernel/src/device/interrupt.rs:950-1029, 1171-1211, 1222-1349).
 */
module InterruptTransactions {
  import opened Wrappers
  import opened InterruptPlatform
  import opened InterruptState
  import opened InterruptAuthority

  datatype CreateError = HandleError | RegistryError | TypedError(error: InterruptError) | SourceError(source: PlatformError)

  /** Both tables gained one agreeing entry and nothing else. */
  predicate Gained(sources: Sources, records: Records, sources': Sources, records': Records, id: ObjectId, b: Binding, parent: Pin) {
    && b.source !in sources && id !in records
    && sources' == sources[b.source := Source(b.generation, SrcArmed)]
    && records' == records[id := Record(id, b, parent, Armed, None, false)]
  }

  /**
   Creates an Interrupt on a source.  `handleRoom` and `registryRoom` are the answers of
   the handle table and the object registry.  A failure leaves both tables exactly as
   they were and gives the parent pin back; success leaves an agreeing Armed pair.
   */
  method Create(platform: InterruptPlatformModel, records: InterruptRecords,
                source: nat, id: ObjectId, parent: Pin, handleRoom: bool, registryRoom: bool)
    returns (r: Result<Binding, CreateError>)
    requires platform.Valid() && records.Valid()
    modifies platform, platform.slots, records, records.slots
    ensures platform.Valid() && records.Valid()
    ensures r.Failure? ==> platform.table == old(platform.table) && records.table == old(records.table)
    ensures r.Success? ==>
              && r.value.domain == platform.domain && r.value.source == source
              && Gained(old(platform.table), old(records.table), platform.table, records.table, id, r.value, parent)
    ensures r == Failure(SourceError(InvalidSource)) <==> source == 0 || source == 4
    ensures r == Failure(SourceError(SourceInUse)) <==> !ReservedSource(source) && source in old(platform.table)
    ensures r == Failure(SourceError(Capacity)) <==>
            !ReservedSource(source) && source !in old(platform.table) && !old(platform.HasOpen())
    ensures var free := !ReservedSource(source) && source !in old(platform.table) && old(platform.HasOpen());
            var answer := ReserveAnswer(platform.domain, old(platform.slots[..]), source);
            && (free <==> answer.Success?)
            && (r == Failure(HandleError) <==> free && !handleRoom)
            && (r == Failure(RegistryError) <==> free && handleRoom && !registryRoom)
            && (r == Failure(TypedError(IdentityInUse)) <==>
                  free && handleRoom && registryRoom && Clash(old(records.table), id, answer.value))
            && (r == Failure(TypedError(Full)) <==>
                  free && handleRoom && registryRoom && !Clash(old(records.table), id, answer.value) && !old(records.HasRoom()))
            && (r.Success? <==>
                  free && handleRoom && registryRoom && !Clash(old(records.table), id, answer.value) && old(records.HasRoom()))
            && (r.Success? ==> r.value == answer.value)
  {
    hide InterruptPlatformModel.Valid, InterruptRecords.Valid, InterruptPlatformModel.HasOpen, InterruptRecords.HasRoom,
         ReserveAnswer, Clash;
    var reserved := platform.Reserve(source);
    if reserved.Failure? {
      return Failure(SourceError(reserved.error));
    }
    var b := reserved.value;
    if !handleRoom || !registryRoom {
      platform.CancelHeld(b);
      assert platform.table == old(platform.table);
      return Failure(if !handleRoom then HandleError else RegistryError);
    }
    var bound := Publish(platform, records, b, id, parent);
    if bound.Failure? {
      assert platform.table == old(platform.table);
      return Failure(TypedError(bound.error));
    }
    r := Success(b);
  }

  /** From a held reservation: bind and commit both tables, or give the reservation up. */
  method Publish(platform: InterruptPlatformModel, records: InterruptRecords, b: Binding, id: ObjectId, parent: Pin)
    returns (r: Result<(), InterruptError>)
    requires platform.Valid() && records.Valid() && ExactIn(platform.domain, platform.table, b, SrcReserved)
    modifies platform, platform.slots, records, records.slots
    ensures platform.Valid() && records.Valid()
    ensures r.Failure? ==> platform.table == old(platform.table) - {b.source} && records.table == old(records.table)
    ensures r.Failure? <==> Clash(old(records.table), id, b) || !old(records.HasRoom())
    ensures r.Failure? ==> r.error == if Clash(old(records.table), id, b) then IdentityInUse else Full
    ensures r.Success? ==>
              && id !in old(records.table)
              && platform.table == SetState(old(platform.table), b, SrcArmed)
              && records.table == old(records.table)[id := Record(id, b, parent, Armed, None, false)]
  {
    hide InterruptPlatformModel.Valid, InterruptRecords.Valid, InterruptRecords.HasRoom, Clash;
    r := records.Bind(OBJECT_TYPE_INTERRUPT, id, OBJECT_TYPE_DEVICE_RESOURCE, parent, b);
    if r.Failure? {
      platform.CancelHeld(b);
      return;
    }
    records.CommitArmed(id, b);
    platform.CommitSource(b);
  }

  /**
   Completes a prepared acknowledgement.  From agreeing tables it succeeds, leaves them
   agreeing, and consumes exactly one delivery fact; if the platform refuses, the typed
   facts are all still there.
   */
  method CompleteTransaction(platform: InterruptPlatformModel, records: InterruptRecords, kind: AckKind, id: ObjectId, b: Binding)
    returns (r: Result<(), PlatformError>)
    requires platform.Valid() && records.Valid()
    requires kind == Rearm ==> ExactRecord(records.table, id, b) && records.table[id].state.AckPrepared?
    modifies platform`table, platform.slots, records`table, records.slots
    ensures platform.Valid() && records.Valid()
    ensures kind == Coalesced ==> r.Success? && platform.table == old(platform.table) && records.table == old(records.table)
    ensures kind == Rearm ==> r == AcknowledgeSource(platform.domain, old(platform.table), b)
    ensures kind == Rearm ==> (r.Success? <==> ExactIn(platform.domain, old(platform.table), b, SrcMasked))
    ensures kind == Rearm && r.Failure? ==>
              && platform.table == old(platform.table) && id in records.table
              && records.table == SetRecordState(old(records.table), id, records.table[id].state)
              && records.table[id].state.Pending?
              && Count(records.table[id].state) == Count(old(records.table)[id].state)
    ensures kind == Rearm && r.Success? ==>
              && id in records.table && ExactIn(platform.domain, old(platform.table), b, SrcMasked)
              && records.table == SetRecordState(old(records.table), id, records.table[id].state)
              && platform.table == SetState(old(platform.table), b, if Signaled(records.table[id].state) then SrcMasked else SrcArmed)
              && Count(records.table[id].state) == Count(old(records.table)[id].state) - 1
  {
    hide InterruptPlatformModel.Valid, InterruptRecords.Valid;
    if kind == Coalesced {
      return Success(());
    }
    r := platform.Acknowledge(b);
    if r.Failure? {
      records.RestorePendingAfterFailure(id, b);
      return;
    }
    var outcome := records.FinishAcknowledgement(id, b);
    platform.CompleteAcknowledgement(b, outcome);
    assert platform.table[b.source] == SetState(old(platform.table), b, if Signaled(records.table[id].state) then SrcMasked else SrcArmed)[b.source];
  }

  /**
   Finalizes an object on a platform that retires at once: its record and its source go,
   together, and the release comes back with the parent pin.  A release that matches no
   live record is handed back and changes nothing.
   */
  method Finalize(platform: InterruptPlatformModel, records: InterruptRecords, releaseType: nat, release: FinalRelease)
    returns (r: Result<(FinalRelease, Pin), InterruptError>)
    requires platform.Valid() && records.Valid()
    requires forall o :: o in records.table && Live(records.table[o].state) ==>
               Exact(platform.domain, platform.table, records.table[o].binding)
               && platform.table[records.table[o].binding.source].state != SrcReserved
    modifies platform, platform.slots, records, records.slots
    ensures platform.Valid() && records.Valid()
    ensures r.Success? <==>
            releaseType == OBJECT_TYPE_INTERRUPT && release.id in old(records.table) && Live(old(records.table)[release.id].state)
    ensures r.Failure? ==> r.error == FinalizationMismatch && platform.table == old(platform.table) && records.table == old(records.table)
    ensures r.Success? ==>
              var gone := old(records.table)[release.id];
              && r.value == (release, gone.parent)
              && records.table == old(records.table) - {release.id}
              && platform.table == old(platform.table) - {gone.binding.source}
  {
    hide InterruptPlatformModel.Valid, InterruptRecords.Valid, AfterOp;
    var found := records.LookUpFinal(releaseType, release);
    if found.Failure? {
      return Failure(found.error);
    }
    var parent := Retire(platform, records, release.id, found.value);
    r := Success((release, parent));
  }

  /** Masks the source, marks the record, retires the source and takes the record out. */
  method Retire(platform: InterruptPlatformModel, records: InterruptRecords, id: ObjectId, b: Binding) returns (parent: Pin)
    requires platform.Valid() && records.Valid() && ExactRecord(records.table, id, b) && Live(records.table[id].state)
    requires Exact(platform.domain, platform.table, b) && platform.table[b.source].state != SrcReserved
    modifies platform, platform.slots, records, records.slots
    ensures platform.Valid() && records.Valid()
    ensures parent == old(records.table)[id].parent && records.table == old(records.table) - {id}
    ensures platform.table == old(platform.table) - {b.source}
  {
    hide InterruptPlatformModel.Valid, InterruptRecords.Valid, AfterOp;
    platform.MaskSource(b);
    records.MarkFinalizing(id, b);
    platform.RetireSource(b);
    var record := records.TakeFinalized(id, b);
    assert platform.table == old(platform.table) - {b.source};
    parent := record.parent;
  }
}
