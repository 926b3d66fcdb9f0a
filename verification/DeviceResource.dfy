/**
 DeviceResource objects: descriptor validation, checked port access, and the record
 table that carries a lease from claim to finalization
 (kernel/src/device/resource.rs:17-287, 382-549).
 */
module DeviceResource {
  import opened Wrappers
  import opened BootGrants
  import opened BootMemory
  import opened DeviceTable

  const OBJECT_TYPE_DEVICE_RESOURCE: nat := 17

  datatype ResourceDescriptor = ResourceDescriptor(
    resource: nat,
    lease: nat,
    kind: nat,
    pioBase: nat,
    pioLength: nat,
    interruptSource: nat,
    domain: nat)

  datatype ResourceError = Full | InvalidDescriptor | InvalidAccess | InvalidObject | IdentityInUse | Mismatch

  predicate ValidDescriptor(d: ResourceDescriptor) {
    var end := d.pioBase + d.pioLength;
    && end <= PORT_LIMIT && d.resource != 0 && d.lease != 0 && d.kind == KIND_PIO_WITH_INTERRUPT
    && d.pioLength != 0 && d.interruptSource != 0 && d.interruptSource != COM1_SOURCE
    && !(d.pioBase < COM1_END && COM1_START < end)
  }

  predicate OwnsPort(d: ResourceDescriptor, p: nat) { d.pioBase <= p < d.pioBase + d.pioLength }

  /** The validator, field by field and port by port. */
  lemma ValidDescriptorMeans(d: ResourceDescriptor)
    ensures ValidDescriptor(d) <==>
            && d.resource != 0 && d.lease != 0 && d.kind == 1 && d.pioLength != 0 && d.interruptSource != 0 && d.interruptSource != 4
            && forall p: nat :: OwnsPort(d, p) ==> p < 0x1_0000 && !(0x3f8 <= p < 0x400)
  {
    if d.pioLength != 0 {
      var last := d.pioBase + d.pioLength - 1;
      assert OwnsPort(d, last);
      var low := if d.pioBase < 0x3f8 then 0x3f8 else d.pioBase;
      assert d.pioBase < 0x400 && 0x3f8 < d.pioBase + d.pioLength ==> OwnsPort(d, low);
    }
  }

  datatype PioAccess = PioAccess(port: nat, width: nat)

  /** A checked scalar access at `offset` inside the resource. */
  function CheckedPioAccess(d: ResourceDescriptor, offset: nat, width: nat): Result<PioAccess, ResourceError> {
    if d.kind != KIND_PIO_WITH_INTERRUPT then Failure(InvalidAccess)
    else if width != 1 && width != 2 && width != 4 then Failure(InvalidAccess)
    else if offset + width > U32_MAX || offset + width > d.pioLength then Failure(InvalidAccess)
    else if d.pioBase + offset + width > PORT_LIMIT then Failure(InvalidAccess)
    else Success(PioAccess(d.pioBase + offset, width))
  }

  /** The ports an access reads or writes. */
  predicate Touches(a: PioAccess, port: nat) { a.port <= port < a.port + a.width }

  /** The descriptor a claim builds from a boot descriptor and its lease. */
  function Claimed(d: Descriptor, lease: nat, domain: nat): ResourceDescriptor {
    ResourceDescriptor(d.resource, lease, d.kind, d.pioBase, d.pioLength, d.interruptSource, domain)
  }

  /** An access through a valid descriptor is allowed exactly when its width is legal and it ends inside; it then touches only owned ports. */
  lemma ValidAccess(d: ResourceDescriptor, offset: nat, width: nat)
    requires ValidDescriptor(d)
    ensures var r := CheckedPioAccess(d, offset, width);
            && (r.Success? <==> width in {1, 2, 4} && offset + width <= d.pioLength)
            && (r.Success? ==> r.value == PioAccess(d.pioBase + offset, width))
            && (r.Success? ==> forall p: nat :: Touches(r.value, p) ==> OwnsPort(d, p))
            && (r.Failure? ==> r.error == InvalidAccess)
  {
  }

  // ----- Port isolation, from table bytes to port accesses -----

  /** Every descriptor the table parser accepts passes the resource validator under any nonzero lease. */
  lemma AcceptedIsValid(memory: Memory, start: nat, length: nat, ds: seq<Descriptor>, i: nat, lease: nat, domain: nat)
    requires Acceptable(memory, start, length, ds) && i < |ds| && lease > 0
    ensures ValidDescriptor(Claimed(ds[i], lease, domain))
  {
    assert RecordIs(memory, start, i, ds[i]) && !TouchesCom1(ds[i]);
  }

  /**
   An access through a resource of an accepted table stays inside the ports of that
   resource, below the port limit and off the kernel's own serial port; and every
   in-range access of a legal width is allowed.
   */
  lemma AccessStaysInside(memory: Memory, start: nat, length: nat, ds: seq<Descriptor>, i: nat, lease: nat, domain: nat, offset: nat, width: nat)
    requires Acceptable(memory, start, length, ds) && i < |ds|
    ensures var r := CheckedPioAccess(Claimed(ds[i], lease, domain), offset, width);
            && (r.Success? <==> width in {1, 2, 4} && offset + width <= ds[i].pioLength)
            && (r.Success? ==> r.value == PioAccess(ds[i].pioBase + offset, width))
            && (r.Success? ==> forall p: nat :: Touches(r.value, p) ==>
                  ds[i].pioBase <= p < ds[i].pioBase + ds[i].pioLength && p < PORT_LIMIT && !(COM1_START <= p < COM1_END))
  {
    assert RecordIs(memory, start, i, ds[i]) && !TouchesCom1(ds[i]);
  }

  /** Accesses through two different resources of an accepted table never touch the same port. */
  lemma PortsIsolated(memory: Memory, start: nat, length: nat, ds: seq<Descriptor>, i: nat, j: nat,
                      leases: (nat, nat), domains: (nat, nat), offsets: (nat, nat), widths: (nat, nat), port: nat)
    requires Acceptable(memory, start, length, ds) && i < |ds| && j < |ds| && i != j
    requires CheckedPioAccess(Claimed(ds[i], leases.0, domains.0), offsets.0, widths.0).Success?
    requires CheckedPioAccess(Claimed(ds[j], leases.1, domains.1), offsets.1, widths.1).Success?
    ensures !(&& Touches(CheckedPioAccess(Claimed(ds[i], leases.0, domains.0), offsets.0, widths.0).value, port)
              && Touches(CheckedPioAccess(Claimed(ds[j], leases.1, domains.1), offsets.1, widths.1).value, port))
    ensures ds[i].interruptSource != ds[j].interruptSource && ds[i].resource != ds[j].resource
  {
    if i < j {
      assert Compatible(ds[i], ds[j]);
    } else {
      assert Compatible(ds[j], ds[i]);
    }
  }

  // ----- The record table -----

  /** The exact lease a boot-backed record must give back. */
  datatype GrantLease = GrantLease(resource: nat, generation: nat, lease: nat, id: ObjectId)

  datatype ResourceRecord = ResourceRecord(id: ObjectId, descriptor: ResourceDescriptor, grant: Option<GrantLease>)

  type Resources = map<ObjectId, ResourceRecord>

  predicate SameIdentity(r: ResourceRecord, id: ObjectId, resource: nat) {
    r.descriptor.resource == resource || r.id == id
  }

  ghost predicate Taken(records: Resources, id: ObjectId, resource: nat) {
    exists o :: o in records && SameIdentity(records[o], id, resource)
  }

  class DeviceResourceAuthority {
    const slots: array<Option<ResourceRecord>>
    ghost var table: Resources
    ghost var place: map<ObjectId, nat>

    ghost predicate Valid() reads this, slots {
      && table.Keys == place.Keys
      && (forall o :: o in place ==> place[o] < slots.Length && slots[place[o]] == Some(table[o]) && table[o].id == o)
      && (forall i :: 0 <= i < slots.Length && slots[i].Some? ==> slots[i].value.id in place && place[slots[i].value.id] == i)
      && (forall o, q :: o in table && q in table && table[o].descriptor.resource == table[q].descriptor.resource ==> o == q)
    }

    constructor (capacity: nat)
      ensures Valid() && fresh(slots) && slots.Length == capacity && table == map[]
    {
      slots := new Option<ResourceRecord>[capacity](_ => None);
      table, place := map[], map[];
    }

    method IsTaken(id: ObjectId, resource: nat) returns (taken: bool)
      requires Valid()
      ensures taken <==> Taken(table, id, resource)
    {
      var i := 0;
      while i < slots.Length
        invariant i <= slots.Length
        invariant forall j :: 0 <= j < i && slots[j].Some? ==> !SameIdentity(slots[j].value, id, resource)
      {
        if slots[i].Some? && SameIdentity(slots[i].value, id, resource) {
          assert slots[i].value.id in table;
          return true;
        }
        i := i + 1;
      }
      taken := false;
    }

    method FindOpen() returns (found: Option<nat>)
      ensures found.Some? ==> found.value < slots.Length && slots[found.value].None?
      ensures found.None? ==> forall i :: 0 <= i < slots.Length ==> slots[i].Some?
    {
      var i := 0;
      while i < slots.Length
        invariant i <= slots.Length
        invariant forall j :: 0 <= j < i ==> slots[j].Some?
      {
        if slots[i].None? {
          return Some(i);
        }
        i := i + 1;
      }
      found := None;
    }

    ghost predicate HasRoom() reads this, slots {
      exists i :: 0 <= i < slots.Length && slots[i].None?
    }

    /** Binds a claim: refuses a zero grant generation, then type, descriptor, identity and room, in that order. */
    method BindClaim(creationType: nat, id: ObjectId, d: ResourceDescriptor, generation: nat) returns (r: Result<(), ResourceError>)
      requires Valid()
      modifies this, slots
      ensures Valid()
      ensures generation == 0 ==> r == Failure(InvalidDescriptor)
      ensures generation != 0 ==> (r == Failure(InvalidObject) <==> creationType != OBJECT_TYPE_DEVICE_RESOURCE)
      ensures generation != 0 && creationType == OBJECT_TYPE_DEVICE_RESOURCE ==>
                && (r == Failure(InvalidDescriptor) <==> !ValidDescriptor(d))
                && (r == Failure(IdentityInUse) <==> ValidDescriptor(d) && old(Taken(table, id, d.resource)))
      ensures r.Failure? ==> table == old(table) && r.error in {InvalidDescriptor, InvalidObject, IdentityInUse, Full}
      ensures r == Failure(Full) <==>
                && generation != 0 && creationType == OBJECT_TYPE_DEVICE_RESOURCE && ValidDescriptor(d)
                && !old(Taken(table, id, d.resource)) && !old(HasRoom())
      ensures old(Taken(table, id, d.resource)) <==> id in old(table) || exists o :: o in old(table) && old(table)[o].descriptor.resource == d.resource
      ensures r.Success? ==>
                && !old(Taken(table, id, d.resource)) && ValidDescriptor(d)
                && table == old(table)[id := ResourceRecord(id, d, Some(GrantLease(d.resource, generation, d.lease, id)))]
    {
      if generation == 0 {
        return Failure(InvalidDescriptor);
      }
      if creationType != OBJECT_TYPE_DEVICE_RESOURCE {
        return Failure(InvalidObject);
      }
      if !ValidDescriptor(d) {
        return Failure(InvalidDescriptor);
      }
      var taken := IsTaken(id, d.resource);
      if taken {
        return Failure(IdentityInUse);
      }
      var open := FindOpen();
      if open.None? {
        return Failure(Full);
      }
      Insert(open.value, ResourceRecord(id, d, Some(GrantLease(d.resource, generation, d.lease, id))));
      r := Success(());
    }

    method Insert(i: nat, r: ResourceRecord)
      requires Valid() && i < slots.Length && slots[i].None? && !Taken(table, r.id, r.descriptor.resource)
      modifies this, slots
      ensures Valid() && table == old(table)[r.id := r]
    {
      assert forall o :: o in table ==> !SameIdentity(table[o], r.id, r.descriptor.resource);
      slots[i] := Some(r);
      table := table[r.id := r];
      place := place[r.id := i];
    }

    /** Moves a record out, with the lease it must give back. */
    method TakeFinalization(releaseType: nat, id: ObjectId) returns (r: Result<Option<GrantLease>, ResourceError>)
      requires Valid()
      modifies this, slots
      ensures Valid()
      ensures r.Success? <==> releaseType == OBJECT_TYPE_DEVICE_RESOURCE && id in old(table)
      ensures r.Success? ==> r.value == old(table)[id].grant && table == old(table) - {id}
      ensures r.Failure? ==> r.error == Mismatch && table == old(table)
    {
      if releaseType != OBJECT_TYPE_DEVICE_RESOURCE {
        return Failure(Mismatch);
      }
      var i := 0;
      while i < slots.Length
        invariant i <= slots.Length
        invariant table == old(table) && place == old(place) && slots[..] == old(slots[..])
        invariant forall j :: 0 <= j < i && slots[j].Some? ==> slots[j].value.id != id
      {
        if slots[i].Some? && slots[i].value.id == id {
          r := Success(slots[i].value.grant);
          slots[i] := None;
          table := table - {id};
          place := place - {id};
          return;
        }
        i := i + 1;
      }
      r := Failure(Mismatch);
    }
  }
}
