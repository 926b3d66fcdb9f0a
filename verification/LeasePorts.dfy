/**
 Port isolation of the live objects: whatever the run, two boot-backed records never
 share a port or an interrupt source (kernel/src/device/resource.rs:235-287,
 382-467, over kernel/src/boot/device_table.rs:31-196).
 */
module LeasePorts {
  import opened Wrappers
  import opened BootGrants
  import opened BootMemory
  import opened DeviceResource
  import opened DeviceTable
  import opened LeaseMachine
  import opened LeaseRuns
  import InterruptPlatform

  ghost predicate GrantsAre(s: State, ds: seq<Descriptor>) {
    |s.authority.grants| == |ds| && forall i :: 0 <= i < |ds| ==> s.authority.grants[i].descriptor == ds[i]
  }

  /** The record is a claim of table entry `i`. */
  ghost predicate Backs(r: ResourceRecord, ds: seq<Descriptor>, i: nat) {
    i < |ds| && r.descriptor == Claimed(ds[i], r.descriptor.lease, r.descriptor.domain)
  }

  /** Records name distinct resources, and each boot-backed one is a claim of a table entry. */
  ghost predicate RecordsOk(s: State, ds: seq<Descriptor>) {
    && (forall o, q :: o in s.records && q in s.records && s.records[o].descriptor.resource == s.records[q].descriptor.resource ==> o == q)
    && (forall o :: o in s.records && s.records[o].grant.Some? ==> exists i: nat :: Backs(s.records[o], ds, i))
  }

  ghost predicate PortsOk(s: State, ds: seq<Descriptor>) { GrantsAre(s, ds) && RecordsOk(s, ds) }

  lemma AddRecord(s: State, s': State, ds: seq<Descriptor>, r: ResourceRecord)
    requires RecordsOk(s, ds) && !Taken(s.records, r.id, r.descriptor.resource) && s'.records == s.records[r.id := r]
    requires r.grant.Some? ==> exists i: nat :: Backs(r, ds, i)
    ensures RecordsOk(s', ds)
  {
    forall o | o in s.records ensures s.records[o].descriptor.resource != r.descriptor.resource {
      assert !SameIdentity(s.records[o], r.id, r.descriptor.resource);
    }
  }

  lemma ClaimBacks(s: State, ds: seq<Descriptor>, claim: ClaimId, id: ObjectId, domain: nat)
    requires Inv(s) && GrantsAre(s, ds) && claim in s.claims
    ensures var c := s.claims[claim];
            forall grant :: Backs(ResourceRecord(id, Claimed(c.descriptor, c.reservation.lease, domain), grant), ds, c.index)
  {
    assert ClaimOk(s, claim);
  }

  lemma BindPorts(s: State, ds: seq<Descriptor>, claim: ClaimId, id: ObjectId, domain: nat, room: bool)
    requires Inv(s) && PortsOk(s, ds) && Enabled(s, BindStep(claim, id, domain, room))
    ensures RecordsOk(DoBind(s, claim, id, domain, room), ds)
  {
    hide Inv, Cancel, ValidDescriptor, Taken, RecordsOk, Backs;
    ClaimBacks(s, ds, claim, id, domain);
    var s' := DoBind(s, claim, id, domain, room);
    if claim in s'.claims {
      assert Backs(s'.records[id], ds, s.claims[claim].index);
      AddRecord(s, s', ds, s'.records[id]);
    } else {
      FewerRecords(s, s', ds);
    }
  }

  lemma FewerRecords(s: State, s': State, ds: seq<Descriptor>)
    requires RecordsOk(s, ds) && s'.records.Keys <= s.records.Keys && forall o :: o in s'.records ==> s'.records[o] == s.records[o]
    ensures RecordsOk(s', ds)
  {
  }

  lemma StepRecords(s: State, step: Step, ds: seq<Descriptor>)
    requires Inv(s) && PortsOk(s, ds) && Enabled(s, step) && Asserts(s, step)
    ensures RecordsOk(Apply(s, step), ds)
  {
    hide Inv, Cancel, HeldBy, ReleaseLease, ValidDescriptor, Taken, RecordsOk;
    match step
    case BindStep(claim, id, domain, room) => BindPorts(s, ds, claim, id, domain, room);
    case CreatePlain(id, d) => AddRecord(s, Apply(s, step), ds, ResourceRecord(id, d, None));
    case _ => FewerRecords(s, Apply(s, step), ds);
  }

  ghost predicate SameDescriptors(a: Authority, b: Authority) {
    |a.grants| == |b.grants| && forall i :: 0 <= i < |a.grants| ==> a.grants[i].descriptor == b.grants[i].descriptor
  }

  /** No operation of the authority changes what a grant is a grant of. */
  lemma DescriptorsStay(a: Authority, resource: nat, generation: nat, id: ObjectId, lease: nat, r: Reservation)
    ensures SameDescriptors(a, Reserve(a, resource).0) && SameDescriptors(a, Cancel(a, r).0)
    ensures HeldBy(a, r).Some? ==> SameDescriptors(a, Commit(a, r, id))
    ensures SameDescriptors(a, ReleaseLease(a, resource, generation, id, lease).0)
  {
  }

  lemma SameGrants(s: State, s': State, ds: seq<Descriptor>)
    requires GrantsAre(s, ds) && SameDescriptors(s.authority, s'.authority)
    ensures GrantsAre(s', ds)
  {
  }

  lemma StepGrants(s: State, step: Step, ds: seq<Descriptor>)
    requires GrantsAre(s, ds) && Enabled(s, step) && Asserts(s, step)
    ensures GrantsAre(Apply(s, step), ds)
  {
    hide GrantsAre, SameDescriptors, Reserve, Cancel, HeldBy, Commit, ReleaseLease, LeasedAs, ValidDescriptor, Taken;
    var s' := Apply(s, step);
    var a, none := s.authority, Reservation(0, 0, 0);
    Unmoved(a, a);
    assert SameDescriptors(a, s'.authority) by {
      match step
      case ReserveStep(_, resource) => DescriptorsStay(a, resource, 0, 0, 0, none);
      case BindStep(claim, _, _, _) => DescriptorsStay(a, 0, 0, 0, 0, s.claims[claim].reservation);
      case RollBack(claim) => DescriptorsStay(a, 0, 0, 0, 0, s.claims[claim].reservation);
      case CommitStep(claim) => DescriptorsStay(a, 0, 0, s.claims[claim].bound.value, 0, s.claims[claim].reservation);
      case GiveBack(id) =>
        if s.finals[id].grant.Some? {
          var g := s.finals[id].grant.value;
          DescriptorsStay(a, g.resource, g.generation, g.id, g.lease, none);
        }
      case Stray(resource, generation, id, lease) => DescriptorsStay(a, resource, generation, id, lease, none);
      case _ => Unmoved(a, s'.authority);
    }
    SameGrants(s, s', ds);
  }

  lemma Unmoved(a: Authority, b: Authority)
    requires a.grants == b.grants
    ensures SameDescriptors(a, b)
  {
  }

  lemma {:induction false} RunPorts(states: seq<State>, steps: seq<Step>, ds: seq<Descriptor>, n: nat)
    requires Run(states, steps) && n < |states| && GrantsAre(states[0], ds)
    ensures PortsOk(states[n], ds)
  {
    hide Inv, Enabled, Asserts, Apply, RecordsOk;
    if n == 0 {
      assert RecordsOk(states[0], ds) by { NoRecords(states[0], ds); }
    } else {
      RunPorts(states, steps, ds, n - 1);
      RunInv(states, steps, n - 1);
      RunStep(states, steps, n - 1);
      StepRecords(states[n - 1], steps[n - 1], ds);
      StepGrants(states[n - 1], steps[n - 1], ds);
    }
  }

  lemma NoRecords(s: State, ds: seq<Descriptor>)
    requires s.records == map[]
    ensures RecordsOk(s, ds)
  {
  }

  /**
   In every state of every run over the grants of an accepted table, accesses through
   two live boot-backed objects never touch the same port, stay off the kernel's own
   serial port, and the two objects own different interrupt sources.
   */
  lemma LivePortsIsolated(states: seq<State>, steps: seq<Step>, n: nat, memory: Memory, start: nat, length: nat,
                          ds: seq<Descriptor>, o: ObjectId, q: ObjectId, offsets: (nat, nat), widths: (nat, nat), port: nat)
    requires Run(states, steps) && n < |states| && GrantsAre(states[0], ds) && Acceptable(memory, start, length, ds)
    requires o in states[n].records && q in states[n].records && o != q
    requires states[n].records[o].grant.Some? && states[n].records[q].grant.Some?
    requires CheckedPioAccess(states[n].records[o].descriptor, offsets.0, widths.0).Success?
    requires CheckedPioAccess(states[n].records[q].descriptor, offsets.1, widths.1).Success?
    ensures var a, b := CheckedPioAccess(states[n].records[o].descriptor, offsets.0, widths.0).value,
                        CheckedPioAccess(states[n].records[q].descriptor, offsets.1, widths.1).value;
            !(Touches(a, port) && Touches(b, port)) && (Touches(a, port) ==> !(COM1_START <= port < COM1_END))
    ensures states[n].records[o].descriptor.interruptSource != states[n].records[q].descriptor.interruptSource
  {
    hide Run, Acceptable, CheckedPioAccess, Touches;
    RunPorts(states, steps, ds, n);
    var a, b := states[n].records[o], states[n].records[q];
    var i: nat :| Backs(a, ds, i);
    var j: nat :| Backs(b, ds, j);
    PortsIsolated(memory, start, length, ds, i, j, (a.descriptor.lease, b.descriptor.lease),
                  (a.descriptor.domain, b.descriptor.domain), offsets, widths, port);
    AccessStaysInside(memory, start, length, ds, i, a.descriptor.lease, a.descriptor.domain, offsets.0, widths.0);
  }

  /**
   The interrupt source of an accepted descriptor is never one the platform reserves:
   the lines it refuses are zero and the kernel's own serial line.
   */
  lemma SourcesCanBeReserved(memory: Memory, start: nat, length: nat, ds: seq<Descriptor>, i: nat, source: nat)
    requires Acceptable(memory, start, length, ds) && i < |ds|
    ensures !InterruptPlatform.ReservedSource(ds[i].interruptSource)
    ensures InterruptPlatform.ReservedSource(source) <==> source == 0 || source == COM1_SOURCE
  {
    assert RecordIs(memory, start, i, ds[i]) && !TouchesCom1(ds[i]);
  }
}
