/**
 Every run of the lease protocol: claims that reserve, bind, roll back or commit,
 objects that finalize and give their lease back, and the resource-domain owner
 (kernel/src/boot/boot_grant.rs:249-437, kernel/src/device/resource.rs:235-287,
 382-467, driven as in kernel/src/syscall/adapters.rs:1691-1861).
 */
module LeaseMachine {
  import opened Wrappers
  import opened BootGrants
  import opened DeviceResource

  type ClaimId = nat

  /** A claim in flight owns one reservation; `index` remembers which grant it was taken from. */
  datatype Claim = Claim(reservation: Reservation, descriptor: Descriptor, index: nat, bound: Option<ObjectId>)

  /** A lease on its way back, taken out of a finalized record. */
  datatype Finalization = Finalization(grant: Option<GrantLease>)

  /** `home` remembers the grant behind each leased object, `issued` every lease number handed out. */
  datatype State = State(
    authority: Authority,
    records: Resources,
    capacity: nat,
    claims: map<ClaimId, Claim>,
    finals: map<ObjectId, Finalization>,
    home: map<ObjectId, nat>,
    objects: set<ObjectId>,
    issued: set<nat>)

  datatype Step =
    | OwnerIn(key: ObjectId, pinId: ObjectId, pinType: nat, pin: Pin)
    | OwnerOut
    | ReserveStep(claim: ClaimId, resource: nat)
    | BindStep(claim: ClaimId, id: ObjectId, domain: nat, room: bool)
    | CreatePlain(id: ObjectId, descriptor: ResourceDescriptor)
    | RollBack(claim: ClaimId)
    | CommitStep(claim: ClaimId)
    | Finalize(id: ObjectId)
    | GiveBack(id: ObjectId)
    | Stray(resource: nat, generation: nat, id: ObjectId, lease: nat)

  ghost predicate Initial(s: State) {
    && Minted(s.authority.grants) && s.authority.owner == None && s.authority.nextLease == 1
    && s.records == map[] && s.claims == map[] && s.finals == map[] && s.home == map[] && s.objects == {} && s.issued == {}
  }

  predicate BoundBy(s: State, claim: ClaimId, id: ObjectId) {
    claim in s.claims && s.claims[claim].bound == Some(id)
  }

  /** The steps the callers can take: they hold the tokens they use.  A stray release names no live lease. */
  ghost predicate Enabled(s: State, step: Step) {
    match step
    case ReserveStep(claim, _) => claim !in s.claims
    case BindStep(claim, id, _, _) => claim in s.claims && s.claims[claim].bound.None? && id !in s.objects
    case CreatePlain(id, d) => id !in s.objects && ValidDescriptor(d) && !Taken(s.records, id, d.resource) && |s.records| < s.capacity
    case RollBack(claim) => claim in s.claims && s.claims[claim].bound.Some?
    case CommitStep(claim) => claim in s.claims && s.claims[claim].bound.Some?
    case Finalize(id) => id in s.records && forall c :: c in s.claims ==> s.claims[c].bound != Some(id)
    case GiveBack(id) => id in s.finals
    case Stray(resource, generation, id, lease) => LeasedAs(s.authority, resource, generation, id, lease).None?
    case _ => true
  }

  /** What the kernel unwraps or asserts at the step. */
  ghost predicate Asserts(s: State, step: Step)
    requires Enabled(s, step)
  {
    match step
    case BindStep(claim, _, _, _) => Cancel(s.authority, s.claims[claim].reservation).1.Success?
    case RollBack(claim) =>
      && s.claims[claim].bound.value in s.records && s.records[s.claims[claim].bound.value].grant.Some?
      && Cancel(s.authority, s.claims[claim].reservation).1.Success?
    case CommitStep(claim) => HeldBy(s.authority, s.claims[claim].reservation).Some?
    case GiveBack(id) =>
      s.finals[id].grant.Some? ==>
        var g := s.finals[id].grant.value;
        ReleaseLease(s.authority, g.resource, g.generation, g.id, g.lease).1.Success?
    case _ => true
  }

  function DoReserve(s: State, claim: ClaimId, resource: nat): State {
    var (after, r) := Reserve(s.authority, resource);
    match r
    case Failure(_) => s
    case Success((descriptor, reservation)) =>
      s.(authority := after, issued := s.issued + {reservation.lease},
         claims := s.claims[claim := Claim(reservation, descriptor, FirstFor(s.authority.grants, resource, 0).value, None)])
  }

  /** A typed bind that fails cancels the reservation. */
  ghost function DoBind(s: State, claim: ClaimId, id: ObjectId, domain: nat, room: bool): State
    requires claim in s.claims
  {
    var c := s.claims[claim];
    var d := Claimed(c.descriptor, c.reservation.lease, domain);
    if !room || c.reservation.generation == 0 || !ValidDescriptor(d) || Taken(s.records, id, d.resource) || |s.records| >= s.capacity then
      s.(authority := Cancel(s.authority, c.reservation).0, claims := s.claims - {claim}, objects := s.objects + {id})
    else
      s.(records := s.records[id := ResourceRecord(id, d, Some(GrantLease(d.resource, c.reservation.generation, d.lease, id)))],
         claims := s.claims[claim := c.(bound := Some(id))], objects := s.objects + {id})
  }

  function DoRollBack(s: State, claim: ClaimId): State
    requires claim in s.claims && s.claims[claim].bound.Some?
  {
    var c := s.claims[claim];
    s.(authority := Cancel(s.authority, c.reservation).0, records := s.records - {c.bound.value}, claims := s.claims - {claim})
  }

  function DoCommit(s: State, claim: ClaimId): State
    requires claim in s.claims && s.claims[claim].bound.Some? && HeldBy(s.authority, s.claims[claim].reservation).Some?
  {
    var c := s.claims[claim];
    s.(authority := Commit(s.authority, c.reservation, c.bound.value), claims := s.claims - {claim},
       home := s.home[c.bound.value := c.index])
  }

  function DoFinalize(s: State, id: ObjectId): State
    requires id in s.records
  {
    s.(records := s.records - {id}, finals := s.finals[id := Finalization(s.records[id].grant)])
  }

  function DoGiveBack(s: State, id: ObjectId): State
    requires id in s.finals
  {
    match s.finals[id].grant
    case None => s.(finals := s.finals - {id})
    case Some(g) =>
      s.(authority := ReleaseLease(s.authority, g.resource, g.generation, g.id, g.lease).0,
         finals := s.finals - {id}, home := s.home - {id})
  }

  ghost function Apply(s: State, step: Step): State
    requires Enabled(s, step) && Asserts(s, step)
  {
    match step
    case OwnerIn(key, pinId, pinType, pin) => s.(authority := BindOwner(s.authority, key, pinId, pinType, pin).0)
    case OwnerOut => s.(authority := TakeOwner(s.authority).0)
    case ReserveStep(claim, resource) => DoReserve(s, claim, resource)
    case BindStep(claim, id, domain, room) => DoBind(s, claim, id, domain, room)
    case CreatePlain(id, d) => s.(records := s.records[id := ResourceRecord(id, d, None)], objects := s.objects + {id})
    case RollBack(claim) => DoRollBack(s, claim)
    case CommitStep(claim) => DoCommit(s, claim)
    case Finalize(id) => DoFinalize(s, id)
    case GiveBack(id) => DoGiveBack(s, id)
    case Stray(resource, generation, id, lease) =>
      s.(authority := ReleaseLease(s.authority, resource, generation, id, lease).0)
  }

  ghost predicate Run(states: seq<State>, steps: seq<Step>) {
    && |states| == |steps| + 1
    && Initial(states[0])
    && forall i :: 0 <= i < |steps| ==>
         Enabled(states[i], steps[i]) && Asserts(states[i], steps[i]) && states[i + 1] == Apply(states[i], steps[i])
  }

  // ----- The invariant -----

  /** Grants keep their identity for life. */
  ghost predicate GrantsApart(a: Authority) {
    forall i, j :: 0 <= i < j < |a.grants| ==> a.grants[i].generation != a.grants[j].generation
  }

  predicate GrantIs(s: State, i: nat, resource: nat, generation: nat, state: GrantState) {
    && i < |s.authority.grants| && IsExact(s.authority.grants[i], resource, generation)
    && s.authority.grants[i].state == state
  }

  /** A claim's reservation is the one its grant is reserved under. */
  ghost predicate ClaimOk(s: State, c: ClaimId)
    requires c in s.claims
  {
    var k := s.claims[c];
    && GrantIs(s, k.index, k.reservation.resource, k.reservation.generation, Reserved(k.reservation.lease))
    && k.descriptor == s.authority.grants[k.index].descriptor
    && (k.bound.Some? ==>
          && k.bound.value in s.records
          && s.records[k.bound.value].grant ==
             Some(GrantLease(k.reservation.resource, k.reservation.generation, k.reservation.lease, k.bound.value)))
  }

  /** The lease object `o` must give back, wherever it is. */
  function LeaseOf(s: State, o: ObjectId): Option<GrantLease> {
    if o in s.records then s.records[o].grant
    else if o in s.finals then s.finals[o].grant
    else None
  }

  /** An object with a home holds the lease its grant is leased under. */
  ghost predicate HomeOk(s: State, o: ObjectId)
    requires o in s.home
  {
    LeaseOf(s, o).Some? &&
    var g := LeaseOf(s, o).value;
    g.id == o && GrantIs(s, s.home[o], g.resource, g.generation, Leased(o, g.lease))
  }

  /** A boot-backed object is committed, or still belongs to its claim. */
  ghost predicate ObjectOk(s: State, o: ObjectId) {
    && (o in s.records ==> o !in s.finals && o in s.objects && s.records[o].id == o)
    && (o in s.finals ==> o in s.objects)
    && (LeaseOf(s, o).Some? ==> o in s.home || exists c :: BoundBy(s, c, o))
    && (o in s.home ==> forall c :: !BoundBy(s, c, o))
    && (o in s.finals ==> forall c :: !BoundBy(s, c, o))
  }

  /** A grant that is not Available has its one holder. */
  ghost predicate GrantOk(s: State, i: nat)
    requires i < |s.authority.grants|
  {
    match s.authority.grants[i].state
    case Available => true
    case Reserved(lease) => lease in s.issued && exists c :: c in s.claims && s.claims[c].index == i
    case Leased(o, lease) => lease in s.issued && o in s.home && s.home[o] == i
  }

  ghost predicate ClaimsOk(s: State) {
    && (forall c :: c in s.claims ==> ClaimOk(s, c))
    && (forall c, d :: c in s.claims && d in s.claims && s.claims[c].index == s.claims[d].index ==> c == d)
    && (forall c, d, o :: BoundBy(s, c, o) && BoundBy(s, d, o) ==> c == d)
  }

  ghost predicate HomesOk(s: State) {
    forall o :: o in s.home ==> HomeOk(s, o)
  }

  ghost predicate ObjectsOk(s: State) {
    forall o :: ObjectOk(s, o)
  }

  ghost predicate GrantsOk(s: State) {
    forall i :: 0 <= i < |s.authority.grants| ==> GrantOk(s, i)
  }

  ghost predicate NumbersOk(s: State) {
    && s.authority.nextLease > 0 && (forall l :: l in s.issued ==> 0 < l < s.authority.nextLease)
    && (s.authority.owner.None? ==> AllAvailable(s.authority))
  }

  ghost predicate Inv(s: State) {
    GrantsApart(s.authority) && ClaimsOk(s) && HomesOk(s) && ObjectsOk(s) && GrantsOk(s) && NumbersOk(s)
  }

  lemma InitialInv(s: State)
    requires Initial(s)
    ensures Inv(s)
  {
  }

  /** With distinct generations the exact search finds exactly the one grant. */
  lemma ExactIsUnique(a: Authority, i: nat, resource: nat, generation: nat)
    requires GrantsApart(a) && i < |a.grants| && IsExact(a.grants[i], resource, generation)
    ensures FirstExact(a.grants, resource, generation, 0) == Some(i)
  {
  }

  /** A genuine reservation still holds its grant, so cancelling or committing it cannot fail. */
  lemma GenuineIsHeld(s: State, c: ClaimId)
    requires Inv(s) && c in s.claims
    ensures HeldBy(s.authority, s.claims[c].reservation) == Some(s.claims[c].index)
    ensures Cancel(s.authority, s.claims[c].reservation).1.Success?
  {
    assert ClaimOk(s, c);
    ExactIsUnique(s.authority, s.claims[c].index, s.claims[c].reservation.resource, s.claims[c].reservation.generation);
  }

  /** The lease of a finalized object is still on record, so giving it back cannot mismatch. */
  lemma ReleaseMatches(s: State, o: ObjectId)
    requires Inv(s) && o in s.finals && s.finals[o].grant.Some?
    ensures var g := s.finals[o].grant.value;
            && o in s.home && g.id == o
            && LeasedAs(s.authority, g.resource, g.generation, g.id, g.lease) == Some(s.home[o])
  {
    assert ObjectOk(s, o);
    assert LeaseOf(s, o) == s.finals[o].grant;
    assert HomeOk(s, o);
    ExactIsUnique(s.authority, s.home[o], s.finals[o].grant.value.resource, s.finals[o].grant.value.generation);
  }

  lemma NoAssertion(s: State, step: Step)
    requires Inv(s) && Enabled(s, step)
    ensures Asserts(s, step)
  {
    match step
    case BindStep(claim, _, _, _) => GenuineIsHeld(s, claim);
    case RollBack(claim) =>
      assert ClaimOk(s, claim);
      GenuineIsHeld(s, claim);
    case CommitStep(claim) => GenuineIsHeld(s, claim);
    case GiveBack(id) =>
      if s.finals[id].grant.Some? { ReleaseMatches(s, id); }
    case _ =>
  }

  // ----- Every step keeps it -----

  /** One grant changed state; the others, and every identity, stayed. */
  ghost predicate OneGrant(s: State, s': State, i: nat) {
    && |s'.authority.grants| == |s.authority.grants| && i < |s.authority.grants|
    && (forall j :: 0 <= j < |s.authority.grants| && j != i ==> s'.authority.grants[j] == s.authority.grants[j])
    && s'.authority.grants[i].descriptor == s.authority.grants[i].descriptor
    && s'.authority.grants[i].generation == s.authority.grants[i].generation
  }

  lemma OneGrantApart(s: State, s': State, i: nat)
    requires GrantsApart(s.authority) && OneGrant(s, s', i)
    ensures GrantsApart(s'.authority)
  {
  }

  // Reserve

  lemma ReserveFacts(s: State, claim: ClaimId, resource: nat) returns (i: nat)
    requires Reserve(s.authority, resource).1.Success?
    ensures var s' := DoReserve(s, claim, resource);
            var lease := s.authority.nextLease;
            && OneGrant(s, s', i) && s.authority.grants[i].state == Available
            && s'.authority.grants[i].state == Reserved(lease) && s'.authority.nextLease == lease + 1
            && s'.authority.owner == s.authority.owner && s.authority.owner.Some?
            && s.authority.grants[i].descriptor.resource == resource
            && s' == s.(authority := s'.authority, issued := s.issued + {lease},
                        claims := s.claims[claim := Claim(Reservation(resource, s.authority.grants[i].generation, lease),
                                                          s.authority.grants[i].descriptor, i, None)])
  {
    i := FirstFor(s.authority.grants, resource, 0).value;
  }

  lemma StepReserve(s: State, claim: ClaimId, resource: nat)
    requires Inv(s) && Enabled(s, ReserveStep(claim, resource))
    ensures Inv(DoReserve(s, claim, resource))
  {
    if Reserve(s.authority, resource).1.Success? {
      var i := ReserveFacts(s, claim, resource);
      hide Reserve, DoReserve, FirstFor;
      var s' := DoReserve(s, claim, resource);
      OneGrantApart(s, s', i);
      ReserveClaims(s, s', claim, i);
      ReserveHomes(s, s', claim, i);
      ReserveGrants(s, s', claim, i);
    }
  }

  /** The shape of a successful reservation. */
  ghost predicate Admits(s: State, s': State, claim: ClaimId, i: nat) {
    && OneGrant(s, s', i) && s.authority.grants[i].state == Available && claim !in s.claims && claim in s'.claims
    && s'.authority.grants[i].state == Reserved(s.authority.nextLease)
    && s'.records == s.records && s'.finals == s.finals && s'.home == s.home && s'.objects == s.objects
    && s'.issued == s.issued + {s.authority.nextLease} && s'.claims == s.claims[claim := s'.claims[claim]]
    && s'.claims[claim] == Claim(Reservation(s.authority.grants[i].descriptor.resource, s.authority.grants[i].generation, s.authority.nextLease),
                                 s.authority.grants[i].descriptor, i, None)
  }

  lemma ReserveClaims(s: State, s': State, claim: ClaimId, i: nat)
    requires ClaimsOk(s) && Admits(s, s', claim, i)
    ensures ClaimsOk(s')
  {
    forall c | c in s'.claims ensures ClaimOk(s', c) {
      if c != claim { assert ClaimOk(s, c); }
    }
    forall c, d | c in s'.claims && d in s'.claims && s'.claims[c].index == s'.claims[d].index ensures c == d {
      if c != claim { assert ClaimOk(s, c); }
      if d != claim { assert ClaimOk(s, d); }
    }
    assert forall c, o :: BoundBy(s', c, o) ==> BoundBy(s, c, o);
  }

  lemma ReserveHomes(s: State, s': State, claim: ClaimId, i: nat)
    requires HomesOk(s) && ObjectsOk(s) && Admits(s, s', claim, i)
    ensures HomesOk(s') && ObjectsOk(s')
  {
    forall o | o in s'.home ensures HomeOk(s', o) { assert HomeOk(s, o); }
    assert forall c, o :: BoundBy(s', c, o) <==> BoundBy(s, c, o);
    forall o ensures ObjectOk(s', o) { assert ObjectOk(s, o); }
  }

  lemma ReserveGrants(s: State, s': State, claim: ClaimId, i: nat)
    requires GrantsOk(s) && Admits(s, s', claim, i)
    ensures GrantsOk(s')
  {
    forall j | 0 <= j < |s'.authority.grants| ensures GrantOk(s', j) {
      assert GrantOk(s, j);
      if j == i {
        assert s'.claims[claim].index == i;
      } else if s.authority.grants[j].state.Reserved? {
        var c :| c in s.claims && s.claims[c].index == j;
        assert s'.claims[c].index == j;
      }
    }
  }

  // Ending a claim without a commit

  /** The claim is gone, its grant Available again, and its object, if any, forgotten. */
  ghost predicate Ends(s: State, s': State, claim: ClaimId) {
    claim in s.claims &&
    var c := s.claims[claim];
    && OneGrant(s, s', c.index) && s'.authority.grants[c.index].state == Available
    && s'.authority.owner == s.authority.owner && s'.authority.nextLease == s.authority.nextLease
    && s'.claims == s.claims - {claim} && s'.finals == s.finals && s'.home == s.home && s'.issued == s.issued
    && s.objects <= s'.objects
    && s'.records == (if c.bound.Some? then s.records - {c.bound.value} else s.records)
  }

  lemma CancelFrees(s: State, claim: ClaimId)
    requires Inv(s) && claim in s.claims
    ensures Cancel(s.authority, s.claims[claim].reservation).0 == SetGrant(s.authority, s.claims[claim].index, Available)
    ensures s.claims[claim].index < |s.authority.grants|
  {
    GenuineIsHeld(s, claim);
    assert ClaimOk(s, claim);
  }

  lemma EndClaims(s: State, s': State, claim: ClaimId)
    requires ClaimsOk(s) && Ends(s, s', claim)
    ensures ClaimsOk(s')
  {
    assert ClaimOk(s, claim);
    forall c | c in s'.claims ensures ClaimOk(s', c) {
      assert ClaimOk(s, c);
      if s.claims[c].bound.Some? { assert BoundBy(s, c, s.claims[c].bound.value); }
      if s.claims[claim].bound.Some? { assert BoundBy(s, claim, s.claims[claim].bound.value); }
    }
    assert forall c, o :: BoundBy(s', c, o) ==> BoundBy(s, c, o);
  }

  lemma EndHomes(s: State, s': State, claim: ClaimId)
    requires ClaimsOk(s) && HomesOk(s) && ObjectsOk(s) && Ends(s, s', claim)
    ensures HomesOk(s')
  {
    assert ClaimOk(s, claim);
    forall o | o in s'.home ensures HomeOk(s', o) {
      assert HomeOk(s, o) && ObjectOk(s, o);
      assert !BoundBy(s, claim, o);
    }
  }

  lemma EndObjects(s: State, s': State, claim: ClaimId)
    requires ClaimsOk(s) && ObjectsOk(s) && Ends(s, s', claim)
    ensures ObjectsOk(s')
  {
    assert ClaimOk(s, claim);
    assert forall c, o :: BoundBy(s', c, o) ==> BoundBy(s, c, o);
    forall o ensures ObjectOk(s', o) {
      assert ObjectOk(s, o);
      if LeaseOf(s', o).Some? && o !in s.home {
        assert LeaseOf(s, o).Some?;
        var c :| BoundBy(s, c, o);
        assert BoundBy(s', c, o);
      }
    }
  }

  lemma EndGrants(s: State, s': State, claim: ClaimId)
    requires ClaimsOk(s) && GrantsOk(s) && Ends(s, s', claim)
    ensures GrantsOk(s')
  {
    assert ClaimOk(s, claim);
    forall j | 0 <= j < |s'.authority.grants| ensures GrantOk(s', j) {
      assert GrantOk(s, j);
      if j != s.claims[claim].index && s.authority.grants[j].state.Reserved? {
        var c :| c in s.claims && s.claims[c].index == j;
        assert s'.claims[c].index == j;
      }
    }
  }

  lemma EndKeeps(s: State, s': State, claim: ClaimId)
    requires Inv(s) && Ends(s, s', claim)
    ensures Inv(s')
  {
    hide ClaimsOk, HomesOk, ObjectsOk, GrantsOk, GrantsApart;
    OneGrantApart(s, s', s.claims[claim].index);
    EndClaims(s, s', claim);
    EndHomes(s, s', claim);
    EndObjects(s, s', claim);
    EndGrants(s, s', claim);
  }

  lemma StepRollBack(s: State, claim: ClaimId)
    requires Inv(s) && Enabled(s, RollBack(claim))
    ensures Inv(DoRollBack(s, claim))
  {
    hide Inv, Cancel;
    CancelFrees(s, claim);
    EndKeeps(s, DoRollBack(s, claim), claim);
  }

  // Binding

  /** The claim has gained a typed record for a fresh object. */
  ghost predicate Binds(s: State, s': State, claim: ClaimId, id: ObjectId) {
    claim in s.claims && s.claims[claim].bound.None? && id !in s.objects &&
    var c := s.claims[claim];
    && s'.authority == s.authority && s'.finals == s.finals && s'.home == s.home && s'.issued == s.issued
    && s'.objects == s.objects + {id} && s'.claims == s.claims[claim := c.(bound := Some(id))]
    && id in s'.records && s'.records == s.records[id := s'.records[id]] && s'.records[id].id == id
    && s'.records[id].grant == Some(GrantLease(c.reservation.resource, c.reservation.generation, c.reservation.lease, id))
  }

  lemma FreshObject(s: State, id: ObjectId)
    requires ObjectsOk(s) && HomesOk(s) && ClaimsOk(s) && id !in s.objects
    ensures id !in s.records && id !in s.finals && id !in s.home && forall c :: !BoundBy(s, c, id)
  {
    assert ObjectOk(s, id);
    assert id in s.home ==> HomeOk(s, id);
    forall c ensures !BoundBy(s, c, id) {
      if c in s.claims { assert ClaimOk(s, c); }
    }
  }

  lemma BindClaims(s: State, s': State, claim: ClaimId, id: ObjectId)
    requires ClaimsOk(s) && Binds(s, s', claim, id) && id !in s.records && forall c :: !BoundBy(s, c, id)
    ensures ClaimsOk(s')
  {
    forall c | c in s'.claims ensures ClaimOk(s', c) {
      assert ClaimOk(s, c);
      if s.claims[c].bound.Some? { assert BoundBy(s, c, s.claims[c].bound.value); }
    }
    assert forall c, o :: BoundBy(s', c, o) ==> BoundBy(s, c, o) || (c == claim && o == id);
  }

  lemma BindRest(s: State, s': State, claim: ClaimId, id: ObjectId)
    requires HomesOk(s) && ObjectsOk(s) && Binds(s, s', claim, id)
    requires id !in s.records && id !in s.finals && id !in s.home && forall c :: !BoundBy(s, c, id)
    ensures HomesOk(s') && ObjectsOk(s')
  {
    forall o | o in s'.home ensures HomeOk(s', o) { assert HomeOk(s, o); }
    assert BoundBy(s', claim, id);
    assert forall c, o :: o != id ==> (BoundBy(s', c, o) <==> BoundBy(s, c, o));
    forall o ensures ObjectOk(s', o) { assert ObjectOk(s, o); }
  }

  lemma BindGrants(s: State, s': State, claim: ClaimId, id: ObjectId)
    requires GrantsOk(s) && Binds(s, s', claim, id)
    ensures GrantsOk(s')
  {
    forall j | 0 <= j < |s'.authority.grants| ensures GrantOk(s', j) {
      assert GrantOk(s, j);
      if s.authority.grants[j].state.Reserved? {
        var c :| c in s.claims && s.claims[c].index == j;
        assert s'.claims[c].index == j;
      }
    }
  }

  lemma BindKeeps(s: State, s': State, claim: ClaimId, id: ObjectId)
    requires Inv(s) && Binds(s, s', claim, id)
    ensures Inv(s')
  {
    hide ClaimsOk, HomesOk, ObjectsOk, GrantsOk, GrantsApart, BoundBy;
    FreshObject(s, id);
    BindClaims(s, s', claim, id);
    BindRest(s, s', claim, id);
    BindGrants(s, s', claim, id);
  }

  lemma ClaimDescriptor(s: State, claim: ClaimId)
    requires Inv(s) && claim in s.claims
    ensures s.claims[claim].descriptor.resource == s.claims[claim].reservation.resource
  {
    assert ClaimOk(s, claim);
  }

  lemma StepBind(s: State, claim: ClaimId, id: ObjectId, domain: nat, room: bool)
    requires Inv(s) && Enabled(s, BindStep(claim, id, domain, room))
    ensures Inv(DoBind(s, claim, id, domain, room))
  {
    hide Inv, Cancel, ValidDescriptor, Taken;
    CancelFrees(s, claim);
    ClaimDescriptor(s, claim);
    var s' := DoBind(s, claim, id, domain, room);
    if claim in s'.claims {
      BindKeeps(s, s', claim, id);
    } else {
      EndKeeps(s, s', claim);
    }
  }

  // Commit

  ghost predicate Commits(s: State, s': State, claim: ClaimId) {
    claim in s.claims && s.claims[claim].bound.Some? &&
    var c := s.claims[claim];
    && OneGrant(s, s', c.index) && s'.authority.grants[c.index].state == Leased(c.bound.value, c.reservation.lease)
    && s'.authority.owner == s.authority.owner && s'.authority.nextLease == s.authority.nextLease
    && s'.claims == s.claims - {claim} && s'.finals == s.finals && s'.issued == s.issued
    && s'.objects == s.objects && s'.records == s.records && s'.home == s.home[c.bound.value := c.index]
  }

  lemma CommitClaims(s: State, s': State, claim: ClaimId)
    requires ClaimsOk(s) && Commits(s, s', claim)
    ensures ClaimsOk(s')
  {
    assert ClaimOk(s, claim);
    forall c | c in s'.claims ensures ClaimOk(s', c) { assert ClaimOk(s, c); }
    assert forall c, o :: BoundBy(s', c, o) ==> BoundBy(s, c, o);
  }

  lemma CommitHomes(s: State, s': State, claim: ClaimId)
    requires ClaimsOk(s) && HomesOk(s) && Commits(s, s', claim)
    ensures HomesOk(s')
  {
    assert ClaimOk(s, claim);
    forall o | o in s'.home ensures HomeOk(s', o) {
      if o != s.claims[claim].bound.value { assert HomeOk(s, o); }
    }
  }

  lemma CommitObjects(s: State, s': State, claim: ClaimId)
    requires ClaimsOk(s) && ObjectsOk(s) && Commits(s, s', claim)
    ensures ObjectsOk(s')
  {
    var id := s.claims[claim].bound.value;
    assert BoundBy(s, claim, id);
    forall c, o | BoundBy(s', c, o) ensures BoundBy(s, c, o) && o != id { assert BoundBy(s, c, o) && c != claim; }
    forall o ensures ObjectOk(s', o) {
      assert ObjectOk(s, o) && LeaseOf(s', o) == LeaseOf(s, o);
      if LeaseOf(s, o).Some? && o !in s'.home {
        var c :| BoundBy(s, c, o);
        assert BoundBy(s', c, o);
      }
    }
  }

  lemma CommitGrants(s: State, s': State, claim: ClaimId)
    requires ClaimsOk(s) && GrantsOk(s) && ObjectsOk(s) && Commits(s, s', claim)
    ensures GrantsOk(s')
  {
    assert ClaimOk(s, claim);
    var id := s.claims[claim].bound.value;
    assert BoundBy(s, claim, id) && ObjectOk(s, id);
    forall j | 0 <= j < |s'.authority.grants| ensures GrantOk(s', j) {
      assert GrantOk(s, j);
      if j != s.claims[claim].index && s.authority.grants[j].state.Reserved? {
        var c :| c in s.claims && s.claims[c].index == j;
        assert s'.claims[c].index == j;
      }
    }
  }

  lemma OwnerStays(s: State, claim: ClaimId)
    requires Inv(s) && claim in s.claims
    ensures s.authority.owner.Some?
  {
    assert ClaimOk(s, claim);
  }

  lemma CommitSets(s: State, claim: ClaimId)
    requires Inv(s) && Enabled(s, CommitStep(claim))
    ensures HeldBy(s.authority, s.claims[claim].reservation).Some? && Commits(s, DoCommit(s, claim), claim)
  {
    hide HomesOk, ObjectsOk, GrantsOk, NumbersOk;
    GenuineIsHeld(s, claim);
    assert ClaimOk(s, claim);
  }

  lemma StepCommit(s: State, claim: ClaimId)
    requires Inv(s) && Enabled(s, CommitStep(claim))
    ensures HeldBy(s.authority, s.claims[claim].reservation).Some? && Inv(DoCommit(s, claim))
  {
    hide ClaimsOk, HomesOk, ObjectsOk, GrantsOk, GrantsApart, HeldBy, DoCommit;
    CommitSets(s, claim);
    OwnerStays(s, claim);
    var s' := DoCommit(s, claim);
    OneGrantApart(s, s', s.claims[claim].index);
    CommitClaims(s, s', claim);
    CommitHomes(s, s', claim);
    CommitObjects(s, s', claim);
    CommitGrants(s, s', claim);
  }

  // Finalization

  lemma StepFinalize(s: State, id: ObjectId)
    requires Inv(s) && Enabled(s, Finalize(id))
    ensures Inv(DoFinalize(s, id))
  {
    var s' := DoFinalize(s, id);
    FinalizeClaims(s, s', id);
    FinalizeObjects(s, s', id);
    hide ClaimsOk, ObjectsOk, HomesOk;
    forall j | 0 <= j < |s'.authority.grants| ensures GrantOk(s', j) { assert GrantOk(s, j); }
  }

  lemma FinalizeClaims(s: State, s': State, id: ObjectId)
    requires ClaimsOk(s) && Enabled(s, Finalize(id)) && s' == DoFinalize(s, id)
    ensures ClaimsOk(s')
  {
    forall c | c in s'.claims ensures ClaimOk(s', c) { assert ClaimOk(s, c); }
    assert forall c, o :: BoundBy(s', c, o) <==> BoundBy(s, c, o);
  }

  lemma FinalizeObjects(s: State, s': State, id: ObjectId)
    requires HomesOk(s) && ObjectsOk(s) && Enabled(s, Finalize(id)) && s' == DoFinalize(s, id)
    ensures HomesOk(s') && ObjectsOk(s')
  {
    assert ObjectOk(s, id);
    assert forall c, o :: BoundBy(s', c, o) <==> BoundBy(s, c, o);
    forall o ensures ObjectOk(s', o) { assert ObjectOk(s, o) && LeaseOf(s', o) == LeaseOf(s, o); }
    forall o | o in s'.home ensures HomeOk(s', o) { assert HomeOk(s, o) && ObjectOk(s, o); }
  }

  /** A lease is back: its object is forgotten and its grant Available. */
  ghost predicate Returns(s: State, s': State, id: ObjectId) {
    && id in s.finals && id in s.home
    && OneGrant(s, s', s.home[id]) && s'.authority.grants[s.home[id]].state == Available
    && s'.authority.owner == s.authority.owner && s'.authority.nextLease == s.authority.nextLease
    && s'.claims == s.claims && s'.finals == s.finals - {id} && s'.home == s.home - {id} && s'.issued == s.issued
    && s'.objects == s.objects && s'.records == s.records
  }

  lemma GiveBackReturns(s: State, id: ObjectId)
    requires Inv(s) && id in s.finals && s.finals[id].grant.Some?
    ensures Returns(s, DoGiveBack(s, id), id)
  {
    ReleaseMatches(s, id);
    assert HomeOk(s, id);
  }

  lemma ReturnClaims(s: State, s': State, id: ObjectId)
    requires ClaimsOk(s) && HomesOk(s) && Returns(s, s', id)
    ensures ClaimsOk(s')
  {
    assert HomeOk(s, id);
    forall c | c in s'.claims ensures ClaimOk(s', c) { assert ClaimOk(s, c); }
    assert forall c, o :: BoundBy(s', c, o) <==> BoundBy(s, c, o);
  }

  lemma ReturnHomes(s: State, s': State, id: ObjectId)
    requires HomesOk(s) && ObjectsOk(s) && Returns(s, s', id)
    ensures HomesOk(s') && ObjectsOk(s')
  {
    assert HomeOk(s, id) && ObjectOk(s, id);
    forall o | o in s'.home ensures HomeOk(s', o) { assert HomeOk(s, o); }
    assert forall c, o :: BoundBy(s', c, o) <==> BoundBy(s, c, o);
    forall o ensures ObjectOk(s', o) { assert ObjectOk(s, o); }
  }

  lemma ReturnGrants(s: State, s': State, id: ObjectId)
    requires GrantsOk(s) && HomesOk(s) && Returns(s, s', id)
    ensures GrantsOk(s')
  {
    assert HomeOk(s, id);
    forall j | 0 <= j < |s'.authority.grants| ensures GrantOk(s', j) { assert GrantOk(s, j); }
  }

  lemma StepGiveBack(s: State, id: ObjectId)
    requires Inv(s) && Enabled(s, GiveBack(id))
    ensures Inv(DoGiveBack(s, id))
  {
    var s' := DoGiveBack(s, id);
    if s.finals[id].grant.Some? {
      GiveBackReturns(s, id);
      hide ClaimsOk, HomesOk, ObjectsOk, GrantsOk, GrantsApart, DoGiveBack;
      OneGrantApart(s, s', s.home[id]);
      ReturnClaims(s, s', id);
      ReturnHomes(s, s', id);
      ReturnGrants(s, s', id);
    } else {
      PlainReturns(s, s', id);
    }
  }

  lemma PlainReturns(s: State, s': State, id: ObjectId)
    requires Inv(s) && id in s.finals && s.finals[id].grant.None? && s' == s.(finals := s.finals - {id})
    ensures Inv(s')
  {
    assert ObjectOk(s, id);
    assert id in s.home ==> HomeOk(s, id);
    assert forall c, o :: BoundBy(s', c, o) <==> BoundBy(s, c, o);
    forall c | c in s'.claims ensures ClaimOk(s', c) { assert ClaimOk(s, c); }
    forall o | o in s'.home ensures HomeOk(s', o) { assert HomeOk(s, o); }
    forall o ensures ObjectOk(s', o) { assert ObjectOk(s, o); }
    forall j | 0 <= j < |s'.authority.grants| ensures GrantOk(s', j) { assert GrantOk(s, j); }
  }

  // Owner, plain creation

  lemma SameGrantsKeep(s: State, s': State)
    requires Inv(s) && s' == s.(authority := s'.authority) && s'.authority.grants == s.authority.grants
    requires s'.authority.nextLease == s.authority.nextLease && (s'.authority.owner.None? ==> AllAvailable(s'.authority))
    ensures Inv(s')
  {
    assert forall c, o :: BoundBy(s', c, o) <==> BoundBy(s, c, o);
    forall c | c in s'.claims ensures ClaimOk(s', c) { assert ClaimOk(s, c); }
    forall o | o in s'.home ensures HomeOk(s', o) { assert HomeOk(s, o); }
    forall o ensures ObjectOk(s', o) { assert ObjectOk(s, o); }
    forall j | 0 <= j < |s'.authority.grants| ensures GrantOk(s', j) { assert GrantOk(s, j); }
  }

  lemma StepPlain(s: State, id: ObjectId, d: ResourceDescriptor)
    requires Inv(s) && Enabled(s, CreatePlain(id, d))
    ensures Inv(s.(records := s.records[id := ResourceRecord(id, d, None)], objects := s.objects + {id}))
  {
    var s' := s.(records := s.records[id := ResourceRecord(id, d, None)], objects := s.objects + {id});
    FreshObject(s, id);
    assert forall c, o :: BoundBy(s', c, o) <==> BoundBy(s, c, o);
    forall c | c in s'.claims ensures ClaimOk(s', c) {
      assert ClaimOk(s, c);
      if s.claims[c].bound.Some? { assert BoundBy(s, c, s.claims[c].bound.value); }
    }
    forall o | o in s'.home ensures HomeOk(s', o) { assert HomeOk(s, o); }
    forall o ensures ObjectOk(s', o) { assert ObjectOk(s, o); }
    forall j | 0 <= j < |s'.authority.grants| ensures GrantOk(s', j) { assert GrantOk(s, j); }
  }

  lemma Preserved(s: State, step: Step)
    requires Inv(s) && Enabled(s, step)
    ensures Asserts(s, step) && Inv(Apply(s, step))
  {
    hide ClaimsOk, HomesOk, ObjectsOk, GrantsOk, GrantsApart,
         DoReserve, DoBind, DoRollBack, DoCommit, DoFinalize, DoGiveBack, HeldBy, LeasedAs, Cancel;
    NoAssertion(s, step);
    match step
    case OwnerIn(key, pinId, pinType, pin) => SameGrantsKeep(s, Apply(s, step));
    case OwnerOut => SameGrantsKeep(s, Apply(s, step));
    case ReserveStep(claim, resource) => StepReserve(s, claim, resource);
    case BindStep(claim, id, domain, room) => StepBind(s, claim, id, domain, room);
    case CreatePlain(id, d) => StepPlain(s, id, d);
    case RollBack(claim) => StepRollBack(s, claim);
    case CommitStep(claim) => StepCommit(s, claim);
    case Finalize(id) => StepFinalize(s, id);
    case GiveBack(id) => StepGiveBack(s, id);
    case Stray(resource, generation, id, lease) => SameGrantsKeep(s, Apply(s, step));
  }
}
