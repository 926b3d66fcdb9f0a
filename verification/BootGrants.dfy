/**
 Boot resource grants and their leases (kernel/src/boot/boot_grant.rs:15-437).

 A grant is Available, Reserved under one lease generation, or Leased to one object
 under one lease generation.  Reservations are move-only values.
 */
module BootGrants {
  import opened Wrappers

  const MAX_GRANTS: nat := 8
  const OBJECT_TYPE_TASK_GROUP: nat := 1

  type ObjectId = nat
  type Pin = nat

  datatype Descriptor = Descriptor(
    resource: nat,
    correlation: nat,
    kind: nat,
    pioBase: nat,
    pioLength: nat,
    interruptSource: nat)

  datatype GrantState = Available | Reserved(lease: nat) | Leased(id: ObjectId, lease: nat)

  datatype Grant = Grant(descriptor: Descriptor, generation: nat, state: GrantState)

  datatype GrantError = TooMany | GrantGenerationExhausted

  datatype LeaseError =
    | OwnerAlreadyBound
    | OwnerNotBound
    | GrantNotAvailable
    | UnknownResource
    | AlreadyLeased
    | GenerationExhausted
    | StaleReservation
    | FinalizationMismatch

  datatype Reservation = Reservation(resource: nat, generation: nat, lease: nat)

  /** Grants as minted: all Available, with distinct nonzero generations. */
  ghost predicate Minted(grants: seq<Grant>) {
    && |grants| <= MAX_GRANTS
    && (forall i :: 0 <= i < |grants| ==> grants[i].state == Available && grants[i].generation > 0)
    && (forall i, j :: 0 <= i < j < |grants| ==> grants[i].generation != grants[j].generation)
  }

  /** The global counter that names grants. */
  class GrantMint {
    var next: nat
    ghost var issued: set<nat>

    ghost predicate Valid() reads this {
      0 < next <= U64_MAX && forall g :: g in issued ==> 0 < g < next
    }

    constructor ()
      ensures Valid() && next == 1 && issued == {}
    {
      next := 1;
      issued := {};
    }

    /** Mints one grant per descriptor, in order, with generations never issued before; or changes nothing. */
    method Materialize(descriptors: seq<Descriptor>) returns (r: Result<seq<Grant>, GrantError>)
      requires Valid()
      modifies this
      ensures Valid()
      ensures r == Failure(TooMany) <==> |descriptors| > MAX_GRANTS
      ensures r == Failure(GrantGenerationExhausted) <==>
              0 < |descriptors| <= MAX_GRANTS && old(next) + |descriptors| > U64_MAX
      ensures r.Failure? ==> next == old(next) && issued == old(issued)
      ensures r.Success? ==>
                && Minted(r.value) && |r.value| == |descriptors| && next == old(next) + |descriptors|
                && (forall i :: 0 <= i < |descriptors| ==> r.value[i] == Grant(descriptors[i], old(next) + i, Available))
                && Advanced(old(next), old(issued), next, issued, r.value)
    {
      if |descriptors| > MAX_GRANTS {
        return Failure(TooMany);
      }
      if |descriptors| == 0 {
        return Success([]);
      }
      if next + |descriptors| > U64_MAX {
        return Failure(GrantGenerationExhausted);
      }
      var first := next;
      next := next + |descriptors|;
      var grants: seq<Grant> := [];
      var i := 0;
      while i < |descriptors|
        invariant i == |grants| <= |descriptors|
        invariant next == first + |descriptors|
        invariant forall j :: 0 <= j < i ==> grants[j] == Grant(descriptors[j], first + j, Available)
        invariant issued == old(issued) + Generations(grants)
      {
        var grant := Grant(descriptors[i], first + i, Available);
        GenerationsGrow(grants, grant);
        grants := grants + [grant];
        issued := issued + {grant.generation};
        i := i + 1;
      }
      r := Success(grants);
    }
  }

  ghost function Generations(grants: seq<Grant>): set<nat> { set g | g in grants :: g.generation }

  lemma GenerationsGrow(grants: seq<Grant>, grant: Grant)
    ensures Generations(grants + [grant]) == Generations(grants) + {grant.generation}
  {
    assert forall g :: g in grants + [grant] <==> g in grants || g == grant;
  }

  /**
   The mint went on by exactly these grants: they carry the next numbers in order, none
   of them issued before, and all of them issued now.
   */
  ghost predicate Advanced(next: nat, issued: set<nat>, next': nat, issued': set<nat>, grants: seq<Grant>) {
    && next' == next + |grants| && issued' == issued + Generations(grants)
    && forall i :: 0 <= i < |grants| ==> grants[i].generation == next + i && grants[i].generation !in issued
  }

  // ----- The lease protocol as functions of the authority's state -----

  datatype Authority = Authority(grants: seq<Grant>, owner: Option<(nat, Pin)>, nextLease: nat)

  predicate IsExact(g: Grant, resource: nat, generation: nat) {
    g.descriptor.resource == resource && g.generation == generation
  }

  /** First grant at or after `from` for this resource. */
  function FirstFor(grants: seq<Grant>, resource: nat, from: nat): (r: Option<nat>)
    requires from <= |grants|
    ensures r.Some? ==> from <= r.value < |grants| && grants[r.value].descriptor.resource == resource
    ensures r.None? ==> forall i :: from <= i < |grants| ==> grants[i].descriptor.resource != resource
    decreases |grants| - from
  {
    if from == |grants| then None
    else if grants[from].descriptor.resource == resource then Some(from)
    else FirstFor(grants, resource, from + 1)
  }

  /** First grant at or after `from` with this resource and generation. */
  function FirstExact(grants: seq<Grant>, resource: nat, generation: nat, from: nat): (r: Option<nat>)
    requires from <= |grants|
    ensures r.Some? ==> from <= r.value < |grants| && IsExact(grants[r.value], resource, generation)
    ensures r.None? ==> forall i :: from <= i < |grants| ==> !IsExact(grants[i], resource, generation)
    decreases |grants| - from
  {
    if from == |grants| then None
    else if IsExact(grants[from], resource, generation) then Some(from)
    else FirstExact(grants, resource, generation, from + 1)
  }

  function SetGrant(a: Authority, i: nat, state: GrantState): Authority
    requires i < |a.grants|
  {
    a.(grants := a.grants[i := a.grants[i].(state := state)])
  }

  /** Refusals in order: no owner, unknown resource, not available, lease numbers used up. */
  function Reserve(a: Authority, resource: nat): (Authority, Result<(Descriptor, Reservation), LeaseError>) {
    if a.owner.None? then (a, Failure(OwnerNotBound))
    else
      match FirstFor(a.grants, resource, 0)
      case None => (a, Failure(UnknownResource))
      case Some(i) =>
        if a.grants[i].state != Available then (a, Failure(AlreadyLeased))
        else if a.nextLease == 0 || a.nextLease >= U64_MAX then (a, Failure(GenerationExhausted))
        else
          (SetGrant(a, i, Reserved(a.nextLease)).(nextLease := a.nextLease + 1),
           Success((a.grants[i].descriptor, Reservation(resource, a.grants[i].generation, a.nextLease))))
  }

  /** The grant this reservation holds, if it still holds one. */
  function HeldBy(a: Authority, r: Reservation): Option<nat> {
    match FirstExact(a.grants, r.resource, r.generation, 0)
    case Some(i) => if a.grants[i].state == Reserved(r.lease) then Some(i) else None
    case None => None
  }

  function Cancel(a: Authority, r: Reservation): (Authority, Result<(), LeaseError>) {
    match HeldBy(a, r)
    case Some(i) => (SetGrant(a, i, Available), Success(()))
    case None => (a, Failure(StaleReservation))
  }

  function Commit(a: Authority, r: Reservation, id: ObjectId): Authority
    requires HeldBy(a, r).Some?
  {
    SetGrant(a, HeldBy(a, r).value, Leased(id, r.lease))
  }

  /** The grant leased under exactly these four values. */
  function LeasedAs(a: Authority, resource: nat, generation: nat, id: ObjectId, lease: nat): Option<nat> {
    match FirstExact(a.grants, resource, generation, 0)
    case Some(i) => if a.grants[i].state == Leased(id, lease) then Some(i) else None
    case None => None
  }

  function ReleaseLease(a: Authority, resource: nat, generation: nat, id: ObjectId, lease: nat): (Authority, Result<(), LeaseError>) {
    match LeasedAs(a, resource, generation, id, lease)
    case Some(i) => (SetGrant(a, i, Available), Success(()))
    case None => (a, Failure(FinalizationMismatch))
  }

  predicate AllAvailable(a: Authority) {
    forall i :: 0 <= i < |a.grants| ==> a.grants[i].state == Available
  }

  /** The owner leaves once, and only when every grant is Available. */
  function TakeOwner(a: Authority): (Authority, Result<Pin, LeaseError>) {
    if !AllAvailable(a) then (a, Failure(GrantNotAvailable))
    else if a.owner.None? then (a, Failure(OwnerNotBound))
    else (a.(owner := None), Success(a.owner.value.1))
  }

  function BindOwner(a: Authority, key: ObjectId, pinId: ObjectId, pinType: nat, pin: Pin): (Authority, Result<(), LeaseError>) {
    if pinId != key || pinType != OBJECT_TYPE_TASK_GROUP then (a, Failure(FinalizationMismatch))
    else if a.owner.Some? then (a, Failure(OwnerAlreadyBound))
    else (a.(owner := Some((key, pin))), Success(()))
  }

  /** Grant `i` is the first of this resource. */
  ghost predicate FirstWith(grants: seq<Grant>, resource: nat, i: nat) {
    && i < |grants| && grants[i].descriptor.resource == resource
    && forall j :: 0 <= j < i ==> grants[j].descriptor.resource != resource
  }

  /** Grant `i` is the first of this resource and generation. */
  ghost predicate FirstOf(grants: seq<Grant>, resource: nat, generation: nat, i: nat) {
    && i < |grants| && grants[i].descriptor.resource == resource && grants[i].generation == generation
    && forall j :: 0 <= j < i ==> !(grants[j].descriptor.resource == resource && grants[j].generation == generation)
  }

  lemma OnlyFirst(grants: seq<Grant>, resource: nat)
    ensures match FirstFor(grants, resource, 0)
            case None => forall k: nat :: !FirstWith(grants, resource, k)
            case Some(i) => forall k: nat :: FirstWith(grants, resource, k) <==> k == i
  {
    FirstForIsFirst(grants, resource, 0);
  }

  lemma {:induction false} FirstForIsFirst(grants: seq<Grant>, resource: nat, from: nat)
    requires from <= |grants|
    ensures FirstFor(grants, resource, from).Some? ==>
              forall j :: from <= j < FirstFor(grants, resource, from).value ==> grants[j].descriptor.resource != resource
    decreases |grants| - from
  {
    if from < |grants| { FirstForIsFirst(grants, resource, from + 1); }
  }

  lemma {:induction false} FirstExactIsFirst(grants: seq<Grant>, resource: nat, generation: nat, from: nat)
    requires from <= |grants|
    ensures FirstExact(grants, resource, generation, from).Some? ==>
              forall j :: from <= j < FirstExact(grants, resource, generation, from).value ==> !IsExact(grants[j], resource, generation)
    decreases |grants| - from
  {
    if from < |grants| { FirstExactIsFirst(grants, resource, generation, from + 1); }
  }

  /** It succeeded exactly if the first such grant was in this state, and then made it Available; otherwise nothing moved. */
  ghost predicate Ends(before: seq<Grant>, after: seq<Grant>, resource: nat, generation: nat, state: GrantState, ok: bool) {
    && (ok <==> exists i: nat :: FirstOf(before, resource, generation, i) && before[i].state == state)
    && (ok ==> exists i: nat :: FirstOf(before, resource, generation, i) && after == before[i := before[i].(state := Available)])
    && (!ok ==> after == before)
  }

  lemma OnlyFirstOf(grants: seq<Grant>, resource: nat, generation: nat)
    ensures match FirstExact(grants, resource, generation, 0)
            case None => forall k: nat :: !FirstOf(grants, resource, generation, k)
            case Some(i) => forall k: nat :: FirstOf(grants, resource, generation, k) <==> k == i
  {
    FirstExactIsFirst(grants, resource, generation, 0);
  }

  /** The lock-guarded authority: a grant array, the owner and the lease counter, updated in place. */
  class BootResourceGrantAuthority {
    const grants: array<Grant>
    var owner: Option<(nat, Pin)>
    var nextLease: nat

    ghost function View(): Authority reads this, grants { Authority(grants[..], owner, nextLease) }

    constructor (minted: seq<Grant>)
      ensures fresh(grants) && View() == Authority(minted, None, 1)
    {
      grants := new Grant[|minted|](i requires 0 <= i < |minted| => minted[i]);
      owner, nextLease := None, 1;
    }

    method FindResource(resource: nat) returns (found: Option<nat>)
      ensures found == FirstFor(grants[..], resource, 0)
    {
      var i := 0;
      while i < grants.Length
        invariant i <= grants.Length
        invariant FirstFor(grants[..], resource, 0) == FirstFor(grants[..], resource, i)
      {
        if grants[i].descriptor.resource == resource {
          return Some(i);
        }
        i := i + 1;
      }
      found := None;
    }

    method FindExact(resource: nat, generation: nat) returns (found: Option<nat>)
      ensures found == FirstExact(grants[..], resource, generation, 0)
    {
      var i := 0;
      while i < grants.Length
        invariant i <= grants.Length
        invariant FirstExact(grants[..], resource, generation, 0) == FirstExact(grants[..], resource, generation, i)
      {
        if IsExact(grants[i], resource, generation) {
          return Some(i);
        }
        i := i + 1;
      }
      found := None;
    }

    method SetState(i: nat, state: GrantState)
      requires i < grants.Length
      modifies grants
      ensures View() == SetGrant(old(View()), i, state)
    {
      grants[i] := grants[i].(state := state);
    }

    /** The pin must name a task group under its own key, and no owner may be replaced. */
    method BindResourceOwner(key: ObjectId, pinId: ObjectId, pinType: nat, pin: Pin) returns (r: Result<(), LeaseError>)
      modifies this
      ensures (View(), r) == BindOwner(old(View()), key, pinId, pinType, pin)
      ensures r.Success? <==> pinId == key && pinType == OBJECT_TYPE_TASK_GROUP && old(owner).None?
      ensures r.Success? ==> owner == Some((key, pin)) && nextLease == old(nextLease) && grants[..] == old(grants[..])
      ensures r.Failure? ==> View() == old(View())
      ensures r == Failure(OwnerAlreadyBound) <==> pinId == key && pinType == OBJECT_TYPE_TASK_GROUP && old(owner).Some?
    {
      if pinId != key || pinType != OBJECT_TYPE_TASK_GROUP {
        return Failure(FinalizationMismatch);
      }
      if owner.Some? {
        return Failure(OwnerAlreadyBound);
      }
      owner := Some((key, pin));
      r := Success(());
    }

    method TakeOwnerIfAllAvailable() returns (r: Result<Pin, LeaseError>)
      modifies this
      ensures (View(), r) == TakeOwner(old(View()))
      ensures r == Failure(GrantNotAvailable) <==> exists i :: 0 <= i < grants.Length && grants[i].state != Available
      ensures r == Failure(OwnerNotBound) <==> (forall i :: 0 <= i < grants.Length ==> grants[i].state == Available) && old(owner).None?
      ensures r.Failure? ==> r.error in {GrantNotAvailable, OwnerNotBound} && owner == old(owner)
      ensures r.Success? ==> r.value == old(owner).value.1 && owner == None
      ensures nextLease == old(nextLease) && grants[..] == old(grants[..])
    {
      var i := 0;
      while i < grants.Length
        invariant i <= grants.Length
        invariant forall j :: 0 <= j < i ==> grants[j].state == Available
      {
        if grants[i].state != Available {
          assert View().grants[i].state != Available;
          return Failure(GrantNotAvailable);
        }
        i := i + 1;
      }
      assert AllAvailable(View());
      if owner.None? {
        return Failure(OwnerNotBound);
      }
      r := Success(owner.value.1);
      owner := None;
    }

    method ReserveLease(resource: nat) returns (r: Result<(Descriptor, Reservation), LeaseError>)
      modifies this, grants
      ensures (View(), r) == Reserve(old(View()), resource)
      ensures r == Failure(OwnerNotBound) <==> old(owner).None?
      ensures r == Failure(UnknownResource) <==>
                old(owner).Some? && forall i :: 0 <= i < grants.Length ==> old(grants[i]).descriptor.resource != resource
      ensures r == Failure(AlreadyLeased) <==>
                old(owner).Some? && exists i: nat :: FirstWith(old(grants[..]), resource, i) && old(grants[..])[i].state != Available
      ensures r == Failure(GenerationExhausted) <==>
                && old(owner).Some? && (old(nextLease) == 0 || old(nextLease) >= U64_MAX)
                && exists i: nat :: FirstWith(old(grants[..]), resource, i) && old(grants[..])[i].state == Available
      ensures r.Success? <==>
                && old(owner).Some? && 0 < old(nextLease) < U64_MAX
                && exists i: nat :: FirstWith(old(grants[..]), resource, i) && old(grants[..])[i].state == Available
      ensures r.Failure? ==> r.error in {OwnerNotBound, UnknownResource, AlreadyLeased, GenerationExhausted} && View() == old(View())
      ensures r.Success? ==>
                exists i: nat ::
                  && FirstWith(old(grants[..]), resource, i)
                  && var g := old(grants[..])[i];
                     && r.value == (g.descriptor, Reservation(resource, g.generation, old(nextLease)))
                     && grants[..] == old(grants[..])[i := Grant(g.descriptor, g.generation, Reserved(old(nextLease)))]
      ensures r.Success? ==> nextLease == old(nextLease) + 1 && owner == old(owner)
    {
      if owner.None? {
        return Failure(OwnerNotBound);
      }
      OnlyFirst(grants[..], resource);
      var found := FindResource(resource);
      if found.None? {
        return Failure(UnknownResource);
      }
      var i := found.value;
      var grant := grants[i];
      if grant.state != Available {
        return Failure(AlreadyLeased);
      }
      var lease := nextLease;
      if lease == 0 || lease >= U64_MAX {
        return Failure(GenerationExhausted);
      }
      nextLease := lease + 1;
      SetState(i, Reserved(lease));
      r := Success((grant.descriptor, Reservation(resource, grant.generation, lease)));
    }

    method CancelReservation(reservation: Reservation) returns (r: Result<(), LeaseError>)
      modifies grants
      ensures (View(), r) == Cancel(old(View()), reservation)
      ensures Ends(old(grants[..]), grants[..], reservation.resource, reservation.generation, Reserved(reservation.lease), r.Success?)
      ensures r.Failure? ==> r.error == StaleReservation
    {
      OnlyFirstOf(grants[..], reservation.resource, reservation.generation);
      var found := FindExact(reservation.resource, reservation.generation);
      if found.None? || grants[found.value].state != Reserved(reservation.lease) {
        return Failure(StaleReservation);
      }
      SetState(found.value, Available);
      r := Success(());
    }

    /** Infallible: the caller still holds the exact reservation. */
    method CommitReservation(reservation: Reservation, id: ObjectId)
      requires HeldBy(View(), reservation).Some?
      modifies grants
      ensures View() == Commit(old(View()), reservation, id)
      ensures exists i: nat ::
                && FirstOf(old(grants[..]), reservation.resource, reservation.generation, i)
                && old(grants[..])[i].state == Reserved(reservation.lease)
                && grants[..] == old(grants[..])[i := old(grants[..])[i].(state := Leased(id, reservation.lease))]
    {
      OnlyFirstOf(grants[..], reservation.resource, reservation.generation);
      var found := FindExact(reservation.resource, reservation.generation);
      SetState(found.value, Leased(id, reservation.lease));
    }

    method Release(resource: nat, generation: nat, id: ObjectId, lease: nat) returns (r: Result<(), LeaseError>)
      modifies grants
      ensures (View(), r) == ReleaseLease(old(View()), resource, generation, id, lease)
      ensures Ends(old(grants[..]), grants[..], resource, generation, Leased(id, lease), r.Success?)
      ensures r.Failure? ==> r.error == FinalizationMismatch
    {
      OnlyFirstOf(grants[..], resource, generation);
      var found := FindExact(resource, generation);
      if found.None? || grants[found.value].state != Leased(id, lease) {
        return Failure(FinalizationMismatch);
      }
      SetState(found.value, Available);
      r := Success(());
    }
  }
}
