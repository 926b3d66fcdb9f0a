/** What every run of the lease protocol guarantees. */
module LeaseRuns {
  import opened Wrappers
  import opened BootGrants
  import opened DeviceResource
  import opened LeaseMachine

  lemma RunStep(states: seq<State>, steps: seq<Step>, i: nat)
    requires Run(states, steps) && i < |steps|
    ensures Enabled(states[i], steps[i]) && Asserts(states[i], steps[i]) && states[i + 1] == Apply(states[i], steps[i])
  {
  }

  lemma {:induction false} RunInv(states: seq<State>, steps: seq<Step>, n: nat)
    requires Run(states, steps) && n < |states|
    ensures Inv(states[n])
  {
    hide Inv, Enabled, Asserts, Apply, Initial;
    if n == 0 {
      InitialInv(states[0]);
    } else {
      RunInv(states, steps, n - 1);
      RunStep(states, steps, n - 1);
      Preserved(states[n - 1], steps[n - 1]);
    }
  }

  /**
   Genuine tokens never fail: the reservation of every claim in flight still holds its
   own grant, so it can be cancelled or committed, the record of a bound claim is there
   to roll back, and the lease of every finalized object can be given back.
   */
  lemma GenuineTokensNeverFail(states: seq<State>, steps: seq<Step>, n: nat)
    requires Run(states, steps) && n < |states|
    ensures var s := states[n];
            && (forall c :: c in s.claims ==>
                  && HeldBy(s.authority, s.claims[c].reservation) == Some(s.claims[c].index)
                  && Cancel(s.authority, s.claims[c].reservation).1.Success?
                  && (s.claims[c].bound.Some? ==> s.claims[c].bound.value in s.records))
            && (forall o :: o in s.finals && s.finals[o].grant.Some? ==>
                  var g := s.finals[o].grant.value;
                  ReleaseLease(s.authority, g.resource, g.generation, g.id, g.lease).1.Success?)
  {
    hide Run, Inv, HeldBy, Cancel, LeasedAs;
    RunInv(states, steps, n);
    var s := states[n];
    forall c | c in s.claims
      ensures HeldBy(s.authority, s.claims[c].reservation) == Some(s.claims[c].index)
      ensures Cancel(s.authority, s.claims[c].reservation).1.Success?
      ensures s.claims[c].bound.Some? ==> s.claims[c].bound.value in s.records
    {
      GenuineIsHeld(s, c);
      BoundIsRecorded(s, c);
    }
    forall o | o in s.finals && s.finals[o].grant.Some?
      ensures var g := s.finals[o].grant.value; LeasedAs(s.authority, g.resource, g.generation, g.id, g.lease).Some?
    {
      ReleaseMatches(s, o);
    }
  }

  lemma BoundIsRecorded(s: State, c: ClaimId)
    requires Inv(s) && c in s.claims
    ensures s.claims[c].bound.Some? ==> s.claims[c].bound.value in s.records
  {
    assert ClaimOk(s, c);
  }

  /** Outstanding reservations of grant `i`. */
  ghost predicate ReservedBy(s: State, i: nat, c: ClaimId) { c in s.claims && s.claims[c].index == i }

  /** Object `o` holds the lease of grant `i`. */
  ghost predicate LeasedBy(s: State, i: nat, o: ObjectId) { o in s.home && s.home[o] == i }

  /**
   Each grant is Available with no holder, or Reserved by exactly one outstanding
   reservation, or Leased to exactly one object; and the holder's token names it.
   */
  lemma OneHolderPerGrant(states: seq<State>, steps: seq<Step>, n: nat, i: nat)
    requires Run(states, steps) && n < |states| && i < |states[n].authority.grants|
    ensures var s := states[n];
            match s.authority.grants[i].state
            case Available => (forall c :: !ReservedBy(s, i, c)) && (forall o :: !LeasedBy(s, i, o))
            case Reserved(lease) =>
              && (forall o :: !LeasedBy(s, i, o))
              && exists c :: ReservedBy(s, i, c) && s.claims[c].reservation.lease == lease && forall d :: ReservedBy(s, i, d) ==> d == c
            case Leased(o, lease) =>
              && (forall c :: !ReservedBy(s, i, c)) && (forall q :: LeasedBy(s, i, q) <==> q == o)
              && LeaseOf(s, o).Some? && LeaseOf(s, o).value.lease == lease
  {
    hide Run;
    RunInv(states, steps, n);
    HolderOf(states[n], i);
  }

  lemma ClaimShows(s: State, i: nat, c: ClaimId)
    requires Inv(s) && ReservedBy(s, i, c)
    ensures i < |s.authority.grants| && s.authority.grants[i].state == Reserved(s.claims[c].reservation.lease)
  {
    assert ClaimOk(s, c);
  }

  lemma HomeShows(s: State, i: nat, o: ObjectId)
    requires Inv(s) && LeasedBy(s, i, o)
    ensures i < |s.authority.grants| && LeaseOf(s, o).Some?
    ensures s.authority.grants[i].state == Leased(o, LeaseOf(s, o).value.lease)
  {
    assert HomeOk(s, o);
  }

  lemma HolderOf(s: State, i: nat)
    requires Inv(s) && i < |s.authority.grants|
    ensures match s.authority.grants[i].state
            case Available => (forall c :: !ReservedBy(s, i, c)) && (forall o :: !LeasedBy(s, i, o))
            case Reserved(lease) =>
              && (forall o :: !LeasedBy(s, i, o))
              && exists c :: ReservedBy(s, i, c) && s.claims[c].reservation.lease == lease && forall d :: ReservedBy(s, i, d) ==> d == c
            case Leased(o, lease) =>
              && (forall c :: !ReservedBy(s, i, c)) && (forall q :: LeasedBy(s, i, q) <==> q == o)
              && LeaseOf(s, o).Some? && LeaseOf(s, o).value.lease == lease
  {
    assert GrantOk(s, i);
    var state := s.authority.grants[i].state;
    forall c ensures ReservedBy(s, i, c) ==> state == Reserved(s.claims[c].reservation.lease) {
      if ReservedBy(s, i, c) { ClaimShows(s, i, c); }
    }
    forall o ensures LeasedBy(s, i, o) ==> LeaseOf(s, o).Some? && state == Leased(o, LeaseOf(s, o).value.lease) {
      if LeasedBy(s, i, o) { HomeShows(s, i, o); }
    }
    if state.Reserved? {
      var c :| c in s.claims && s.claims[c].index == i;
      assert ReservedBy(s, i, c);
    } else if state.Leased? {
      assert LeasedBy(s, i, state.id);
    }
  }

  /** Lease numbers that were issued stay issued. */
  lemma {:induction false} IssuedGrows(states: seq<State>, steps: seq<Step>, i: nat, j: nat)
    requires Run(states, steps) && i <= j < |states|
    ensures states[i].issued <= states[j].issued
    decreases j
  {
    hide Enabled, Asserts, Apply, Initial;
    if i < j {
      IssuedGrows(states, steps, i, j - 1);
      RunStep(states, steps, j - 1);
      StepIssues(states[j - 1], steps[j - 1]);
    }
  }

  lemma StepIssues(s: State, step: Step)
    requires Enabled(s, step) && Asserts(s, step)
    ensures s.issued <= Apply(s, step).issued
  {
    hide Cancel, HeldBy, ReleaseLease, Taken, ValidDescriptor;
  }

  /** Two reservations of one run never carry the same lease number. */
  lemma LeaseNumbersNeverRepeat(states: seq<State>, steps: seq<Step>, i: nat, j: nat)
    requires Run(states, steps) && i < j < |steps| && steps[i].ReserveStep? && steps[j].ReserveStep?
    requires Reserve(states[i].authority, steps[i].resource).1.Success?
    requires Reserve(states[j].authority, steps[j].resource).1.Success?
    ensures Reserve(states[i].authority, steps[i].resource).1.value.1.lease
            != Reserve(states[j].authority, steps[j].resource).1.value.1.lease
  {
    hide Inv, Enabled, Asserts, Initial;
    RunStep(states, steps, i);
    IssuedGrows(states, steps, i + 1, j);
    RunInv(states, steps, j);
    assert Reserve(states[i].authority, steps[i].resource).1.value.1.lease in states[i + 1].issued;
    NumbersBelow(states[j]);
  }

  lemma NumbersBelow(s: State)
    requires Inv(s)
    ensures forall l :: l in s.issued ==> 0 < l < s.authority.nextLease
  {
  }

  lemma HoldersShow(s: State)
    requires Inv(s)
    ensures forall c :: c in s.claims ==>
              s.claims[c].index < |s.authority.grants| && s.authority.grants[s.claims[c].index].state.Reserved?
    ensures forall o :: o in s.home ==> s.home[o] < |s.authority.grants| && s.authority.grants[s.home[o]].state.Leased?
  {
    assert forall c :: c in s.claims ==> ClaimOk(s, c);
    assert forall o :: o in s.home ==> HomeOk(s, o);
  }

  /** When the owner leaves, no reservation is outstanding and no object holds a lease. */
  lemma OwnerLeavesLast(states: seq<State>, steps: seq<Step>, n: nat)
    requires Run(states, steps) && n < |states| && TakeOwner(states[n].authority).1.Success?
    ensures states[n].claims == map[] && states[n].home == map[]
    ensures forall o :: LeaseOf(states[n], o).None?
  {
    hide Run;
    RunInv(states, steps, n);
    var s := states[n];
    HoldersShow(s);
    assert AllAvailable(s.authority);
    assert s.claims.Keys == {} && s.home.Keys == {};
    forall o ensures LeaseOf(s, o).None? { assert ObjectOk(s, o); }
  }

  /** The owner leaves at this step. */
  predicate OwnerLeaves(s: State, step: Step) { step.OwnerOut? && TakeOwner(s.authority).1.Success? }

  /** Only binding and taking touch the owner. */
  lemma OwnerUntouched(a: Authority, resource: nat, generation: nat, id: ObjectId, lease: nat, r: Reservation)
    ensures Reserve(a, resource).0.owner == a.owner && Cancel(a, r).0.owner == a.owner
    ensures HeldBy(a, r).Some? ==> Commit(a, r, id).owner == a.owner
    ensures ReleaseLease(a, resource, generation, id, lease).0.owner == a.owner
  {
  }

  lemma StepKeepsOwner(s: State, step: Step)
    requires Enabled(s, step) && Asserts(s, step) && s.authority.owner.Some? && !OwnerLeaves(s, step)
    ensures Apply(s, step).authority.owner == s.authority.owner
  {
    hide Reserve, Cancel, HeldBy, Commit, ReleaseLease, LeasedAs, FirstFor, ValidDescriptor, Taken;
    var a, none := s.authority, Reservation(0, 0, 0);
    match step
    case ReserveStep(_, resource) => OwnerUntouched(a, resource, 0, 0, 0, none);
    case BindStep(claim, _, _, _) => OwnerUntouched(a, 0, 0, 0, 0, s.claims[claim].reservation);
    case RollBack(claim) => OwnerUntouched(a, 0, 0, 0, 0, s.claims[claim].reservation);
    case CommitStep(claim) => OwnerUntouched(a, 0, 0, s.claims[claim].bound.value, 0, s.claims[claim].reservation);
    case GiveBack(id) =>
      if s.finals[id].grant.Some? {
        var g := s.finals[id].grant.value;
        OwnerUntouched(a, g.resource, g.generation, g.id, g.lease, none);
      }
    case Stray(resource, generation, id, lease) => OwnerUntouched(a, resource, generation, id, lease, none);
    case _ =>
  }

  /** While nobody takes the owner out it is never replaced, and every attempt to bind another is refused. */
  lemma {:induction false} OwnerIsNeverReplaced(states: seq<State>, steps: seq<Step>, i: nat, j: nat)
    requires Run(states, steps) && i <= j < |states| && states[i].authority.owner.Some?
    requires forall k :: i <= k < j ==> !OwnerLeaves(states[k], steps[k])
    ensures states[j].authority.owner == states[i].authority.owner
    ensures forall key, pinId, pinType, pin ::
              var (after, r) := BindOwner(states[j].authority, key, pinId, pinType, pin); r.Failure? && after == states[j].authority
    decreases j
  {
    hide Enabled, Asserts, Apply, Initial, OwnerLeaves;
    if i < j {
      OwnerIsNeverReplaced(states, steps, i, j - 1);
      RunStep(states, steps, j - 1);
      StepKeepsOwner(states[j - 1], steps[j - 1]);
    }
  }

  /** The pin that leaves is the pin that was bound. */
  lemma PinComesBack(states: seq<State>, steps: seq<Step>, i: nat, j: nat)
    requires Run(states, steps) && i < j < |steps| && steps[i].OwnerIn? && OwnerLeaves(states[j], steps[j])
    requires BindOwner(states[i].authority, steps[i].key, steps[i].pinId, steps[i].pinType, steps[i].pin).1.Success?
    requires forall k :: i < k < j ==> !OwnerLeaves(states[k], steps[k])
    ensures TakeOwner(states[j].authority).1 == Success(steps[i].pin)
    ensures steps[i].pinId == steps[i].key && steps[i].pinType == OBJECT_TYPE_TASK_GROUP && states[j + 1].authority.owner == None
  {
    RunStep(states, steps, i);
    OwnerIsNeverReplaced(states, steps, i + 1, j);
    RunStep(states, steps, j);
  }

  /**
   A release succeeds exactly when all four of its fields are the lease of an object
   that committed one and has not given it back; any other release changes nothing.
   */
  lemma ReleaseIsExact(states: seq<State>, steps: seq<Step>, n: nat, resource: nat, generation: nat, id: ObjectId, lease: nat)
    requires Run(states, steps) && n < |states|
    ensures var s := states[n];
            var (after, r) := ReleaseLease(s.authority, resource, generation, id, lease);
            && (r.Success? <==> id in s.home && LeaseOf(s, id) == Some(GrantLease(resource, generation, lease, id)))
            && (r.Failure? ==> after == s.authority)
            && (r.Success? ==> s.home[id] < |s.authority.grants| && after == SetGrant(s.authority, s.home[id], Available))
  {
    hide Run;
    RunInv(states, steps, n);
    var s := states[n];
    if id in s.home && LeaseOf(s, id) == Some(GrantLease(resource, generation, lease, id)) {
      assert HomeOk(s, id);
      ExactIsUnique(s.authority, s.home[id], resource, generation);
    }
    if LeasedAs(s.authority, resource, generation, id, lease).Some? {
      var i := LeasedAs(s.authority, resource, generation, id, lease).value;
      assert GrantOk(s, i);
      assert HomeOk(s, id);
    }
  }
}
