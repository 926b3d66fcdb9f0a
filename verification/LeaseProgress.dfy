/**
 A lease can always be taken and given back: from any reachable state with an owner and
 an available grant, the steps of one claim, and exactly what they change
 (kernel/src/boot/boot_grant.rs:300-408, kernel/src/device/resource.rs:235-287, 382-467).
 */
module LeaseProgress {
  import opened Wrappers
  import opened BootGrants
  import opened DeviceResource
  import opened LeaseMachine

  ghost predicate Leads(s: State, step: Step, t: State) {
    Enabled(s, step) && Asserts(s, step) && t == Apply(s, step)
  }

  lemma Ahead(s: State, step: Step) returns (t: State)
    requires Inv(s) && Enabled(s, step)
    ensures Leads(s, step, t) && Inv(t)
  {
    hide Inv, Apply, Enabled, Asserts;
    Preserved(s, step);
    t := Apply(s, step);
  }

  /** One claim: which grant, under which names. */
  datatype Lease = Lease(claim: ClaimId, index: nat, id: ObjectId, domain: nat)

  /** The owner is bound, this is the first grant of its resource and is available, and the object table takes its claim. */
  ghost predicate Claimable(s: State, l: Lease) {
    && l.index < |s.authority.grants| && l.claim !in s.claims && l.id !in s.objects
    && s.authority.owner.Some? && 0 < s.authority.nextLease < U64_MAX
    && var g := s.authority.grants[l.index];
       && FirstFor(s.authority.grants, g.descriptor.resource, 0) == Some(l.index) && g.state == Available && g.generation != 0
       && ValidDescriptor(Claimed(g.descriptor, s.authority.nextLease, l.domain))
       && !Taken(s.records, l.id, g.descriptor.resource) && |s.records| < s.capacity
  }

  function Grant(s: State, l: Lease): BootGrants.Grant
    requires l.index < |s.authority.grants|
  {
    s.authority.grants[l.index]
  }

  function RecordFor(s: State, l: Lease): ResourceRecord
    requires l.index < |s.authority.grants|
  {
    var g, lease := Grant(s, l), s.authority.nextLease;
    ResourceRecord(l.id, Claimed(g.descriptor, lease, l.domain), Some(GrantLease(g.descriptor.resource, g.generation, lease, l.id)))
  }

  /** The grant in this state, and one lease number spent. */
  function AuthorityWith(s: State, l: Lease, state: GrantState): Authority
    requires l.index < |s.authority.grants|
  {
    SetGrant(s.authority, l.index, state).(nextLease := s.authority.nextLease + 1)
  }

  function ClaimFor(s: State, l: Lease, bound: Option<ObjectId>): Claim
    requires l.index < |s.authority.grants|
  {
    var g := Grant(s, l);
    Claim(Reservation(g.descriptor.resource, g.generation, s.authority.nextLease), g.descriptor, l.index, bound)
  }

  /** With the grant reserved and nothing bound. */
  function WhenReserved(s: State, l: Lease): State
    requires l.index < |s.authority.grants|
  {
    var lease := s.authority.nextLease;
    s.(authority := AuthorityWith(s, l, Reserved(lease)), issued := s.issued + {lease}, claims := s.claims[l.claim := ClaimFor(s, l, None)])
  }

  function WhenBound(s: State, l: Lease): State
    requires l.index < |s.authority.grants|
  {
    WhenReserved(s, l).(records := s.records[l.id := RecordFor(s, l)], objects := s.objects + {l.id},
                        claims := s.claims[l.claim := ClaimFor(s, l, Some(l.id))])
  }

  /** With the grant leased to the live object. */
  function WhenLeased(s: State, l: Lease): State
    requires l.index < |s.authority.grants|
  {
    var lease := s.authority.nextLease;
    s.(authority := AuthorityWith(s, l, Leased(l.id, lease)), issued := s.issued + {lease}, objects := s.objects + {l.id},
       records := s.records[l.id := RecordFor(s, l)], home := s.home[l.id := l.index])
  }

  function WhenFinal(s: State, l: Lease): State
    requires l.index < |s.authority.grants|
  {
    WhenLeased(s, l).(records := s.records, finals := s.finals[l.id := Finalization(RecordFor(s, l).grant)])
  }

  /** Everything as before, except that one lease number and one object name are spent. */
  function WhenReturned(s: State, l: Lease): State {
    s.(authority := s.authority.(nextLease := s.authority.nextLease + 1), issued := s.issued + {s.authority.nextLease},
       objects := s.objects + {l.id})
  }

  lemma ReserveLeads(s: State, l: Lease, t: State)
    requires Claimable(s, l) && Leads(s, ReserveStep(l.claim, Grant(s, l).descriptor.resource), t)
    ensures t == WhenReserved(s, l)
  {
    hide FirstFor, ValidDescriptor, Taken;
  }

  lemma BindLeads(s: State, l: Lease, t: State)
    requires Claimable(s, l) && Leads(WhenReserved(s, l), BindStep(l.claim, l.id, l.domain, true), t)
    ensures t == WhenBound(s, l)
  {
    hide FirstFor, ValidDescriptor, Taken, Cancel;
    assert t == DoBind(WhenReserved(s, l), l.claim, l.id, l.domain, true);
    assert t.claims == WhenBound(s, l).claims;
  }

  lemma HeldWhenBound(s: State, l: Lease)
    requires l.index < |s.authority.grants| && Inv(WhenBound(s, l))
    ensures HeldBy(WhenBound(s, l).authority, ClaimFor(s, l, Some(l.id)).reservation) == Some(l.index)
  {
    var b := WhenBound(s, l);
    assert b.claims[l.claim] == ClaimFor(s, l, Some(l.id));
    hide Inv, WhenBound, HeldBy;
    GenuineIsHeld(b, l.claim);
  }

  lemma CommitShape(s: State, l: Lease)
    requires l.index < |s.authority.grants| && l.claim !in s.claims
    requires HeldBy(WhenBound(s, l).authority, ClaimFor(s, l, Some(l.id)).reservation) == Some(l.index)
    ensures DoCommit(WhenBound(s, l), l.claim) == WhenLeased(s, l)
  {
    hide HeldBy;
    var t := DoCommit(WhenBound(s, l), l.claim);
    assert t.claims == s.claims;
    assert t.authority.grants == WhenLeased(s, l).authority.grants;
  }

  lemma CommitIs(b: State, claim: ClaimId, t: State)
    requires Leads(b, CommitStep(claim), t)
    ensures claim in b.claims && b.claims[claim].bound.Some? && HeldBy(b.authority, b.claims[claim].reservation).Some? && t == DoCommit(b, claim)
  {
  }

  lemma CommitLeads(s: State, l: Lease, t: State)
    requires l.index < |s.authority.grants| && l.claim !in s.claims && Inv(WhenBound(s, l)) && Leads(WhenBound(s, l), CommitStep(l.claim), t)
    ensures t == WhenLeased(s, l)
  {
    hide Inv, Leads, WhenBound, WhenLeased, HeldBy;
    HeldWhenBound(s, l);
    CommitIs(WhenBound(s, l), l.claim, t);
    CommitShape(s, l);
  }

  lemma FinalizeLeads(s: State, l: Lease, t: State)
    requires Claimable(s, l) && l.id !in s.records && Leads(WhenLeased(s, l), Finalize(l.id), t)
    ensures t == WhenFinal(s, l)
  {
    hide FirstFor, ValidDescriptor, Taken;
    assert t.records == s.records;
  }

  lemma LeasedWhenFinal(s: State, l: Lease)
    requires l.index < |s.authority.grants| && Inv(WhenFinal(s, l))
    ensures var g := RecordFor(s, l).grant.value;
            LeasedAs(WhenFinal(s, l).authority, g.resource, g.generation, g.id, g.lease) == Some(l.index)
  {
    var f := WhenFinal(s, l);
    assert f.finals[l.id].grant == RecordFor(s, l).grant && f.home[l.id] == l.index && f.finals[l.id].grant.Some?;
    hide Inv, WhenFinal, LeasedAs;
    ReleaseMatches(f, l.id);
  }

  lemma ReturnShape(s: State, l: Lease)
    requires l.index < |s.authority.grants| && Grant(s, l).state == Available && l.id !in s.finals && l.id !in s.home
    requires var g := RecordFor(s, l).grant.value;
             LeasedAs(WhenFinal(s, l).authority, g.resource, g.generation, g.id, g.lease) == Some(l.index)
    ensures DoGiveBack(WhenFinal(s, l), l.id) == WhenReturned(s, l)
  {
    hide LeasedAs;
    var t := DoGiveBack(WhenFinal(s, l), l.id);
    assert t.finals == s.finals;
    assert t.home == s.home;
    assert t.authority.grants == s.authority.grants;
  }

  lemma GiveBackIs(f: State, id: ObjectId, t: State)
    requires Leads(f, GiveBack(id), t)
    ensures id in f.finals && t == DoGiveBack(f, id)
  {
  }

  lemma ReturnLeads(s: State, l: Lease, t: State)
    requires l.index < |s.authority.grants| && Grant(s, l).state == Available && l.id !in s.finals && l.id !in s.home
    requires Inv(WhenFinal(s, l)) && Leads(WhenFinal(s, l), GiveBack(l.id), t)
    ensures t == WhenReturned(s, l)
  {
    hide Inv, Leads, WhenFinal, WhenReturned, LeasedAs, DoGiveBack;
    LeasedWhenFinal(s, l);
    GiveBackIs(WhenFinal(s, l), l.id, t);
    ReturnShape(s, l);
  }

  lemma NobodyBound(s: State, l: Lease)
    requires Inv(s) && Claimable(s, l)
    ensures l.id !in s.records && l.id !in s.finals && l.id !in s.home && forall c :: c in s.claims ==> s.claims[c].bound != Some(l.id)
  {
    hide FirstFor, ValidDescriptor, Taken;
    FreshObject(s, l.id);
    forall c | c in s.claims ensures s.claims[c].bound != Some(l.id) { assert !BoundBy(s, c, l.id); }
  }

  lemma EnablesNext(s: State, l: Lease)
    requires Claimable(s, l) && forall c :: c in s.claims ==> s.claims[c].bound != Some(l.id)
    ensures Enabled(s, ReserveStep(l.claim, Grant(s, l).descriptor.resource))
    ensures Enabled(WhenReserved(s, l), BindStep(l.claim, l.id, l.domain, true))
    ensures Enabled(WhenBound(s, l), CommitStep(l.claim)) && Enabled(WhenLeased(s, l), Finalize(l.id))
    ensures Enabled(WhenFinal(s, l), GiveBack(l.id))
  {
    hide FirstFor, ValidDescriptor, Taken;
  }

  /**
   From any reachable state, a claim of an available grant goes through: it is reserved,
   bound and leased to the object with exactly the descriptor of the grant, and after the
   object is finalized and the lease given back everything is as it was, except that one
   lease number and one object name are spent.
   */
  lemma LeaseRoundTrip(s: State, l: Lease)
    requires Inv(s) && Claimable(s, l)
    ensures Leads(s, ReserveStep(l.claim, Grant(s, l).descriptor.resource), WhenReserved(s, l))
    ensures Leads(WhenReserved(s, l), BindStep(l.claim, l.id, l.domain, true), WhenBound(s, l))
    ensures Leads(WhenBound(s, l), CommitStep(l.claim), WhenLeased(s, l))
    ensures Leads(WhenLeased(s, l), Finalize(l.id), WhenFinal(s, l))
    ensures Leads(WhenFinal(s, l), GiveBack(l.id), WhenReturned(s, l))
  {
    NobodyBound(s, l);
    EnablesNext(s, l);
    assert l.index < |s.authority.grants| && l.claim !in s.claims && Grant(s, l).state == Available;
    hide Inv, Leads, Enabled, Claimable, WhenReserved, WhenBound, WhenLeased, WhenFinal, WhenReturned;
    var s1 := Ahead(s, ReserveStep(l.claim, Grant(s, l).descriptor.resource));
    ReserveLeads(s, l, s1);
    var s2 := Ahead(s1, BindStep(l.claim, l.id, l.domain, true));
    BindLeads(s, l, s2);
    var s3 := Ahead(s2, CommitStep(l.claim));
    CommitLeads(s, l, s3);
    var s4 := Ahead(s3, Finalize(l.id));
    FinalizeLeads(s, l, s4);
    var s5 := Ahead(s4, GiveBack(l.id));
    ReturnLeads(s, l, s5);
  }
}
