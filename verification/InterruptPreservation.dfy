/** Each step of the interrupt machine keeps the invariant, and none of its assertions can fire. */
module InterruptPreservation {
  import opened Wrappers
  import opened InterruptPlatform
  import opened InterruptState
  import opened InterruptAuthority
  import opened InterruptMachine
  import opened InterruptInvariant

  // ----- Putting a local change back together -----

  /** No new use of a source appears, and records keep their identity. */
  ghost predicate Shrinks(s: State, s': State) {
    && (forall o, source :: Uses(s', o, source) ==> Uses(s, o, source))
    && (forall o :: o in s'.records ==>
          o in s.records && s'.records[o].id == s.records[o].id && s'.records[o].binding == s.records[o].binding)
  }

  lemma ShrinkKeepsApart(s: State, s': State)
    requires SourcesApart(s) && Shrinks(s, s')
    ensures SourcesApart(s')
  {
    hide Uses;
  }

  predicate NotRetrying(s: State, t: ObjectId) { t in s.records ==> !s.records[t].retrying }

  /** A step away from every retry leaves the retries sound. */
  lemma RetriesKept(s: State, s': State, t: ObjectId, source: nat)
    requires RetriesOk(s) && Touches(s, s', t, source) && s'.retries == s.retries
    requires NotRetrying(s, t) && NotRetrying(s', t)
    ensures RetriesOk(s')
  {
    forall w | w in s'.retries ensures RetryOk(s', w) {
      assert RetryOk(s, w);
      MapSame(s.records, s'.records, t, s.retries[w].id);
      assert s.retries[w].id in s.gone <==> s.retries[w].id in s.gone - {t};
      assert s.retries[w].id in s'.gone <==> s.retries[w].id in s'.gone - {t};
    }
    forall o | o in s'.records && s'.records[o].retrying ensures exists w :: w in s'.retries && s'.retries[w].id == o {
      MapSame(s.records, s'.records, t, o);
    }
  }

  /** A step confined to one object and to a source only that object uses. */
  lemma LocalStep(s: State, s': State, t: ObjectId, source: nat)
    requires Inv(s) && Touches(s, s', t, source) && ObjOk(s', t) && s'.retries == s.retries
    requires FreeFor(s, s', t, source)
    requires NotRetrying(s, t) && NotRetrying(s', t)
    requires SourcesApart(s') && ResultsOk(s')
    ensures Inv(s')
  {
    hide AllOk, ObjOk, Touches, SourcesApart, RetriesOk, ResultsOk, Uses;
    OthersOk(s, s', t, source);
    RetriesKept(s, s', t, source);
  }

  lemma InvParts(s: State)
    requires Inv(s)
    ensures AllOk(s) && SourcesApart(s) && RetriesOk(s) && ResultsOk(s)
    ensures forall o :: o in s.parents ==> ObjOk(s, o)
    ensures Closed(s)
  {
  }

  lemma OnlyUser(s: State, t: ObjectId, source: nat)
    requires SourcesApart(s) && Uses(s, t, source)
    ensures forall u :: u in s.parents && u != t ==> !Uses(s, u, source)
  {
    hide Uses;
  }

  /** A step that moves no one between places and adds no result. */
  lemma QuietStep(s: State, s': State, t: ObjectId, source: nat)
    requires Inv(s) && Touches(s, s', t, source) && ObjOk(s', t) && s'.retries == s.retries
    requires Uses(s, t, source) && Shrinks(s, s') && NotRetrying(s, t) && NotRetrying(s', t)
    requires s'.parents == s.parents && s'.ready == s.ready && s'.refused == s.refused
    ensures Inv(s')
  {
    hide ObjOk, Touches, SourcesApart, RetriesOk, Uses, Shrinks, AllOk;
    InvParts(s);
    OnlyUser(s, t, source);
    ShrinkKeepsApart(s, s');
    ResultsKept(s, s');
    LocalStep(s, s', t, source);
  }

  lemma ResultsKept(s: State, s': State)
    requires ResultsOk(s) && s'.parents == s.parents && s'.ready == s.ready && s'.refused == s.refused
    ensures ResultsOk(s')
  {
  }

  lemma InCreation(s: State, t: ObjectId)
    requires Inv(s) && t in s.creations
    ensures t in s.parents && ObjOk(s, t) && Uses(s, t, s.creations[t].binding.source) && NotRetrying(s, t)
  {
    assert t in s.parents && ObjOk(s, t);
  }

  lemma InFinal(s: State, t: ObjectId)
    requires Inv(s) && t in s.finals
    ensures t in s.parents && t in s.records && ObjOk(s, t) && NotRetrying(s, t)
    ensures s.finals[t].binding == s.records[t].binding
    ensures t !in s.gone ==> Uses(s, t, s.finals[t].binding.source)
  {
    assert t in s.parents && ObjOk(s, t);
  }

  lemma InLive(s: State, t: ObjectId)
    requires Inv(s) && t in s.records && Live(s.records[t].state)
    ensures t in s.parents && ObjOk(s, t) && NotRetrying(s, t) && Uses(s, t, s.records[t].binding.source)
  {
    assert t in s.parents && ObjOk(s, t);
  }

  // ----- The quiet steps -----

  /** What one step must show about its own object. */
  ghost predicate Moved(s: State, s': State, t: ObjectId, source: nat) {
    && t in s'.parents && ObjOk(s', t) && Touches(s, s', t, source) && NotRetrying(s', t)
  }

  ghost predicate QuietMove(s: State, s': State, t: ObjectId, source: nat) {
    && Moved(s, s', t, source) && Shrinks(s, s')
    && s'.retries == s.retries && s'.parents == s.parents && s'.ready == s.ready && s'.refused == s.refused
  }

  lemma QuietMoveKeeps(s: State, s': State, t: ObjectId, source: nat)
    requires Inv(s) && QuietMove(s, s', t, source) && Uses(s, t, source) && NotRetrying(s, t)
    ensures Inv(s')
  {
    hide Inv, ObjOk, Touches, Uses, Shrinks;
    QuietStep(s, s', t, source);
  }

  lemma CommitTypedMoves(s: State, t: ObjectId)
    requires t in s.parents && ObjOk(s, t) && Enabled(s, CommitTyped(t))
    ensures Asserts(s, CommitTyped(t))
    ensures QuietMove(s, DoCommitTyped(s, t), t, s.creations[t].binding.source)
  {
    hide InReady, InRefused;
    var s' := DoCommitTyped(s, t);
    assert s'.records - {t} == s.records - {t} && s'.creations - {t} == s.creations - {t};
    SameResults(s, s', t);
  }

  /** Unchanged result lists say the same about everyone. */
  lemma SameResults(s: State, s': State, t: ObjectId)
    requires s'.ready == s.ready && s'.refused == s.refused
    ensures (InReady(s, t) <==> InReady(s', t)) && (InRefused(s, t) <==> InRefused(s', t))
  {
  }

  lemma StepCommitTyped(s: State, t: ObjectId)
    requires Inv(s) && Enabled(s, CommitTyped(t))
    ensures Asserts(s, CommitTyped(t)) && Inv(DoCommitTyped(s, t))
  {
    hide Inv, ObjOk, Uses, QuietMove, NotRetrying;
    InCreation(s, t);
    CommitTypedMoves(s, t);
    QuietMoveKeeps(s, DoCommitTyped(s, t), t, s.creations[t].binding.source);
  }

  lemma CommitPlatformMoves(s: State, t: ObjectId)
    requires t in s.parents && ObjOk(s, t) && Enabled(s, CommitPlatform(t))
    ensures Asserts(s, CommitPlatform(t))
    ensures QuietMove(s, DoCommitPlatform(s, t), t, s.creations[t].binding.source)
  {
    hide InReady, InRefused;
    var s' := DoCommitPlatform(s, t);
    assert s'.sources - {s.creations[t].binding.source} == s.sources - {s.creations[t].binding.source};
    SameResults(s, s', t);
  }

  lemma StepCommitPlatform(s: State, t: ObjectId)
    requires Inv(s) && Enabled(s, CommitPlatform(t))
    ensures Asserts(s, CommitPlatform(t)) && Inv(DoCommitPlatform(s, t))
  {
    hide Inv, ObjOk, Uses, QuietMove, NotRetrying;
    InCreation(s, t);
    CommitPlatformMoves(s, t);
    QuietMoveKeeps(s, DoCommitPlatform(s, t), t, s.creations[t].binding.source);
  }

  lemma DeliverMoves(s: State, b: Binding, t: ObjectId)
    requires t in s.parents && ObjOk(s, t) && t in s.records && Reaches(s.records[t], b)
    ensures QuietMove(s, DoDeliver(s, b, Some(t)), t, b.source)
  {
    hide InReady, InRefused;
    var s' := DoDeliver(s, b, Some(t));
    assert s'.sources - {b.source} == s.sources - {b.source};
    assert s'.records - {t} == s.records - {t};
    SameResults(s, s', t);
  }

  /** A source that no live record answers for, if armed, is used by nobody. */
  lemma ArmedHasUser(s: State, b: Binding, u: ObjectId)
    requires u in s.parents && ObjOk(s, u) && Uses(s, u, b.source) && ExactIn(s.domain, s.sources, b, SrcArmed)
    ensures u in s.records && Reaches(s.records[u], b)
  {
    hide InReady, InRefused;
  }

  lemma StepDeliver(s: State, b: Binding, target: Option<ObjectId>)
    requires Inv(s) && Enabled(s, DeliverStep(b, target))
    ensures Inv(DoDeliver(s, b, target))
  {
    hide Inv, ObjOk, Uses, QuietMove, NotRetrying;
    var s' := DoDeliver(s, b, target);
    if target.Some? {
      InLive(s, target.value);
      DeliverMoves(s, b, target.value);
      QuietMoveKeeps(s, s', target.value, b.source);
    } else if ExactIn(s.domain, s.sources, b, SrcArmed) {
      InvParts(s);
      forall u | u in s.parents ensures !Uses(s, u, b.source) {
        if Uses(s, u, b.source) { ArmedHasUser(s, b, u); }
      }
      IdleSourceKeeps(s, s', b.source);
    } else {
      assert s'.sources == s.sources;
      assert s' == s;
    }
  }

  lemma IdleSourceKeeps(s: State, s': State, source: nat)
    requires Inv(s) && (forall u :: u in s.parents ==> !Uses(s, u, source))
    requires s' == s.(sources := s'.sources) && s'.sources - {source} == s.sources - {source}
    ensures Inv(s')
  {
    hide ObjOk, SameObject, InReady, InRefused, OneRecordPerSource;
    forall u | u in s.parents ensures ObjOk(s', u) {
      IdleSourceSame(s, s', source, u);
      KeepOk(s, s', u);
    }
    assert forall o, src :: Uses(s', o, src) == Uses(s, o, src);
    forall w | w in s'.retries ensures RetryOk(s', w) { assert RetryOk(s, w); }
  }

  lemma IdleSourceSame(s: State, s': State, source: nat, u: ObjectId)
    requires u in s.parents && ObjOk(s, u) && !Uses(s, u, source)
    requires s' == s.(sources := s'.sources) && s'.sources - {source} == s.sources - {source}
    ensures SameObject(s, s', u)
  {
    hide InReady, InRefused, FinalOk, PlaceOk, FinalizingOk;
    SameResults(s, s', u);
    if u in s.records && u !in s.gone { MapSame(s.sources, s'.sources, source, s.records[u].binding.source); }
    if u in s.creations { MapSame(s.sources, s'.sources, source, s.creations[u].binding.source); }
  }

  lemma PrepareMoves(s: State, t: ObjectId)
    requires t in s.parents && ObjOk(s, t) && Enabled(s, PrepareStep(t))
    ensures QuietMove(s, DoPrepare(s, t), t, s.records[t].binding.source)
  {
    hide InReady, InRefused;
    var s' := DoPrepare(s, t);
    assert s'.records - {t} == s.records - {t} && s'.acks - {t} == s.acks - {t};
    SameResults(s, s', t);
  }

  lemma StepPrepare(s: State, t: ObjectId)
    requires Inv(s) && Enabled(s, PrepareStep(t))
    ensures Inv(DoPrepare(s, t))
  {
    hide Inv, ObjOk, Uses, QuietMove, NotRetrying;
    if PrepareAck(s.records[t].state).Some? {
      InLive(s, t);
      PrepareMoves(s, t);
      QuietMoveKeeps(s, DoPrepare(s, t), t, s.records[t].binding.source);
    }
  }

  lemma AckIsLive(s: State, t: ObjectId)
    requires Inv(s) && t in s.acks
    ensures t in s.records && s.records[t].state.AckPrepared?
  {
    assert t in s.parents && ObjOk(s, t);
  }

  /** A prepared acknowledgement always finds its source masked. */
  lemma AckFindsMasked(s: State, t: ObjectId)
    requires t in s.parents && ObjOk(s, t) && t in s.acks
    ensures t in s.records && s.records[t].state.AckPrepared? && Holds(s, s.records[t].binding, SrcMasked)
    ensures PlatformAccepts(s, t)
  {
    hide InReady, InRefused;
  }

  lemma CompleteMoves(s: State, t: ObjectId)
    requires t in s.parents && ObjOk(s, t) && t in s.acks && t in s.records && s.records[t].state.AckPrepared?
    ensures QuietMove(s, DoComplete(s, t), t, s.records[t].binding.source)
  {
    hide InReady, InRefused;
    AckFindsMasked(s, t);
    var s' := DoComplete(s, t);
    assert s'.records - {t} == s.records - {t} && s'.acks - {t} == s.acks - {t};
    assert s'.sources - {s.records[t].binding.source} == s.sources - {s.records[t].binding.source};
    SameResults(s, s', t);
  }

  lemma StepComplete(s: State, t: ObjectId)
    requires Inv(s) && Enabled(s, CompleteStep(t))
    ensures Asserts(s, CompleteStep(t)) && Inv(DoComplete(s, t))
  {
    hide Inv, ObjOk, Uses, QuietMove, NotRetrying, DoComplete;
    AckIsLive(s, t);
    InLive(s, t);
    CompleteMoves(s, t);
    QuietMoveKeeps(s, DoComplete(s, t), t, s.records[t].binding.source);
  }

  lemma LookUpMoves(s: State, t: ObjectId)
    requires t in s.parents && ObjOk(s, t) && Enabled(s, LookUp(t))
    ensures Asserts(s, LookUp(t))
    ensures QuietMove(s, DoLookUp(s, t), t, s.records[t].binding.source)
  {
    hide InReady, InRefused;
    var s' := DoLookUp(s, t);
    assert s'.finals - {t} == s.finals - {t} && s'.minted - {t} == s.minted - {t};
    SameResults(s, s', t);
  }

  lemma RecordKnown(s: State, t: ObjectId)
    requires Inv(s) && t in s.records
    ensures t in s.parents && ObjOk(s, t)
  {
  }

  lemma StepLookUp(s: State, t: ObjectId)
    requires Inv(s) && Enabled(s, LookUp(t))
    ensures Asserts(s, LookUp(t)) && Inv(DoLookUp(s, t))
  {
    hide Inv, ObjOk, Uses, QuietMove, NotRetrying;
    RecordKnown(s, t);
    LookUpMoves(s, t);
    InLive(s, t);
    QuietMoveKeeps(s, DoLookUp(s, t), t, s.records[t].binding.source);
  }

  lemma QuarantineMoves(s: State, t: ObjectId)
    requires t in s.parents && ObjOk(s, t) && Enabled(s, Quarantine(t))
    ensures Asserts(s, Quarantine(t)) && t !in s.gone
    ensures QuietMove(s, DoQuarantine(s, t), t, s.finals[t].binding.source)
  {
    hide InReady, InRefused;
    assert Holds(s, s.finals[t].binding, SrcMasked) || Holds(s, s.finals[t].binding, SrcArmed);
    var s' := DoQuarantine(s, t);
    assert s'.finals - {t} == s.finals - {t};
    assert s'.sources - {s.finals[t].binding.source} == s.sources - {s.finals[t].binding.source};
    SameResults(s, s', t);
  }

  lemma StepQuarantine(s: State, t: ObjectId)
    requires Inv(s) && Enabled(s, Quarantine(t))
    ensures Asserts(s, Quarantine(t)) && Inv(DoQuarantine(s, t))
  {
    hide Inv, ObjOk, Uses, QuietMove, NotRetrying;
    InFinal(s, t);
    QuarantineMoves(s, t);
    QuietMoveKeeps(s, DoQuarantine(s, t), t, s.finals[t].binding.source);
  }

  lemma MarkMoves(s: State, t: ObjectId)
    requires t in s.parents && ObjOk(s, t) && Enabled(s, Mark(t))
    ensures Asserts(s, Mark(t)) && t !in s.gone
    ensures QuietMove(s, DoMark(s, t), t, s.finals[t].binding.source)
  {
    hide InReady, InRefused;
    var s' := DoMark(s, t);
    assert s'.finals - {t} == s.finals - {t} && s'.records - {t} == s.records - {t};
    SameResults(s, s', t);
  }

  lemma StepMark(s: State, t: ObjectId)
    requires Inv(s) && Enabled(s, Mark(t))
    ensures Asserts(s, Mark(t)) && Inv(DoMark(s, t))
  {
    hide Inv, ObjOk, Uses, QuietMove, NotRetrying;
    InFinal(s, t);
    MarkMoves(s, t);
    QuietMoveKeeps(s, DoMark(s, t), t, s.finals[t].binding.source);
  }

  lemma RetireMoves(s: State, t: ObjectId, complete: bool)
    requires t in s.parents && ObjOk(s, t) && Enabled(s, Retire(t, complete))
    ensures Asserts(s, Retire(t, complete)) && t !in s.gone
    ensures QuietMove(s, DoRetire(s, t, complete), t, s.finals[t].binding.source)
  {
    hide InReady, InRefused;
    var s' := DoRetire(s, t, complete);
    assert s'.finals - {t} == s.finals - {t} && s'.gone - {t} == s.gone - {t};
    assert s'.sources - {s.finals[t].binding.source} == s.sources - {s.finals[t].binding.source};
    SameResults(s, s', t);
  }

  lemma StepRetire(s: State, t: ObjectId, complete: bool)
    requires Inv(s) && Enabled(s, Retire(t, complete))
    ensures Asserts(s, Retire(t, complete)) && Inv(DoRetire(s, t, complete))
  {
    hide Inv, ObjOk, Uses, QuietMove, NotRetrying;
    InFinal(s, t);
    RetireMoves(s, t, complete);
    QuietMoveKeeps(s, DoRetire(s, t, complete), t, s.finals[t].binding.source);
  }

  lemma ParkMoves(s: State, t: ObjectId)
    requires t in s.parents && ObjOk(s, t) && Enabled(s, Settle(t)) && s.finals[t].stage == Retired(false)
    ensures Asserts(s, Settle(t)) && t !in s.gone
    ensures QuietMove(s, DoSettle(s, t), t, s.finals[t].binding.source)
  {
    hide InReady, InRefused;
    var s' := DoSettle(s, t);
    assert s'.finals - {t} == s.finals - {t} && s'.records - {t} == s.records - {t};
    SameResults(s, s', t);
  }

  // ----- Steps that end an attempt -----

  lemma ReadyGrows(s: State, s': State, t: ObjectId, pin: Pin)
    requires ResultsOk(s) && t in s.parents && !InReady(s, t) && s.parents[t] == pin
    requires s'.ready == s.ready + [ReadyResult(FinalRelease(t), pin)] && s'.refused == s.refused && s'.parents == s.parents
    ensures ResultsOk(s') && InReady(s', t)
  {
    assert s'.ready[|s.ready|].release.id == t;
    forall i, j | 0 <= i < j < |s'.ready| ensures s'.ready[i].release.id != s'.ready[j].release.id {
      assert s.ready[i].release.id != t;
    }
  }

  lemma RefusedGrows(s: State, s': State, t: ObjectId, pin: Pin)
    requires ResultsOk(s) && t in s.parents && !InRefused(s, t) && s.parents[t] == pin
    requires s'.refused == s.refused + [Refusal(t, pin)] && s'.ready == s.ready && s'.parents == s.parents
    ensures ResultsOk(s') && InRefused(s', t)
  {
    assert s'.refused[|s.refused|].id == t;
    forall i, j | 0 <= i < j < |s'.refused| ensures s'.refused[i].id != s'.refused[j].id {
      assert s.refused[i].id != t;
    }
  }

  lemma TakeMoves(s: State, t: ObjectId)
    requires t in s.parents && ObjOk(s, t) && Enabled(s, Settle(t)) && s.finals[t].stage == Retired(true)
    requires InReady(DoSettle(s, t), t)
    ensures Asserts(s, Settle(t))
    ensures Moved(s, DoSettle(s, t), t, s.finals[t].binding.source) && Shrinks(s, DoSettle(s, t))
  {
    hide InReady, InRefused;
    var s' := DoSettle(s, t);
    assert s'.finals - {t} == s.finals - {t} && s'.records - {t} == s.records - {t};
    assert s.ready == s'.ready[..|s'.ready| - 1];
    RefusedKept(s, s', t);
  }

  lemma RefusedKept(s: State, s': State, t: ObjectId)
    requires s'.refused == s.refused
    ensures InRefused(s, t) <==> InRefused(s', t)
  {
  }

  lemma ReadyKept(s: State, s': State, t: ObjectId)
    requires s'.ready == s.ready
    ensures InReady(s, t) <==> InReady(s', t)
  {
  }

  lemma NotReadyYet(s: State, t: ObjectId)
    requires t in s.parents && ObjOk(s, t) && (t in s.records || t in s.creations)
    ensures !InReady(s, t) && !InRefused(s, t)
    ensures t in s.records ==> s.records[t].parent == s.parents[t]
    ensures t in s.creations ==> s.creations[t].parent == s.parents[t]
  {
    hide InReady, InRefused;
  }

  lemma StepSettle(s: State, t: ObjectId)
    requires Inv(s) && Enabled(s, Settle(t))
    ensures Asserts(s, Settle(t)) && Inv(DoSettle(s, t))
  {
    hide Inv, ObjOk, Uses, QuietMove, NotRetrying, InReady, InRefused, ResultsOk, SourcesApart, Shrinks, Touches, AllOk, RetriesOk;
    InFinal(s, t);
    InvParts(s);
    var s' := DoSettle(s, t);
    if s.finals[t].stage == Retired(true) {
      NotReadyYet(s, t);
      ReadyGrows(s, s', t, s.records[t].parent);
      TakeMoves(s, t);
      ShrinkKeepsApart(s, s');
      LocalStep(s, s', t, s.finals[t].binding.source);
    } else {
      ParkMoves(s, t);
      QuietMoveKeeps(s, s', t, s.finals[t].binding.source);
    }
  }

  // ----- Creation -----

  lemma UserIsBound(s: State, u: ObjectId, source: nat)
    requires u in s.parents && ObjOk(s, u) && Uses(s, u, source)
    ensures source in s.sources
  {
    hide InReady, InRefused;
  }

  lemma UnboundHasNoUser(s: State, source: nat)
    requires Inv(s) && source !in s.sources
    ensures forall u :: u in s.parents ==> !Uses(s, u, source)
    ensures forall u :: Uses(s, u, source) ==> u in s.parents
  {
    hide Inv, ObjOk, Uses;
    InvParts(s);
    forall u | u in s.parents ensures !Uses(s, u, source) {
      if Uses(s, u, source) { UserIsBound(s, u, source); }
    }
    UserIsKnown(s, source);
  }

  lemma UserIsKnown(s: State, source: nat)
    requires Inv(s)
    ensures forall u :: Uses(s, u, source) ==> u in s.parents
  {
  }

  lemma NewIsUnknown(s: State, t: ObjectId)
    requires Inv(s) && t !in s.parents
    ensures t !in s.records && t !in s.creations && t !in s.finals && t !in s.acks && t !in s.minted && t !in s.gone
    ensures !InReady(s, t) && !InRefused(s, t)
  {
  }

  lemma ParentsGrow(s: State, s': State, t: ObjectId, pin: Pin)
    requires ResultsOk(s) && t !in s.parents && pin !in s.parents.Values
    requires s'.parents == s.parents[t := pin] && s'.ready == s.ready && s'.refused == s.refused
    ensures ResultsOk(s')
  {
  }

  lemma AdmitMoves(s: State, t: ObjectId, source: nat, generation: nat, parent: Pin)
    requires !ReservedSource(source) && source !in s.sources && t !in s.parents && !InReady(s, t) && !InRefused(s, t)
    requires t !in s.records && t !in s.creations && t !in s.finals && t !in s.acks && t !in s.minted && t !in s.gone
    ensures Moved(s, DoReserve(s, t, source, generation, true, parent), t, source)
  {
    hide InReady, InRefused;
    var s' := DoReserve(s, t, source, generation, true, parent);
    assert s'.sources - {source} == s.sources - {source} && s'.creations - {t} == s.creations - {t};
    SameResults(s, s', t);
  }

  lemma AdmitApart(s: State, s': State, t: ObjectId, source: nat)
    requires SourcesApart(s) && s'.records == s.records && s'.gone == s.gone && t !in s.records && t !in s.creations
    requires forall u :: Uses(s, u, source) ==> false
    requires t in s'.creations && s'.creations == s.creations[t := s'.creations[t]] && s'.creations[t].binding.source == source
    ensures SourcesApart(s')
  {
    assert forall o, x :: Uses(s', o, x) ==> Uses(s, o, x) || (o == t && x == source);
    hide Uses;
  }

  lemma StepReserve(s: State, t: ObjectId, source: nat, generation: nat, room: bool, parent: Pin)
    requires Inv(s) && Enabled(s, Reserve(t, source, generation, room, parent))
    ensures Inv(DoReserve(s, t, source, generation, room, parent))
  {
    hide Inv, ObjOk, Uses, InReady, InRefused, ResultsOk, SourcesApart, Touches, AllOk, RetriesOk;
    NewIsUnknown(s, t);
    InvParts(s);
    var s' := DoReserve(s, t, source, generation, room, parent);
    if !ReservedSource(source) && source !in s.sources && room {
      UnboundHasNoUser(s, source);
      AdmitMoves(s, t, source, generation, parent);
      AdmitApart(s, s', t, source);
      ParentsGrow(s, s', t, parent);
      LocalStep(s, s', t, source);
    } else {
      var known := s.(parents := s.parents[t := parent]);
      ParentsGrow(s, known, t, parent);
      ReadyKept(s, known, t);
      RefusedKept(s, known, t);
      RefusedGrows(known, s', t, parent);
      TurnAwayMoves(s, s', t, source, parent);
      SameUsesApart(s, s');
      LocalStep(s, s', t, source);
    }
  }

  lemma SameUsesApart(s: State, s': State)
    requires SourcesApart(s) && s'.records == s.records && s'.gone == s.gone && s'.creations == s.creations
    ensures SourcesApart(s')
  {
    assert forall o, x :: Uses(s', o, x) == Uses(s, o, x);
    hide Uses;
  }

  lemma TurnAwayMoves(s: State, s': State, t: ObjectId, source: nat, parent: Pin)
    requires t !in s.parents && !InReady(s, t) && InRefused(s', t)
    requires t !in s.records && t !in s.creations && t !in s.finals && t !in s.acks && t !in s.minted && t !in s.gone
    requires s' == Refuse(s.(parents := s.parents[t := parent]), t, parent)
    ensures Moved(s, s', t, source)
  {
    hide InReady, InRefused;
    ReadyKept(s, s', t);
    assert s.refused == s'.refused[..|s'.refused| - 1];
  }

  lemma BindMoves(s: State, s': State, t: ObjectId)
    requires t in s.parents && ObjOk(s, t) && CreatingAt(s, t, AtReserved)
    requires s' == s.(records := s.records[t := Fresh(t, s.creations[t].binding, s.creations[t].parent)],
                      creations := s.creations[t := s.creations[t].(stage := AtBound)])
    ensures Moved(s, s', t, s.creations[t].binding.source)
  {
    hide InReady, InRefused, LiveOk, FinalizingOk;
    assert s'.records - {t} == s.records - {t} && s'.creations - {t} == s.creations - {t};
    SameResults(s, s', t);
  }

  lemma BindApart(s: State, s': State, t: ObjectId)
    requires SourcesApart(s) && CreatingAt(s, t, AtReserved) && t !in s.records && !Clash(s.records, t, s.creations[t].binding)
    requires s' == s.(records := s.records[t := Fresh(t, s.creations[t].binding, s.creations[t].parent)],
                      creations := s.creations[t := s.creations[t].(stage := AtBound)])
    ensures SourcesApart(s')
  {
    assert forall o, x :: Uses(s', o, x) ==> Uses(s, o, x);
    hide Uses;
    assert forall o :: o in s.records ==> !Conflicts(s.records[o], t, s.creations[t].binding);
  }

  lemma UnbindMoves(s: State, s': State, t: ObjectId)
    requires t in s.parents && ObjOk(s, t) && CreatingAt(s, t, AtReserved) && InRefused(s', t)
    requires s' == Refuse(s.(sources := s.sources - {s.creations[t].binding.source}, creations := s.creations - {t}), t, s.creations[t].parent)
    ensures Moved(s, s', t, s.creations[t].binding.source) && Shrinks(s, s')
  {
    hide InReady, InRefused;
    assert s.refused == s'.refused[..|s'.refused| - 1];
    assert s'.sources - {s.creations[t].binding.source} == s.sources - {s.creations[t].binding.source};
    ReadyKept(s, s', t);
  }

  lemma ReservationStands(s: State, t: ObjectId)
    requires t in s.parents && ObjOk(s, t) && CreatingAt(s, t, AtReserved)
    ensures Holds(s, s.creations[t].binding, SrcReserved) && t !in s.records
  {
    hide InReady, InRefused;
  }

  lemma StepBind(s: State, t: ObjectId, room: bool)
    requires Inv(s) && Enabled(s, InterruptMachine.Step.Bind(t, room))
    ensures Asserts(s, InterruptMachine.Step.Bind(t, room)) && Inv(DoBind(s, t, room))
  {
    hide Inv, ObjOk, Uses, InReady, InRefused, ResultsOk, SourcesApart, Touches, AllOk, RetriesOk, Clash, Shrinks;
    InCreation(s, t);
    InvParts(s);
    ReservationStands(s, t);
    OnlyUser(s, t, s.creations[t].binding.source);
    NotReadyYet(s, t);
    var s' := DoBind(s, t, room);
    if !room || Clash(s.records, t, s.creations[t].binding) || |s.records| >= s.capacity {
      RefusedGrows(s, s', t, s.creations[t].parent);
      UnbindMoves(s, s', t);
      ShrinkKeepsApart(s, s');
    } else {
      BindMoves(s, s', t);
      BindApart(s, s', t);
      ResultsKept(s, s');
    }
    LocalStep(s, s', t, s.creations[t].binding.source);
  }

  // ----- Retries -----

  /** A step of a retry: its object moves, and the retries stay sound. */
  lemma RetryStep(s: State, s': State, t: ObjectId, source: nat)
    requires Inv(s) && Touches(s, s', t, source) && ObjOk(s', t) && FreeFor(s, s', t, source)
    requires Shrinks(s, s') && RetriesOk(s') && ResultsOk(s')
    ensures Inv(s')
  {
    hide AllOk, ObjOk, Touches, SourcesApart, RetriesOk, ResultsOk, FreeFor, Shrinks;
    OthersOk(s, s', t, source);
    ShrinkKeepsApart(s, s');
  }

  lemma RetryBeginMoves(s: State, worker: Worker, t: ObjectId)
    requires t in s.parents && ObjOk(s, t) && Enabled(s, RetryBegin(worker, t))
    ensures var s' := DoRetryBegin(s, worker, t);
            t in s'.parents && ObjOk(s', t) && Touches(s, s', t, s.records[t].binding.source) && Shrinks(s, s')
    ensures t !in s.gone
  {
    hide InReady, InRefused;
    var s' := DoRetryBegin(s, worker, t);
    assert s'.records - {t} == s.records - {t};
    SameResults(s, s', t);
  }

  lemma RetryBeginRetries(s: State, worker: Worker, t: ObjectId)
    requires RetriesOk(s) && Enabled(s, RetryBegin(worker, t)) && t !in s.gone
    ensures RetriesOk(DoRetryBegin(s, worker, t))
  {
    var s' := DoRetryBegin(s, worker, t);
    forall w | w in s'.retries ensures RetryOk(s', w) {
      if w != worker { assert RetryOk(s, w); }
    }
    forall o | o in s'.records && s'.records[o].retrying ensures exists w :: w in s'.retries && s'.retries[w].id == o {
      if o == t {
        assert s'.retries[worker].id == t;
      } else {
        var w :| w in s.retries && s.retries[w].id == o;
        assert s'.retries[w].id == o;
      }
    }
    forall w, v | w in s'.retries && v in s'.retries && s'.retries[w].id == s'.retries[v].id ensures w == v {
      if w != worker { assert RetryOk(s, w); }
      if v != worker { assert RetryOk(s, v); }
    }
  }

  lemma StepRetryBegin(s: State, worker: Worker, t: ObjectId)
    requires Inv(s) && Enabled(s, RetryBegin(worker, t))
    ensures Inv(DoRetryBegin(s, worker, t))
  {
    hide Inv, AllOk, ObjOk, Touches, SourcesApart, RetriesOk, ResultsOk, Shrinks;
    RecordKnown(s, t);
    InvParts(s);
    var s' := DoRetryBegin(s, worker, t);
    RetryBeginMoves(s, worker, t);
    RetryBeginRetries(s, worker, t);
    ResultsKept(s, s');
    RetryStep(s, s', t, s.records[t].binding.source);
  }

  lemma InRetry(s: State, worker: Worker)
    requires Inv(s) && worker in s.retries
    ensures RetryOk(s, worker) && s.retries[worker].id in s.parents && ObjOk(s, s.retries[worker].id)
  {
    assert RetryOk(s, worker);
  }

  lemma RetryRetireMoves(s: State, worker: Worker, complete: bool)
    requires worker in s.retries && RetryOk(s, worker) && s.retries[worker].answer.None?
    requires s.retries[worker].id in s.parents && ObjOk(s, s.retries[worker].id)
    ensures ExactIn(s.domain, s.sources, s.retries[worker].binding, SrcMasked)
    ensures var s', t := DoRetryRetire(s, worker, complete), s.retries[worker].id;
            t in s'.parents && ObjOk(s', t) && Touches(s, s', t, s.retries[worker].binding.source) && Shrinks(s, s')
    ensures Uses(s, s.retries[worker].id, s.retries[worker].binding.source)
  {
    hide InReady, InRefused;
    var s', t, src := DoRetryRetire(s, worker, complete), s.retries[worker].id, s.retries[worker].binding.source;
    assert s'.gone - {t} == s.gone - {t} && s'.sources - {src} == s.sources - {src};
    SameResults(s, s', t);
  }

  lemma RetryRetireRetries(s: State, worker: Worker, complete: bool)
    requires RetriesOk(s) && Enabled(s, RetryRetire(worker, complete))
    ensures RetriesOk(DoRetryRetire(s, worker, complete))
  {
    var s' := DoRetryRetire(s, worker, complete);
    assert RetryOk(s, worker);
    forall w | w in s'.retries ensures RetryOk(s', w) { assert RetryOk(s, w); }
    forall o | o in s'.records && s'.records[o].retrying ensures exists w :: w in s'.retries && s'.retries[w].id == o {
      var w :| w in s.retries && s.retries[w].id == o;
      assert s'.retries[w].id == o;
    }
  }

  lemma StepRetryRetire(s: State, worker: Worker, complete: bool)
    requires Inv(s) && Enabled(s, RetryRetire(worker, complete))
    ensures Asserts(s, RetryRetire(worker, complete)) && Inv(DoRetryRetire(s, worker, complete))
  {
    hide Inv, AllOk, ObjOk, Touches, SourcesApart, RetriesOk, ResultsOk, Shrinks, RetryOk, Uses;
    InRetry(s, worker);
    InvParts(s);
    var s', t, src := DoRetryRetire(s, worker, complete), s.retries[worker].id, s.retries[worker].binding.source;
    RetryRetireMoves(s, worker, complete);
    RetryRetireRetries(s, worker, complete);
    ResultsKept(s, s');
    OnlyUser(s, t, src);
    RetryStep(s, s', t, src);
  }

  lemma RetryBackMoves(s: State, worker: Worker)
    requires worker in s.retries && RetryOk(s, worker) && s.retries[worker].answer.Some? && s.retries[worker].answer != Some(true)
    requires s.retries[worker].id in s.parents && ObjOk(s, s.retries[worker].id)
    ensures var s', t := DoRetryEnd(s, worker), s.retries[worker].id;
            t in s'.parents && ObjOk(s', t) && Touches(s, s', t, s.retries[worker].binding.source) && Shrinks(s, s')
  {
    hide InReady, InRefused;
    var s', t := DoRetryEnd(s, worker), s.retries[worker].id;
    assert s'.records - {t} == s.records - {t};
    SameResults(s, s', t);
  }

  lemma RetryOutMoves(s: State, worker: Worker)
    requires worker in s.retries && RetryOk(s, worker) && s.retries[worker].answer == Some(true)
    requires s.retries[worker].id in s.parents && ObjOk(s, s.retries[worker].id)
    requires InReady(DoRetryEnd(s, worker), s.retries[worker].id)
    ensures var s', t := DoRetryEnd(s, worker), s.retries[worker].id;
            t in s'.parents && ObjOk(s', t) && Touches(s, s', t, s.retries[worker].binding.source) && Shrinks(s, s')
  {
    hide InReady, InRefused;
    var s', t := DoRetryEnd(s, worker), s.retries[worker].id;
    assert s'.records - {t} == s.records - {t};
    assert s.ready == s'.ready[..|s'.ready| - 1];
    RefusedKept(s, s', t);
  }

  lemma RetryEndKeeps(s: State, worker: Worker, w: Worker)
    requires RetriesOk(s) && worker in s.retries && s.retries[worker].answer.Some? && RetryOk(s, worker)
    requires w in s.retries && w != worker
    ensures RetryOk(DoRetryEnd(s, worker), w)
  {
    assert RetryOk(s, w);
  }

  lemma RetryEndRetries(s: State, worker: Worker)
    requires RetriesOk(s) && worker in s.retries && s.retries[worker].answer.Some? && RetryOk(s, worker)
    ensures RetriesOk(DoRetryEnd(s, worker))
  {
    var s' := DoRetryEnd(s, worker);
    forall w | w in s'.retries ensures RetryOk(s', w) { RetryEndKeeps(s, worker, w); }
    hide RetryOk;
    forall o | o in s'.records && s'.records[o].retrying ensures exists w :: w in s'.retries && s'.retries[w].id == o {
      var w :| w in s.retries && s.retries[w].id == o;
      assert s'.retries[w].id == o;
    }
  }

  /** The record a retry works on still holds its own release. */
  lemma RetryHoldsRelease(s: State, worker: Worker)
    requires worker in s.retries && RetryOk(s, worker)
    requires s.retries[worker].id in s.parents && ObjOk(s, s.retries[worker].id)
    ensures s.records[s.retries[worker].id].pendingRelease == Some(FinalRelease(s.retries[worker].id))
    ensures ExactRecord(s.records, s.retries[worker].id, s.retries[worker].binding)
  {
    hide InReady, InRefused;
  }

  lemma StepRetryEnd(s: State, worker: Worker)
    requires Inv(s) && Enabled(s, RetryEnd(worker))
    ensures Asserts(s, RetryEnd(worker)) && Inv(DoRetryEnd(s, worker))
  {
    hide Inv, AllOk, ObjOk, Touches, SourcesApart, RetriesOk, ResultsOk, Shrinks, InReady, InRefused;
    InRetry(s, worker);
    InvParts(s);
    RetryHoldsRelease(s, worker);
    var s', t, src := DoRetryEnd(s, worker), s.retries[worker].id, s.retries[worker].binding.source;
    RetryEndRetries(s, worker);
    if s.retries[worker].answer == Some(true) {
      NotReadyYet(s, t);
      ReadyGrows(s, s', t, s.records[t].parent);
      RetryOutMoves(s, worker);
    } else {
      RetryBackMoves(s, worker);
      ResultsKept(s, s');
    }
    RetryStep(s, s', t, src);
  }

  // ----- Every step -----

  /** No assertion of the kernel fires, and every step keeps the invariant. */
  lemma Preserved(s: State, step: InterruptMachine.Step)
    requires Inv(s) && Enabled(s, step)
    ensures Asserts(s, step) && Inv(Apply(s, step))
  {
    hide Inv, DoReserve, DoBind, DoCommitTyped, DoCommitPlatform, DoDeliver, DoPrepare, DoComplete, DoLookUp,
         DoQuarantine, DoMark, DoRetire, DoSettle, DoRetryBegin, DoRetryRetire, DoRetryEnd;
    match step
    case Reserve(id, source, generation, room, parent) => StepReserve(s, id, source, generation, room, parent);
    case Bind(id, room) => StepBind(s, id, room);
    case CommitTyped(id) => StepCommitTyped(s, id);
    case CommitPlatform(id) => StepCommitPlatform(s, id);
    case DeliverStep(binding, target) => StepDeliver(s, binding, target);
    case PrepareStep(id) => StepPrepare(s, id);
    case CompleteStep(id) => StepComplete(s, id);
    case LookUp(id) => StepLookUp(s, id);
    case Quarantine(id) => StepQuarantine(s, id);
    case Mark(id) => StepMark(s, id);
    case Retire(id, complete) => StepRetire(s, id, complete);
    case Settle(id) => StepSettle(s, id);
    case RetryBegin(worker, id) => StepRetryBegin(s, worker, id);
    case RetryRetire(worker, complete) => StepRetryRetire(s, worker, complete);
    case RetryEnd(worker) => StepRetryEnd(s, worker);
  }
}
