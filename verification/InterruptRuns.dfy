/** What every run of the interrupt machine guarantees. */
module InterruptRuns {
  import opened Wrappers
  import opened InterruptPlatform
  import opened InterruptState
  import opened InterruptAuthority
  import opened InterruptMachine
  import opened InterruptInvariant
  import opened InterruptPreservation

  lemma {:induction false} RunInv(states: seq<State>, steps: seq<InterruptMachine.Step>, n: nat)
    requires Run(states, steps) && n < |states|
    ensures Inv(states[n])
  {
    hide Inv, Enabled, Asserts, Apply, Initial;
    if n == 0 {
      InitialInv(states[0]);
    } else {
      RunInv(states, steps, n - 1);
      Preserved(states[n - 1], steps[n - 1]);
      RunStep(states, steps, n - 1);
    }
  }

  lemma RunStep(states: seq<State>, steps: seq<InterruptMachine.Step>, i: nat)
    requires Run(states, steps) && i < |steps|
    ensures Enabled(states[i], steps[i]) && Asserts(states[i], steps[i]) && states[i + 1] == Apply(states[i], steps[i])
  {
  }

  /**
   No commit, mask, finish, release or take assertion can fire: in a reachable state
   every step the callers can take meets the kernel's own expectations.
   */
  lemma NoAssertionFires(states: seq<State>, steps: seq<InterruptMachine.Step>, n: nat, step: InterruptMachine.Step)
    requires Run(states, steps) && n < |states| && Enabled(states[n], step)
    ensures Asserts(states[n], step)
  {
    hide Inv, Enabled, Asserts, Apply, Run;
    RunInv(states, steps, n);
    Preserved(states[n], step);
  }

  /** A published Interrupt that nobody is finalizing. */
  predicate Published(s: State, o: ObjectId) {
    o in s.records && Live(s.records[o].state) && o !in s.creations && o !in s.finals
  }

  /**
   The two tables agree: a published Interrupt is Armed exactly when its source is
   armed, and Pending or AckPrepared exactly when its source is masked, under the
   exact binding the record holds.
   */
  lemma TablesAgree(states: seq<State>, steps: seq<InterruptMachine.Step>, n: nat, o: ObjectId)
    requires Run(states, steps) && n < |states| && Published(states[n], o)
    ensures var s := states[n];
            var r := s.records[o];
            && Exact(s.domain, s.sources, r.binding)
            && (r.state.Armed? <==> s.sources[r.binding.source].state == SrcArmed)
            && (Signaled(r.state) <==> s.sources[r.binding.source].state == SrcMasked)
  {
    hide Run;
    RunInv(states, steps, n);
    RecordKnown(states[n], o);
  }

  /** A platform acknowledgement of a prepared transaction never fails. */
  lemma PlatformAcksNeverFail(states: seq<State>, steps: seq<InterruptMachine.Step>, n: nat, o: ObjectId)
    requires Run(states, steps) && n < |states| && o in states[n].acks
    ensures o in states[n].records && states[n].records[o].state.AckPrepared? && PlatformAccepts(states[n], o)
  {
    hide Inv, Run, ObjOk;
    RunInv(states, steps, n);
    AckIsLive(states[n], o);
    RecordKnown(states[n], o);
    AckFindsMasked(states[n], o);
  }

  /** At most one record per source, even while an old one waits to be taken out. */
  lemma OneLiveRecordPerSource(states: seq<State>, steps: seq<InterruptMachine.Step>, n: nat, o: ObjectId, q: ObjectId)
    requires Run(states, steps) && n < |states| && o in states[n].records && q in states[n].records && o != q
    ensures states[n].records[o].binding.source != states[n].records[q].binding.source
  {
    hide Run, AllOk, RetriesOk, ResultsOk;
    RunInv(states, steps, n);
  }

  /**
   While a record's source has not been released the source stays bound, so any
   attempt to reserve it is refused.
   */
  lemma SourceStaysBound(states: seq<State>, steps: seq<InterruptMachine.Step>, n: nat, o: ObjectId, step: InterruptMachine.Step)
    requires Run(states, steps) && n < |states| && o in states[n].records && o !in states[n].gone
    requires step.Reserve? && step.source == states[n].records[o].binding.source && Enabled(states[n], step)
    ensures Apply(states[n], step).sources == states[n].sources
    ensures InRefused(Apply(states[n], step), step.id)
  {
    hide Run, SourcesApart, RetriesOk, ResultsOk, FinalOk, PlaceOk;
    RunInv(states, steps, n);
    RecordKnown(states[n], o);
    UserIsBound(states[n], o, step.source);
    var s' := Apply(states[n], step);
    assert s'.refused[|states[n].refused|].id == step.id;
  }

  /** Where the release of a finalized object is. */
  predicate WithFinalizer(s: State, o: ObjectId) { o in s.finals }
  predicate WithRecord(s: State, o: ObjectId) { o in s.records && s.records[o].pendingRelease == Some(FinalRelease(o)) }

  /**
   Retirement is exactly once.  The final release of an object is with the call that
   is finalizing it, or parked in its record, or in one Ready result, never in two of
   them; and the Ready result carries the parent pin the object was created with.
   */
  lemma ReleaseInOnePlace(states: seq<State>, steps: seq<InterruptMachine.Step>, n: nat, o: ObjectId)
    requires Run(states, steps) && n < |states| && o in states[n].minted
    ensures var s := states[n];
            && (WithFinalizer(s, o) || WithRecord(s, o) || InReady(s, o))
            && !(WithFinalizer(s, o) && WithRecord(s, o))
            && !(WithFinalizer(s, o) && InReady(s, o))
            && !(WithRecord(s, o) && InReady(s, o))
            && (InReady(s, o) ==> o !in s.records)
  {
    hide Run, SourcesApart, RetriesOk, ResultsOk, InReady, InRefused;
    RunInv(states, steps, n);
    assert o in states[n].parents && ObjOk(states[n], o);
  }

  /** No object is handed out twice, and each result carries that object's own parent pin. */
  lemma ReadyExactlyOnce(states: seq<State>, steps: seq<InterruptMachine.Step>, n: nat, i: nat, j: nat)
    requires Run(states, steps) && n < |states| && i < j < |states[n].ready|
    ensures var s := states[n];
            && s.ready[i].release != s.ready[j].release && s.ready[i].parent != s.ready[j].parent
            && s.ready[i].release.id in s.parents && s.ready[i].parent == s.parents[s.ready[i].release.id]
  {
    hide Run, AllOk, RetriesOk, SourcesApart;
    RunInv(states, steps, n);
  }

  /** Every parent pin is held by its creation or record, or came back once by a refusal or a Ready result. */
  lemma ParentPinInOnePlace(states: seq<State>, steps: seq<InterruptMachine.Step>, n: nat, o: ObjectId)
    requires Run(states, steps) && n < |states| && o in states[n].parents
    ensures var s := states[n];
            && (o in s.records || CreatingAt(s, o, AtReserved) || InReady(s, o) || InRefused(s, o))
            && !(o in s.records && CreatingAt(s, o, AtReserved))
            && (InReady(s, o) || InRefused(s, o) ==> o !in s.records && o !in s.creations)
            && !(InReady(s, o) && InRefused(s, o))
            && (o in s.records ==> s.records[o].parent == s.parents[o])
            && (CreatingAt(s, o, AtReserved) ==> s.creations[o].parent == s.parents[o])
  {
    hide Run, SourcesApart, RetriesOk, ResultsOk, InReady, InRefused;
    RunInv(states, steps, n);
    assert ObjOk(states[n], o);
  }

  /** Two retries never work on the same record. */
  lemma OneRetryPerRecord(states: seq<State>, steps: seq<InterruptMachine.Step>, n: nat, w: Worker, v: Worker)
    requires Run(states, steps) && n < |states| && w in states[n].retries && v in states[n].retries && w != v
    ensures states[n].retries[w].id != states[n].retries[v].id
  {
    hide Run, AllOk, SourcesApart, ResultsOk;
    RunInv(states, steps, n);
  }

  /** A deferred record is never stranded: a retry may pick it up, or exactly one already has. */
  lemma DeferredIsRetryable(states: seq<State>, steps: seq<InterruptMachine.Step>, n: nat, o: ObjectId, w: Worker)
    requires Run(states, steps) && n < |states| && WithRecord(states[n], o) && w !in states[n].retries
    ensures || Enabled(states[n], RetryBegin(w, o))
            || exists v :: v in states[n].retries && states[n].retries[v].id == o
  {
    hide Run, SourcesApart, ResultsOk, InReady, InRefused;
    RunInv(states, steps, n);
    RecordKnown(states[n], o);
  }

  /** The object is past its last live state. */
  predicate Ended(s: State, o: ObjectId) {
    o in s.minted && o !in s.creations && (o in s.records ==> s.records[o].state.Finalizing?)
  }

  predicate OfRetirement(step: InterruptMachine.Step) {
    step.Quarantine? || step.Mark? || step.Retire? || step.Settle? || step.RetryBegin? || step.RetryRetire? || step.RetryEnd?
  }

  lemma RetirementStaysEnded(s: State, step: InterruptMachine.Step, o: ObjectId)
    requires OfRetirement(step) && Enabled(s, step) && Asserts(s, step) && Ended(s, o)
    ensures Ended(Apply(s, step), o)
  {
  }

  lemma UseStaysEnded(s: State, step: InterruptMachine.Step, o: ObjectId)
    requires !OfRetirement(step) && Closed(s) && Enabled(s, step) && Asserts(s, step) && Ended(s, o)
    ensures Ended(Apply(s, step), o)
  {
    hide Clash;
  }

  /** Once an object is Finalizing it stays so until it is taken out, and no delivery reaches it again. */
  lemma {:induction false} FinalizingIsForever(states: seq<State>, steps: seq<InterruptMachine.Step>, n: nat, m: nat, o: ObjectId)
    requires Run(states, steps) && n <= m < |states|
    requires o in states[n].records && states[n].records[o].state.Finalizing?
    ensures Ended(states[m], o)
    ensures m < |steps| && steps[m].DeliverStep? ==> steps[m].target != Some(o)
    decreases m
  {
    hide Inv, Apply, Asserts, Closed, Initial, ObjOk, Ended;
    RunInv(states, steps, n);
    if m == n {
      FinalizingHasEnded(states[n], o);
    } else {
      FinalizingIsForever(states, steps, n, m - 1, o);
      RunInv(states, steps, m - 1);
      InvParts(states[m - 1]);
      RunStep(states, steps, m - 1);
      if OfRetirement(steps[m - 1]) {
        RetirementStaysEnded(states[m - 1], steps[m - 1], o);
      } else {
        UseStaysEnded(states[m - 1], steps[m - 1], o);
      }
    }
    if m < |steps| && steps[m].DeliverStep? { NoDeliveryAfterEnd(states[m], o, steps[m].binding); }
  }

  lemma FinalizingHasEnded(s: State, o: ObjectId)
    requires Inv(s) && o in s.records && s.records[o].state.Finalizing?
    ensures Ended(s, o)
  {
    RecordKnown(s, o);
  }

  lemma NoDeliveryAfterEnd(s: State, o: ObjectId, b: Binding)
    requires Ended(s, o)
    ensures !Enabled(s, DeliverStep(b, Some(o)))
  {
  }

  // ----- Between quarantine and the Finalizing mark -----

  /** The finalizer's own entry is where it was. */
  ghost predicate StillQuarantined(s: State, s': State, o: ObjectId)
    requires o in s.finals
  {
    FinalAt(s', o, Quarantined) && s'.finals[o].binding == s.finals[o].binding
  }

  lemma RetirementKeepsQuarantine(s: State, step: InterruptMachine.Step, o: ObjectId)
    requires OfRetirement(step) && Enabled(s, step) && Asserts(s, step) && FinalAt(s, o, Quarantined) && step != Mark(o)
    ensures StillQuarantined(s, Apply(s, step), o)
  {
  }

  lemma UseKeepsQuarantine(s: State, step: InterruptMachine.Step, o: ObjectId)
    requires !OfRetirement(step) && Enabled(s, step) && Asserts(s, step) && FinalAt(s, o, Quarantined) && o in s.minted
    ensures StillQuarantined(s, Apply(s, step), o)
  {
    hide Clash;
  }

  lemma FinalIsMinted(s: State, o: ObjectId)
    requires Inv(s) && o in s.finals
    ensures o in s.minted
  {
    InFinal(s, o);
  }

  /** Only the mark itself ends the window. */
  lemma StaysQuarantined(s: State, step: InterruptMachine.Step, o: ObjectId)
    requires Inv(s) && Enabled(s, step) && Asserts(s, step) && FinalAt(s, o, Quarantined) && step != Mark(o)
    ensures StillQuarantined(s, Apply(s, step), o)
  {
    hide Inv, Enabled, Asserts, Apply;
    FinalIsMinted(s, o);
    if OfRetirement(step) {
      RetirementKeepsQuarantine(s, step, o);
    } else {
      UseKeepsQuarantine(s, step, o);
    }
  }

  lemma QuarantineOpens(s: State, o: ObjectId)
    requires Inv(s) && Enabled(s, Quarantine(o)) && Asserts(s, Quarantine(o))
    ensures o in s.records && FinalAt(Apply(s, Quarantine(o)), o, Quarantined)
    ensures Apply(s, Quarantine(o)).finals[o].binding == s.records[o].binding
  {
    InFinal(s, o);
  }

  /** No mark of `o` among the steps from `from` up to `to`. */
  ghost predicate Unmarked(steps: seq<InterruptMachine.Step>, from: nat, to: nat, o: ObjectId)
    requires to <= |steps|
  {
    forall m :: from <= m < to ==> steps[m] != Mark(o)
  }

  lemma {:induction false} WindowStaysOpen(states: seq<State>, steps: seq<InterruptMachine.Step>, q: nat, n: nat, o: ObjectId)
    requires Run(states, steps) && q < n <= |steps| && steps[q] == Quarantine(o) && Unmarked(steps, q, n, o)
    ensures o in states[q].records && FinalAt(states[n], o, Quarantined) && states[n].finals[o].binding == states[q].records[o].binding
    decreases n
  {
    hide Inv, Enabled, Asserts, Apply, Initial;
    RunInv(states, steps, n - 1);
    RunStep(states, steps, n - 1);
    if n == q + 1 {
      QuarantineOpens(states[q], o);
    } else {
      WindowStaysOpen(states, steps, q, n - 1, o);
      StaysQuarantined(states[n - 1], steps[n - 1], o);
    }
  }

  /** In the window the platform still lets a delivery of the binding through and the record takes it. */
  lemma WindowTakesDeliveries(s: State, o: ObjectId, b: Binding)
    requires Inv(s) && FinalAt(s, o, Quarantined) && s.finals[o].binding == b
    ensures o in s.records && Reaches(s.records[o], b)
    ensures PrepareDelivery(s.domain, s.sources, b).Success? && Delivered(s.records[o].state).1 != Rejected
  {
    InFinal(s, o);
  }

  lemma MarkEnds(s: State, o: ObjectId)
    requires Enabled(s, Mark(o)) && Asserts(s, Mark(o))
    ensures o in Apply(s, Mark(o)).records && Apply(s, Mark(o)).records[o].state.Finalizing?
  {
  }

  /** The first mark among the steps from `from` up to `to`. */
  lemma {:induction false} FindMark(steps: seq<InterruptMachine.Step>, from: nat, to: nat, o: ObjectId) returns (m: nat)
    requires to <= |steps| && !Unmarked(steps, from, to, o)
    ensures from <= m < to && steps[m] == Mark(o)
  {
    m :| from <= m < to && steps[m] == Mark(o);
  }

  /**
   Quarantine alone does not keep deliveries out.  After `begin_retirement` of an object
   a delivery of its binding still reaches it, through the platform and the record,
   exactly as long as the Finalizing mark has not been set.
   */
  lemma QuarantineAdmitsUntilMarked(states: seq<State>, steps: seq<InterruptMachine.Step>, q: nat, n: nat, o: ObjectId, b: Binding)
    requires Run(states, steps) && q < n <= |steps| && steps[q] == Quarantine(o)
    requires o in states[q].records && states[q].records[o].binding == b
    ensures Enabled(states[n], DeliverStep(b, Some(o))) <==> Unmarked(steps, q, n, o)
    ensures Unmarked(steps, q, n, o) ==>
              && PrepareDelivery(states[n].domain, states[n].sources, b).Success?
              && o in states[n].records && Delivered(states[n].records[o].state).1 != Rejected
  {
    hide Inv, Asserts, Apply, Initial, Unmarked;
    RunInv(states, steps, n);
    if Unmarked(steps, q, n, o) {
      WindowStaysOpen(states, steps, q, n, o);
      WindowTakesDeliveries(states[n], o, b);
    } else {
      var m := FindMark(steps, q, n, o);
      RunStep(states, steps, m);
      MarkEnds(states[m], o);
      FinalizingIsForever(states, steps, m + 1, n, o);
      NoDeliveryAfterEnd(states[n], o, b);
    }
  }

  // ----- A delivery inside the window -----

  /** One published interrupt and nothing else. */
  function Alone(s0: State, o: ObjectId, b: Binding, parent: Pin): State {
    s0.(sources := map[b.source := Source(b.generation, SrcArmed)],
        records := map[o := Record(o, b, parent, Armed, None, false)], parents := map[o := parent])
  }

  function CreateSteps(o: ObjectId, b: Binding, parent: Pin): seq<InterruptMachine.Step> {
    [Reserve(o, b.source, b.generation, true, parent), InterruptMachine.Step.Bind(o, true), CommitTyped(o), CommitPlatform(o)]
  }

  function RetireSteps(o: ObjectId, b: Binding): seq<InterruptMachine.Step> {
    [LookUp(o), Quarantine(o), DeliverStep(b, Some(o)), Mark(o)]
  }

  /** A step that is taken. */
  ghost predicate Takes(s: State, step: InterruptMachine.Step, s': State) {
    Enabled(s, step) && Asserts(s, step) && s' == Apply(s, step)
  }

  /** The creation in flight, bound or not, committed or not. */
  function WhileCreating(s0: State, o: ObjectId, b: Binding, parent: Pin, stage: CreateStage): State {
    s0.(sources := map[b.source := Source(b.generation, SrcReserved)],
        records := if stage == AtReserved then map[]
                   else map[o := Record(o, b, parent, if stage == AtBound then Creating else Armed, None, false)],
        creations := map[o := Creation(stage, b, parent)], parents := map[o := parent])
  }

  lemma TakesReserve(s0: State, o: ObjectId, b: Binding, parent: Pin)
    requires Initial(s0) && b.domain == s0.domain && !ReservedSource(b.source)
    ensures Takes(s0, Reserve(o, b.source, b.generation, true, parent), WhileCreating(s0, o, b, parent, AtReserved))
  {
  }

  lemma TakesBind(s0: State, o: ObjectId, b: Binding, parent: Pin)
    requires Initial(s0) && s0.capacity > 0 && b.domain == s0.domain
    ensures Takes(WhileCreating(s0, o, b, parent, AtReserved), InterruptMachine.Step.Bind(o, true),
                  WhileCreating(s0, o, b, parent, AtBound))
  {
  }

  lemma TakesTyped(s0: State, o: ObjectId, b: Binding, parent: Pin)
    requires Initial(s0)
    ensures Takes(WhileCreating(s0, o, b, parent, AtBound), CommitTyped(o), WhileCreating(s0, o, b, parent, AtTyped))
  {
  }

  lemma TakesPlatform(s0: State, o: ObjectId, b: Binding, parent: Pin)
    requires Initial(s0) && b.domain == s0.domain
    ensures Takes(WhileCreating(s0, o, b, parent, AtTyped), CommitPlatform(o), Alone(s0, o, b, parent))
  {
    assert WhileCreating(s0, o, b, parent, AtTyped).creations - {o} == map[];
  }

  /** The published interrupt under finalization. */
  function WhileRetiring(s0: State, o: ObjectId, b: Binding, parent: Pin, stage: FinalStage, state: IntState): State {
    s0.(sources := map[b.source := Source(b.generation, if stage == LookedUp then SrcArmed else SrcMasked)],
        records := map[o := Record(o, b, parent, state, None, false)], parents := map[o := parent],
        minted := {o}, finals := map[o := Finalizer(stage, b)])
  }

  lemma TakesLookUp(s0: State, o: ObjectId, b: Binding, parent: Pin)
    requires Initial(s0)
    ensures Takes(Alone(s0, o, b, parent), LookUp(o), WhileRetiring(s0, o, b, parent, LookedUp, Armed))
  {
  }

  lemma TakesQuarantine(s0: State, o: ObjectId, b: Binding, parent: Pin)
    requires Initial(s0) && b.domain == s0.domain
    ensures Takes(WhileRetiring(s0, o, b, parent, LookedUp, Armed), Quarantine(o), WhileRetiring(s0, o, b, parent, Quarantined, Armed))
  {
  }

  lemma TakesDelivery(s0: State, o: ObjectId, b: Binding, parent: Pin)
    requires Initial(s0) && b.domain == s0.domain
    ensures Takes(WhileRetiring(s0, o, b, parent, Quarantined, Armed), DeliverStep(b, Some(o)),
                  WhileRetiring(s0, o, b, parent, Quarantined, Pending(false)))
  {
  }

  lemma TakesMark(s0: State, o: ObjectId, b: Binding, parent: Pin)
    requires Initial(s0)
    ensures Takes(WhileRetiring(s0, o, b, parent, Quarantined, Pending(false)), Mark(o),
                  WhileRetiring(s0, o, b, parent, Marked, Finalizing))
  {
  }

  /**
   The window is real: a run in which a delivery after the quarantine changes the record
   of the quarantined object before it is marked.
   */
  lemma QuarantineWitness(s0: State, o: ObjectId, b: Binding, parent: Pin) returns (states: seq<State>, steps: seq<InterruptMachine.Step>)
    requires Initial(s0) && s0.capacity > 0 && b.domain == s0.domain && !ReservedSource(b.source)
    ensures Run(states, steps) && states[0] == s0 && |steps| == 8
    ensures steps[5] == Quarantine(o) && steps[6] == DeliverStep(b, Some(o)) && steps[7] == Mark(o)
    ensures o in states[6].records && states[6].records[o].state == Armed
    ensures o in states[7].records && states[7].records[o].state == Pending(false)
  {
    hide Initial, Alone, WhileCreating, Takes;
    TakesReserve(s0, o, b, parent);
    TakesBind(s0, o, b, parent);
    TakesTyped(s0, o, b, parent);
    TakesPlatform(s0, o, b, parent);
    TakesLookUp(s0, o, b, parent);
    TakesQuarantine(s0, o, b, parent);
    TakesDelivery(s0, o, b, parent);
    TakesMark(s0, o, b, parent);
    steps := CreateSteps(o, b, parent) + RetireSteps(o, b);
    states := [s0, WhileCreating(s0, o, b, parent, AtReserved), WhileCreating(s0, o, b, parent, AtBound),
               WhileCreating(s0, o, b, parent, AtTyped), Alone(s0, o, b, parent),
               WhileRetiring(s0, o, b, parent, LookedUp, Armed), WhileRetiring(s0, o, b, parent, Quarantined, Armed),
               WhileRetiring(s0, o, b, parent, Quarantined, Pending(false)), WhileRetiring(s0, o, b, parent, Marked, Finalizing)];
    forall i | 0 <= i < 8 ensures Takes(states[i], steps[i], states[i + 1]) {
      if i == 0 {
      } else if i == 1 {
      } else if i == 2 {
      } else if i == 3 {
      } else if i == 4 {
      } else if i == 5 {
      } else if i == 6 {
      } else {
        assert i == 7;
      }
    }
    TakesIsRun(states, steps);
  }

  lemma TakesIsRun(states: seq<State>, steps: seq<InterruptMachine.Step>)
    requires |states| == |steps| + 1 && Initial(states[0])
    requires forall i :: 0 <= i < |steps| ==> Takes(states[i], steps[i], states[i + 1])
    ensures Run(states, steps)
  {
    hide Enabled, Asserts, Apply, Initial;
    forall i | 0 <= i < |steps|
      ensures Enabled(states[i], steps[i]) && Asserts(states[i], steps[i]) && states[i + 1] == Apply(states[i], steps[i])
    {
      assert Takes(states[i], steps[i], states[i + 1]);
    }
  }
}
