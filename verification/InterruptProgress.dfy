/**
 Retirement can always be finished: from any reachable state, what steps retire a live
 object or a deferred one, and exactly what they change
 (kernel/src/device/interrupt.rs:950-1138).
 */
module InterruptProgress {
  import opened Wrappers
  import opened InterruptPlatform
  import opened InterruptState
  import opened InterruptAuthority
  import opened InterruptMachine
  import opened InterruptInvariant
  import opened InterruptPreservation

  /** The step can be taken, every assertion of it holds, and it leads to `t`. */
  ghost predicate Leads(s: State, step: InterruptMachine.Step, t: State) {
    Enabled(s, step) && Asserts(s, step) && t == Apply(s, step)
  }

  /** The steps can be taken one after the other and end in `t`. */
  ghost predicate LeadsThrough(s: State, steps: seq<InterruptMachine.Step>, t: State)
    decreases |steps|
  {
    if steps == [] then s == t else exists u :: Leads(s, steps[0], u) && LeadsThrough(u, steps[1..], t)
  }

  /** The object is handed out with its parent pin; its record and its source are gone and nothing else is. */
  ghost predicate HandedOut(s: State, t: State, o: ObjectId) {
    && o in s.records && t.records == s.records - {o} && t.sources == s.sources - {s.records[o].binding.source}
    && t.ready == s.ready + [ReadyResult(FinalRelease(o), s.records[o].parent)]
    && t.creations == s.creations && t.acks == s.acks && t.finals == s.finals && t.retries == s.retries && t.refused == s.refused
  }

  function RetrySteps(worker: Worker, o: ObjectId): seq<InterruptMachine.Step> {
    [RetryBegin(worker, o), RetryRetire(worker, true), RetryEnd(worker)]
  }

  lemma Ahead(s: State, step: InterruptMachine.Step) returns (t: State)
    requires Inv(s) && Enabled(s, step)
    ensures Leads(s, step, t) && Inv(t)
  {
    hide Inv, Apply, Enabled, Asserts;
    Preserved(s, step);
    t := Apply(s, step);
  }

  lemma PendingIsOwn(s: State, o: ObjectId)
    requires Inv(s) && o in s.records && s.records[o].pendingRelease.Some?
    ensures s.records[o].pendingRelease == Some(FinalRelease(o))
  {
    assert RecordOk(s, o);
  }

  lemma RetryEnables(s: State, worker: Worker, o: ObjectId, t: State)
    requires Leads(s, RetryBegin(worker, o), t)
    ensures t == DoRetryBegin(s, worker, o) && Enabled(t, RetryRetire(worker, true))
  {
  }

  lemma AnswerEnables(s: State, worker: Worker, t: State)
    requires Leads(s, RetryRetire(worker, true), t)
    ensures t == DoRetryRetire(s, worker, true) && Enabled(t, RetryEnd(worker))
  {
  }

  lemma RetryEffect(s: State, worker: Worker, o: ObjectId, t: State)
    requires o in s.records && worker !in s.retries && s.records[o].pendingRelease == Some(FinalRelease(o))
    requires Leads(DoRetryRetire(DoRetryBegin(s, worker, o), worker, true), RetryEnd(worker), t)
    ensures HandedOut(s, t, o)
  {
    assert t == DoRetryEnd(DoRetryRetire(DoRetryBegin(s, worker, o), worker, true), worker);
    assert t.retries == s.retries;
    assert t.records == s.records - {o};
  }

  /** A deferred retirement nobody is working on can be finished by any free worker in three steps, and then is handed out exactly. */
  lemma DeferredCanFinish(s: State, worker: Worker, o: ObjectId) returns (t: State)
    requires Inv(s) && worker !in s.retries && o in s.records && Retryable(s.records[o])
    ensures LeadsThrough(s, RetrySteps(worker, o), t) && HandedOut(s, t, o)
  {
    hide Inv, Leads, DoRetryBegin, DoRetryRetire, DoRetryEnd, HandedOut;
    PendingIsOwn(s, o);
    var s1 := Ahead(s, RetryBegin(worker, o));
    RetryEnables(s, worker, o, s1);
    var s2 := Ahead(s1, RetryRetire(worker, true));
    AnswerEnables(s1, worker, s2);
    t := Ahead(s2, RetryEnd(worker));
    RetryEffect(s, worker, o, t);
    Chained([s, s1, s2, t], RetrySteps(worker, o));
  }

  // ----- A live object -----

  function FinalSteps(o: ObjectId): seq<InterruptMachine.Step> {
    [LookUp(o), Quarantine(o), Mark(o), InterruptMachine.Step.Retire(o, true), Settle(o)]
  }

  lemma LookUpEnables(s: State, o: ObjectId, t: State)
    requires Leads(s, LookUp(o), t)
    ensures t == DoLookUp(s, o) && Enabled(t, Quarantine(o))
  {
  }

  lemma QuarantineEnables(s: State, o: ObjectId, t: State)
    requires Leads(s, Quarantine(o), t)
    ensures o in s.finals && s.finals[o].binding.source in s.sources && t == DoQuarantine(s, o) && Enabled(t, Mark(o))
  {
  }

  lemma MarkEnables(s: State, o: ObjectId, t: State)
    requires Leads(s, Mark(o), t)
    ensures o in s.finals && o in s.records && t == DoMark(s, o) && Enabled(t, InterruptMachine.Step.Retire(o, true))
  {
  }

  lemma RetireEnables(s: State, o: ObjectId, t: State)
    requires Leads(s, InterruptMachine.Step.Retire(o, true), t)
    ensures o in s.finals && t == DoRetire(s, o, true) && Enabled(t, Settle(o))
  {
  }

  lemma SettleEffect(s: State, o: ObjectId, t: State)
    requires Leads(s, Settle(o), t) && o in s.finals && s.finals[o].stage == Retired(true)
    ensures o in s.records && t == DoSettle(s, o)
  {
  }

  /** The five steps together. */
  lemma FinalEffect(s: State, o: ObjectId, s1: State, s2: State, s3: State, s4: State, t: State)
    requires o in s.records && o !in s.finals && s1 == DoLookUp(s, o)
    requires s1.finals[o].binding.source in s1.sources && s2 == DoQuarantine(s1, o)
    requires o in s2.finals && o in s2.records && s3 == DoMark(s2, o)
    requires o in s3.finals && s4 == DoRetire(s3, o, true)
    requires o in s4.finals && o in s4.records && t == DoSettle(s4, o)
    ensures HandedOut(s, t, o)
  {
    var b := s.records[o].binding;
    assert s1.finals[o] == Finalizer(LookedUp, b) && s4.finals[o] == Finalizer(Retired(true), b);
    assert t.sources == s.sources - {b.source};
    assert t.records == s.records - {o};
    assert t.finals == s.finals;
  }

  lemma LiveHasNoFinalizer(s: State, o: ObjectId)
    requires Inv(s) && o in s.records && o !in s.minted
    ensures o !in s.finals
  {
    assert ObjOk(s, o);
  }

  /** A published object with no acknowledgement under way can be retired in five steps, and then is handed out exactly. */
  lemma LiveCanRetire(s: State, o: ObjectId) returns (t: State)
    requires Inv(s) && o in s.records && o !in s.creations && o !in s.minted && o !in s.acks
    ensures LeadsThrough(s, FinalSteps(o), t) && HandedOut(s, t, o)
  {
    hide Inv, Leads, DoLookUp, DoQuarantine, DoMark, DoRetire, DoSettle, HandedOut;
    LiveHasNoFinalizer(s, o);
    var s1 := Ahead(s, LookUp(o));
    LookUpEnables(s, o, s1);
    var s2 := Ahead(s1, Quarantine(o));
    QuarantineEnables(s1, o, s2);
    var s3 := Ahead(s2, Mark(o));
    MarkEnables(s2, o, s3);
    var s4 := Ahead(s3, InterruptMachine.Step.Retire(o, true));
    RetireEnables(s3, o, s4);
    Retires(s3, o);
    t := Ahead(s4, Settle(o));
    SettleEffect(s4, o, t);
    FinalEffect(s, o, s1, s2, s3, s4, t);
    Chained([s, s1, s2, s3, s4, t], FinalSteps(o));
  }

  lemma {:induction false} Chained(states: seq<State>, steps: seq<InterruptMachine.Step>)
    requires |states| == |steps| + 1 && forall i :: 0 <= i < |steps| ==> Leads(states[i], steps[i], states[i + 1])
    ensures LeadsThrough(states[0], steps, states[|steps|])
    decreases |steps|
  {
    hide Leads;
    if steps != [] {
      Chained(states[1..], steps[1..]);
      assert Leads(states[0], steps[0], states[0 + 1]);
    }
  }

  lemma Retires(s: State, o: ObjectId)
    requires o in s.finals
    ensures var t := DoRetire(s, o, true); o in t.finals && t.finals[o].stage == Retired(true)
  {
  }

  // ----- A delivery and its acknowledgement -----

  /** What the invariant says of a published armed object. */
  lemma ArmedHolds(s: State, o: ObjectId)
    requires Inv(s) && o in s.records && o !in s.creations && o !in s.minted && s.records[o].state.Armed?
    ensures Holds(s, s.records[o].binding, SrcArmed) && o !in s.acks
  {
    assert ObjOk(s, o);
  }

  /** The object with one delivery taken in, and with its acknowledgement prepared. */
  function WithOne(s: State, o: ObjectId, state: IntState): State
    requires o in s.records && s.records[o].binding.source in s.sources
  {
    s.(sources := SetState(s.sources, s.records[o].binding, SrcMasked), records := SetRecordState(s.records, o, state),
       acks := if state.AckPrepared? then s.acks + {o} else s.acks)
  }

  lemma DeliverStepTakes(s: State, o: ObjectId)
    requires o in s.records && s.records[o].state.Armed? && Holds(s, s.records[o].binding, SrcArmed)
    ensures Leads(s, DeliverStep(s.records[o].binding, Some(o)), WithOne(s, o, Pending(false)))
  {
  }

  lemma PrepareStepTakes(s: State, o: ObjectId)
    requires o in s.records && o !in s.creations && o !in s.minted && Holds(s, s.records[o].binding, SrcArmed)
    ensures Leads(WithOne(s, o, Pending(false)), PrepareStep(o), WithOne(s, o, AckPrepared(false)))
  {
  }

  lemma CompleteStepTakes(s: State, o: ObjectId)
    requires o in s.records && s.records[o].state.Armed? && o !in s.acks && Holds(s, s.records[o].binding, SrcArmed)
    ensures Leads(WithOne(s, o, AckPrepared(false)), CompleteStep(o), s)
  {
    var w := WithOne(s, o, AckPrepared(false));
    var b := s.records[o].binding;
    assert PlatformAccepts(w, o);
    assert SetState(w.sources, b, SrcArmed) == s.sources;
    assert SetRecordState(w.records, o, Armed) == s.records;
    assert w.acks - {o} == s.acks;
  }

  /** On a published armed object, a delivery and its acknowledgement lead back to exactly the same state. */
  lemma AcknowledgeUndoesDelivery(s: State, o: ObjectId)
    requires Inv(s) && o in s.records && o !in s.creations && o !in s.minted && s.records[o].state.Armed?
    ensures LeadsThrough(s, [DeliverStep(s.records[o].binding, Some(o)), PrepareStep(o), CompleteStep(o)], s)
  {
    hide Inv, Leads, WithOne, Holds;
    ArmedHolds(s, o);
    HeldIsBound(s, s.records[o].binding);
    DeliverStepTakes(s, o);
    PrepareStepTakes(s, o);
    CompleteStepTakes(s, o);
    Chained([s, WithOne(s, o, Pending(false)), WithOne(s, o, AckPrepared(false)), s],
            [DeliverStep(s.records[o].binding, Some(o)), PrepareStep(o), CompleteStep(o)]);
  }

  lemma HeldIsBound(s: State, b: Binding)
    requires Holds(s, b, SrcArmed)
    ensures b.source in s.sources
  {
  }
}
