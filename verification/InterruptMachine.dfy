/**
 Every interleaving of interrupt creation, delivery, acknowledgement and retirement
 over the two separately locked tables (kernel/src/device/interrupt.rs:228-368,
 530-724, 950-1211, 1222-1349, 1396-1422).

 One delivery (platform, then typed record) and one completion of a prepared
 acknowledgement are single steps; everything else is one step per lock region.  The
 platform may defer a retirement as often as it likes, and any number of workers may
 retry.  `Asserts` lists what the kernel expects or asserts at a step.
 */
module InterruptMachine {
  import opened Wrappers
  import opened InterruptPlatform
  import opened InterruptState
  import opened InterruptAuthority

  datatype CreateStage = AtReserved | AtBound | AtTyped

  datatype Creation = Creation(stage: CreateStage, binding: Binding, parent: Pin)

  datatype FinalStage = LookedUp | Quarantined | Marked | Retired(complete: bool)

  /** A `take_finalization` call in flight; it owns the release of its object. */
  datatype Finalizer = Finalizer(stage: FinalStage, binding: Binding)

  /** A deferred-retirement retry in flight, before or after `retire_source` answered. */
  datatype Retry = Retry(id: ObjectId, binding: Binding, answer: Option<bool>)

  datatype ReadyResult = ReadyResult(release: FinalRelease, parent: Pin)

  datatype Refusal = Refusal(id: ObjectId, parent: Pin)

  type Worker = nat

  /** `parents` remembers the pin every creation attempt brought in, `gone` the objects whose source was released. */
  datatype State = State(
    domain: nat,
    sources: Sources,
    records: Records,
    capacity: nat,
    creations: map<ObjectId, Creation>,
    acks: set<ObjectId>,
    finals: map<ObjectId, Finalizer>,
    retries: map<Worker, Retry>,
    minted: set<ObjectId>,
    gone: set<ObjectId>,
    parents: map<ObjectId, Pin>,
    ready: seq<ReadyResult>,
    refused: seq<Refusal>)

  datatype Step =
    | Reserve(id: ObjectId, source: nat, generation: nat, room: bool, parent: Pin)
    | Bind(id: ObjectId, room: bool)
    | CommitTyped(id: ObjectId)
    | CommitPlatform(id: ObjectId)
    | DeliverStep(binding: Binding, target: Option<ObjectId>)
    | PrepareStep(id: ObjectId)
    | CompleteStep(id: ObjectId)
    | LookUp(id: ObjectId)
    | Quarantine(id: ObjectId)
    | Mark(id: ObjectId)
    | Retire(id: ObjectId, complete: bool)
    | Settle(id: ObjectId)
    | RetryBegin(worker: Worker, id: ObjectId)
    | RetryRetire(worker: Worker, complete: bool)
    | RetryEnd(worker: Worker)

  ghost predicate Initial(s: State) {
    && s.sources == map[] && s.records == map[] && s.creations == map[] && s.acks == {}
    && s.finals == map[] && s.retries == map[] && s.minted == {} && s.gone == {}
    && s.parents == map[] && s.ready == [] && s.refused == []
  }

  predicate CreatingAt(s: State, id: ObjectId, stage: CreateStage) {
    id in s.creations && s.creations[id].stage == stage
  }

  predicate FinalAt(s: State, id: ObjectId, stage: FinalStage) {
    id in s.finals && s.finals[id].stage == stage
  }

  /** Which steps the callers can take: program counters and move-only tokens, no table contents. */
  ghost predicate Enabled(s: State, step: Step) {
    match step
    case Reserve(id, _, _, _, parent) => id !in s.parents && parent !in s.parents.Values
    case Bind(id, _) => CreatingAt(s, id, AtReserved)
    case CommitTyped(id) => CreatingAt(s, id, AtBound)
    case CommitPlatform(id) => CreatingAt(s, id, AtTyped)
    case DeliverStep(binding, target) =>
      (match target
       case Some(id) => id in s.records && Reaches(s.records[id], binding)
       case None => forall id :: id in s.records ==> !Reaches(s.records[id], binding))
    case PrepareStep(id) => id in s.records && id !in s.creations && id !in s.minted
    case CompleteStep(id) => id in s.acks
    case LookUp(id) => id in s.records && id !in s.creations && id !in s.minted && id !in s.acks
    case Quarantine(id) => FinalAt(s, id, LookedUp)
    case Mark(id) => FinalAt(s, id, Quarantined)
    case Retire(id, _) => FinalAt(s, id, Marked)
    case Settle(id) => id in s.finals && s.finals[id].stage.Retired?
    case RetryBegin(worker, id) => worker !in s.retries && id in s.records && Retryable(s.records[id])
    case RetryRetire(worker, _) => worker in s.retries && s.retries[worker].answer.None?
    case RetryEnd(worker) => worker in s.retries && s.retries[worker].answer.Some?
  }

  /** Everything the kernel expects, unwraps or asserts at the step. */
  ghost predicate Asserts(s: State, step: Step)
    requires Enabled(s, step)
  {
    match step
    case Bind(id, _) => ExactIn(s.domain, s.sources, s.creations[id].binding, SrcReserved)
    case CommitTyped(id) => ExactRecord(s.records, id, s.creations[id].binding) && s.records[id].state.Creating?
    case CommitPlatform(id) => ExactIn(s.domain, s.sources, s.creations[id].binding, SrcReserved)
    case CompleteStep(id) => id in s.records && s.records[id].state.AckPrepared?
    case LookUp(id) => Live(s.records[id].state)
    case Quarantine(id) =>
      Exact(s.domain, s.sources, s.finals[id].binding) && s.sources[s.finals[id].binding.source].state != SrcReserved
    case Mark(id) => ExactRecord(s.records, id, s.finals[id].binding) && Live(s.records[id].state)
    case Retire(id, _) => ExactIn(s.domain, s.sources, s.finals[id].binding, SrcMasked)
    case Settle(id) =>
      && ExactRecord(s.records, id, s.finals[id].binding) && s.records[id].state.Finalizing?
      && (s.finals[id].stage == Retired(false) ==> s.records[id].pendingRelease.None?)
    case RetryRetire(worker, _) => ExactIn(s.domain, s.sources, s.retries[worker].binding, SrcMasked)
    case RetryEnd(worker) =>
      var r := s.retries[worker];
      && ExactRecord(s.records, r.id, r.binding) && s.records[r.id].retrying
      && (r.answer == Some(true) ==> s.records[r.id].state.Finalizing? && s.records[r.id].pendingRelease.Some?)
    case _ => true
  }

  /** A refused creation gives its parent pin back. */
  function Refuse(s: State, id: ObjectId, parent: Pin): State {
    s.(refused := s.refused + [Refusal(id, parent)])
  }

  function DoReserve(s: State, id: ObjectId, source: nat, generation: nat, room: bool, parent: Pin): State {
    var known := s.(parents := s.parents[id := parent]);
    if ReservedSource(source) || source in s.sources || !room then Refuse(known, id, parent)
    else
      known.(sources := s.sources[source := Source(generation, SrcReserved)],
             creations := s.creations[id := Creation(AtReserved, Binding(s.domain, source, generation), parent)])
  }

  ghost function DoBind(s: State, id: ObjectId, room: bool): State
    requires id in s.creations
  {
    var c := s.creations[id];
    if !room || Clash(s.records, id, c.binding) || |s.records| >= s.capacity then
      Refuse(s.(sources := s.sources - {c.binding.source}, creations := s.creations - {id}), id, c.parent)
    else
      s.(records := s.records[id := Fresh(id, c.binding, c.parent)], creations := s.creations[id := c.(stage := AtBound)])
  }

  /** Creation publishes the typed Armed state first and unmasks the platform last. */
  function DoCommitTyped(s: State, id: ObjectId): State
    requires id in s.creations && id in s.records
  {
    s.(records := SetRecordState(s.records, id, Armed), creations := s.creations[id := s.creations[id].(stage := AtTyped)])
  }

  function DoCommitPlatform(s: State, id: ObjectId): State
    requires id in s.creations && s.creations[id].binding.source in s.sources
  {
    s.(sources := SetState(s.sources, s.creations[id].binding, SrcArmed), creations := s.creations - {id})
  }

  function DoDeliver(s: State, binding: Binding, target: Option<ObjectId>): State
    requires target.Some? ==> target.value in s.records
  {
    match PrepareDelivery(s.domain, s.sources, binding)
    case Failure(_) => s
    case Success(sources) =>
      if target.None? then s.(sources := sources)
      else s.(sources := sources,
              records := SetRecordState(s.records, target.value, Delivered(s.records[target.value].state).0))
  }

  function DoPrepare(s: State, id: ObjectId): State
    requires id in s.records
  {
    match PrepareAck(s.records[id].state)
    case None => s
    case Some((state, kind)) =>
      s.(records := SetRecordState(s.records, id, state), acks := if kind == Rearm then s.acks + {id} else s.acks)
  }

  /** Whether the platform lets this acknowledgement through. */
  predicate PlatformAccepts(s: State, id: ObjectId)
    requires id in s.records
  {
    AcknowledgeSource(s.domain, s.sources, s.records[id].binding).Success?
  }

  function DoComplete(s: State, id: ObjectId): State
    requires id in s.records && s.records[id].state.AckPrepared?
  {
    var r := s.records[id];
    if PlatformAccepts(s, id) then
      var (state, outcome) := FinishAck(r.state);
      s.(records := SetRecordState(s.records, id, state),
         sources := CompleteAck(s.sources, r.binding, outcome), acks := s.acks - {id})
    else
      s.(records := SetRecordState(s.records, id, RestorePending(r.state)), acks := s.acks - {id})
  }

  function DoLookUp(s: State, id: ObjectId): State
    requires id in s.records
  {
    s.(minted := s.minted + {id}, finals := s.finals[id := Finalizer(LookedUp, s.records[id].binding)])
  }

  function DoQuarantine(s: State, id: ObjectId): State
    requires id in s.finals && s.finals[id].binding.source in s.sources
  {
    s.(sources := SetState(s.sources, s.finals[id].binding, SrcMasked),
       finals := s.finals[id := s.finals[id].(stage := Quarantined)])
  }

  function DoMark(s: State, id: ObjectId): State
    requires id in s.finals && id in s.records
  {
    s.(records := SetRecordState(s.records, id, Finalizing), finals := s.finals[id := s.finals[id].(stage := Marked)])
  }

  function DoRetire(s: State, id: ObjectId, complete: bool): State
    requires id in s.finals
  {
    var f := s.finals[id];
    s.(sources := if complete then s.sources - {f.binding.source} else s.sources,
       gone := if complete then s.gone + {id} else s.gone,
       finals := s.finals[id := f.(stage := Retired(complete))])
  }

  function DoSettle(s: State, id: ObjectId): State
    requires id in s.finals && id in s.records
  {
    if s.finals[id].stage == Retired(true) then
      s.(records := s.records - {id}, finals := s.finals - {id},
         ready := s.ready + [ReadyResult(FinalRelease(id), s.records[id].parent)])
    else
      s.(records := s.records[id := s.records[id].(pendingRelease := Some(FinalRelease(id)))], finals := s.finals - {id})
  }

  function DoRetryBegin(s: State, worker: Worker, id: ObjectId): State
    requires id in s.records
  {
    s.(records := s.records[id := s.records[id].(retrying := true)],
       retries := s.retries[worker := Retry(id, s.records[id].binding, None)])
  }

  function DoRetryRetire(s: State, worker: Worker, complete: bool): State
    requires worker in s.retries
  {
    var r := s.retries[worker];
    s.(sources := if complete then s.sources - {r.binding.source} else s.sources,
       gone := if complete then s.gone + {r.id} else s.gone,
       retries := s.retries[worker := r.(answer := Some(complete))])
  }

  function DoRetryEnd(s: State, worker: Worker): State
    requires worker in s.retries && s.retries[worker].id in s.records
    requires s.retries[worker].answer == Some(true) ==> s.records[s.retries[worker].id].pendingRelease.Some?
  {
    var r := s.retries[worker];
    var record := s.records[r.id];
    if r.answer == Some(true) then
      s.(records := s.records - {r.id}, retries := s.retries - {worker},
         ready := s.ready + [ReadyResult(record.pendingRelease.value, record.parent)])
    else
      s.(records := s.records[r.id := record.(retrying := false)], retries := s.retries - {worker})
  }

  ghost function Apply(s: State, step: Step): State
    requires Enabled(s, step) && Asserts(s, step)
  {
    match step
    case Reserve(id, source, generation, room, parent) => DoReserve(s, id, source, generation, room, parent)
    case Bind(id, room) => DoBind(s, id, room)
    case CommitTyped(id) => DoCommitTyped(s, id)
    case CommitPlatform(id) => DoCommitPlatform(s, id)
    case DeliverStep(binding, target) => DoDeliver(s, binding, target)
    case PrepareStep(id) => DoPrepare(s, id)
    case CompleteStep(id) => DoComplete(s, id)
    case LookUp(id) => DoLookUp(s, id)
    case Quarantine(id) => DoQuarantine(s, id)
    case Mark(id) => DoMark(s, id)
    case Retire(id, complete) => DoRetire(s, id, complete)
    case Settle(id) => DoSettle(s, id)
    case RetryBegin(worker, id) => DoRetryBegin(s, worker, id)
    case RetryRetire(worker, complete) => DoRetryRetire(s, worker, complete)
    case RetryEnd(worker) => DoRetryEnd(s, worker)
  }

  /** A run takes steps whose assertions hold; `NoAssertionFires` shows the others never arise. */
  ghost predicate Run(states: seq<State>, steps: seq<Step>) {
    && |states| == |steps| + 1
    && Initial(states[0])
    && forall i :: 0 <= i < |steps| ==>
         Enabled(states[i], steps[i]) && Asserts(states[i], steps[i]) && states[i + 1] == Apply(states[i], steps[i])
  }
}
