/**
 Every interleaving of atomic_wait32 waiters, atomic_wake callers and rival winners
 (kernel/src/atomic_wait.rs:429-910, with the scheduler half of the commit from
 kernel/src/task/execution.rs:1215-1241).

 Each lock-held region is one step.  A waiter is a program counter plus the
 move-only values it owns: the block reservation, the blocked-operation entry, the
 deadline registration, the index registration and the word pin.  Where the code
 asserts or expects, the step is simply not enabled; `AtomicWaitRuns` shows when
 that can happen.
 */
module AtomicWaitMachine {
  import opened Wrappers
  import opened BlockedLedger
  import opened AtomicWaitIndex

  type Thread = nat
  type Pin = nat

  /** How a cleanup path will end the blocked-operation entry. */
  datatype Plan = Fixed(winner: Winner) | TerminalLookup | TerminalClaim

  datatype Stage =
    | Observed
    | Prepared
    | InLedger
    | Armed
    | InIndex
    | Published
    | Checked
    | Committed
    | Suspended
    | Cleaning(plan: Plan)

  datatype Waiter = Waiter(
    stage: Stage,
    key: AtomicWaitKey,
    expected: nat,
    pin: Pin,
    wake: BlockWakeKey,
    block: bool,
    ledger: bool,
    deadline: bool,
    reg: Option<Registration>,
    op: bool)

  /** The durable owner kept by the operation registry while a thread sleeps. */
  datatype Operation = Operation(wake: BlockWakeKey, pin: Pin, reg: Registration, deadline: bool)

  datatype State = State(
    index: Index,
    winners: WinnerMap,
    ops: map<Thread, Operation>,
    capacity: nat,
    deadlines: set<BlockWakeKey>,
    pending: map<Thread, BlockWakeKey>,
    blocked: set<BlockWakeKey>,
    undelivered: set<BlockWakeKey>,
    words: map<AtomicWaitKey, nat>,
    waiters: map<Thread, Waiter>,
    nextToken: nat,
    issued: set<Pin>,
    returned: seq<Pin>)

  datatype Arming = Infinite | Finite | Expired | Refused

  datatype Step =
    | Begin(t: Thread, key: AtomicWaitKey, expected: nat, now: bool, pin: Pin)
    | Prepare(t: Thread, ok: bool)
    | Enter(t: Thread, ok: bool)
    | Arm(t: Thread, arming: Arming)
    | Reread(t: Thread)
    | Publish(t: Thread)
    | Check(t: Thread)
    | Commit(t: Thread)
    | Replay(t: Thread)
    | Resume(t: Thread)
    | Terminate(t: Thread)
    | CleanIndex(t: Thread)
    | CleanLedger(t: Thread)
    | CleanDeadline(t: Thread)
    | CleanBlock(t: Thread)
    | Return(t: Thread)
    | Store(key: AtomicWaitKey, value: nat)
    | Wake(key: AtomicWaitKey, count: nat)
    | Deliver(wake: BlockWakeKey)
    | Rival(wake: BlockWakeKey, winner: Winner)

  function Word(s: State, key: AtomicWaitKey): nat {
    if key in s.words then s.words[key] else 0
  }

  ghost predicate Initial(s: State) {
    && (forall j :: 0 <= j < |s.index.slots| ==> s.index.slots[j].entry.None?)
    && s.winners == map[] && s.ops == map[] && s.deadlines == {} && s.pending == map[]
    && s.blocked == {} && s.undelivered == {} && s.waiters == map[]
    && s.nextToken > 0 && s.issued == {} && s.returned == []
  }

  /** Thread `t` is a waiter about to run `stage`. */
  predicate At(s: State, t: Thread, stage: Stage) {
    t in s.waiters && s.waiters[t].stage == stage
  }

  predicate CleaningAt(s: State, t: Thread) {
    t in s.waiters && s.waiters[t].stage.Cleaning?
  }

  /** Whether this cleanup can go on given what the ledger has recorded. */
  predicate PlanAdmits(plan: Plan, recorded: Option<Winner>) {
    match plan
    case Fixed(winner) => recorded == None || recorded == Some(winner)
    case TerminalLookup => true
    case TerminalClaim => recorded == None
  }

  predicate Enabled(s: State, step: Step) {
    match step
    case Begin(t, _, _, _, pin) => t !in s.waiters && pin !in s.issued
    case Prepare(t, _) => At(s, t, Observed)
    case Enter(t, ok) => At(s, t, Prepared) && (ok ==> s.waiters[t].wake !in s.winners && |s.winners| < s.capacity)
    case Arm(t, _) => At(s, t, InLedger)
    case Reread(t) => At(s, t, Armed)
    case Publish(t) => At(s, t, InIndex) && s.waiters[t].reg.Some?
    case Check(t) =>
      && At(s, t, Published) && s.waiters[t].wake in s.winners && t in s.ops && s.ops[t].wake == s.waiters[t].wake
      && s.winners[s.waiters[t].wake] in {None, Some(AtomicWake), Some(Timeout)}
    case Commit(t) => At(s, t, Checked) && t in s.pending && s.pending[t] == s.waiters[t].wake
    case Replay(t) => At(s, t, Committed) && s.waiters[t].wake in s.winners
    case Resume(t) =>
      && At(s, t, Suspended) && s.waiters[t].wake !in s.blocked
      && t in s.ops && s.ops[t].wake == s.waiters[t].wake
      && s.waiters[t].wake in s.winners && s.winners[s.waiters[t].wake].Some?
    case Terminate(t) => At(s, t, Suspended) && t in s.ops
    case CleanIndex(t) => CleaningAt(s, t) && s.waiters[t].reg.Some? && Cancel(s.index, s.waiters[t].reg.value).1.Success?
    case CleanLedger(t) =>
      && CleaningAt(s, t) && s.waiters[t].reg.None? && s.waiters[t].ledger && s.waiters[t].wake in s.winners
      && PlanAdmits(s.waiters[t].stage.plan, s.winners[s.waiters[t].wake])
    case CleanDeadline(t) =>
      CleaningAt(s, t) && s.waiters[t].reg.None? && !s.waiters[t].ledger && s.waiters[t].deadline
    case CleanBlock(t) =>
      && CleaningAt(s, t) && s.waiters[t].reg.None? && !s.waiters[t].ledger && !s.waiters[t].deadline
      && s.waiters[t].block && t in s.pending && s.pending[t] == s.waiters[t].wake
    case Return(t) =>
      && CleaningAt(s, t) && s.waiters[t].reg.None?
      && !s.waiters[t].ledger && !s.waiters[t].deadline && !s.waiters[t].block
    case Store(_, _) => true
    case Wake(_, _) => true
    case Deliver(wake) => wake in s.undelivered
    case Rival(wake, winner) => wake in s.winners && s.winners[wake].None? && winner != AtomicWake
  }

  function Put(s: State, t: Thread, w: Waiter): State {
    s.(waiters := s.waiters[t := w])
  }

  function Clean(w: Waiter, winner: Winner): Waiter {
    w.(stage := Cleaning(Fixed(winner)))
  }

  /** A begin whose first load disagreed, or whose deadline is already now, keeps nothing. */
  function DoBegin(s: State, t: Thread, key: AtomicWaitKey, expected: nat, now: bool, pin: Pin): State {
    if Word(s, key) != expected || now then
      s.(issued := s.issued + {pin}, returned := s.returned + [pin])
    else
      Put(s.(issued := s.issued + {pin}), t,
          Waiter(Observed, key, expected, pin, BlockWakeKey(0, t), false, false, false, None, false))
  }

  function DoPrepare(s: State, t: Thread, ok: bool): State
    requires t in s.waiters
  {
    if ok then
      var wake := BlockWakeKey(s.nextToken, t);
      Put(s.(pending := s.pending[t := wake], nextToken := s.nextToken + 1), t,
          s.waiters[t].(stage := Prepared, wake := wake, block := true))
    else
      s.(waiters := s.waiters - {t}, returned := s.returned + [s.waiters[t].pin])
  }

  function DoEnter(s: State, t: Thread, ok: bool): State
    requires t in s.waiters
  {
    var w := s.waiters[t];
    if ok then Put(s.(winners := s.winners[w.wake := None]), t, w.(stage := InLedger, ledger := true))
    else Put(s, t, Clean(w, Cancelled))
  }

  function DoArm(s: State, t: Thread, arming: Arming): State
    requires t in s.waiters
  {
    var w := s.waiters[t];
    match arming
    case Infinite => Put(s, t, w.(stage := Armed))
    case Finite => Put(s.(deadlines := s.deadlines + {w.wake}), t, w.(stage := Armed, deadline := true))
    case Expired => Put(s, t, Clean(w, Timeout))
    case Refused => Put(s, t, Clean(w, Cancelled))
  }

  /** Second load and registration, under the index lock that every wake also takes. */
  function DoReread(s: State, t: Thread): State
    requires t in s.waiters
  {
    var w := s.waiters[t];
    if Word(s, w.key) != w.expected then Put(s, t, Clean(w, Cancelled))
    else
      var (index, r) := Register(s.index, w.key, w.wake);
      match r
      case Success(reg) => Put(s.(index := index), t, w.(stage := InIndex, reg := Some(reg)))
      case Failure(_) => Put(s.(index := index), t, Clean(w, Cancelled))
  }

  predicate PublishFits(s: State, t: Thread) {
    t !in s.ops && |s.ops| < s.capacity
  }

  function DoPublish(s: State, t: Thread): State
    requires t in s.waiters && s.waiters[t].reg.Some?
  {
    var w := s.waiters[t];
    if PublishFits(s, t) then
      Put(s.(ops := s.ops[t := Operation(w.wake, w.pin, w.reg.value, w.deadline)]), t, w.(stage := Published, op := true))
    else Put(s, t, Clean(w, Cancelled))
  }

  function DoCheck(s: State, t: Thread): State
    requires t in s.waiters && s.waiters[t].wake in s.winners
  {
    var w := s.waiters[t];
    match s.winners[w.wake]
    case None => Put(s, t, w.(stage := Checked))
    case Some(winner) => Put(s.(ops := s.ops - {t}), t, Clean(w, winner).(op := false))
  }

  function DoCommit(s: State, t: Thread): State
    requires t in s.waiters
  {
    var w := s.waiters[t];
    Put(s.(pending := s.pending - {t}, blocked := s.blocked + {w.wake}), t, w.(stage := Committed, block := false))
  }

  /** The winner recorded between the check and the commit is replayed as a wake. */
  function DoReplay(s: State, t: Thread): State
    requires t in s.waiters && s.waiters[t].wake in s.winners
  {
    var w := s.waiters[t];
    var blocked := if s.winners[w.wake].Some? then s.blocked - {w.wake} else s.blocked;
    Put(s.(blocked := blocked), t, w.(stage := Suspended))
  }

  function DoResume(s: State, t: Thread): State
    requires t in s.waiters && s.waiters[t].wake in s.winners && s.winners[s.waiters[t].wake].Some?
  {
    var w := s.waiters[t];
    Put(s.(ops := s.ops - {t}), t, Clean(w, s.winners[w.wake].value).(op := false))
  }

  function DoTerminate(s: State, t: Thread): State
    requires t in s.waiters
  {
    var w := s.waiters[t];
    Put(s.(ops := s.ops - {t}, blocked := s.blocked - {w.wake}), t, w.(stage := Cleaning(TerminalLookup), op := false))
  }

  function DoCleanIndex(s: State, t: Thread): State
    requires t in s.waiters && s.waiters[t].reg.Some?
  {
    Put(s.(index := Cancel(s.index, s.waiters[t].reg.value).0), t, s.waiters[t].(reg := None))
  }

  function DoCleanLedger(s: State, t: Thread): State
    requires CleaningAt(s, t) && s.waiters[t].wake in s.winners
  {
    var w := s.waiters[t];
    match w.stage.plan
    case Fixed(_) => Put(s.(winners := s.winners - {w.wake}), t, w.(ledger := false))
    case TerminalLookup =>
      var plan := match s.winners[w.wake] case None => TerminalClaim case Some(winner) => Fixed(winner);
      Put(s, t, w.(stage := Cleaning(plan)))
    case TerminalClaim =>
      Put(s.(winners := s.winners[w.wake := Some(Terminal)]), t, w.(stage := Cleaning(Fixed(Terminal))))
  }

  function DoWake(s: State, key: AtomicWaitKey, count: nat): State {
    var c := Claim(s.index.slots, s.winners, key, Limit(count, |s.index.slots|));
    s.(index := s.index.(slots := c.slots), winners := c.winners, undelivered := s.undelivered + (set w | w in c.batch))
  }

  function Apply(s: State, step: Step): State
    requires Enabled(s, step)
  {
    match step
    case Begin(t, key, expected, now, pin) => DoBegin(s, t, key, expected, now, pin)
    case Prepare(t, ok) => DoPrepare(s, t, ok)
    case Enter(t, ok) => DoEnter(s, t, ok)
    case Arm(t, arming) => DoArm(s, t, arming)
    case Reread(t) => DoReread(s, t)
    case Publish(t) => DoPublish(s, t)
    case Check(t) => DoCheck(s, t)
    case Commit(t) => DoCommit(s, t)
    case Replay(t) => DoReplay(s, t)
    case Resume(t) => DoResume(s, t)
    case Terminate(t) => DoTerminate(s, t)
    case CleanIndex(t) => DoCleanIndex(s, t)
    case CleanLedger(t) => DoCleanLedger(s, t)
    case CleanDeadline(t) => Put(s.(deadlines := s.deadlines - {s.waiters[t].wake}), t, s.waiters[t].(deadline := false))
    case CleanBlock(t) => Put(s.(pending := s.pending - {t}), t, s.waiters[t].(block := false))
    case Return(t) => s.(waiters := s.waiters - {t}, returned := s.returned + [s.waiters[t].pin])
    case Store(key, value) => s.(words := s.words[key := value])
    case Wake(key, count) => DoWake(s, key, count)
    case Deliver(wake) => s.(undelivered := s.undelivered - {wake}, blocked := s.blocked - {wake})
    case Rival(wake, winner) => s.(winners := s.winners[wake := Some(winner)], undelivered := s.undelivered + {wake})
  }

  /** A run: states joined by enabled steps. */
  ghost predicate Run(states: seq<State>, steps: seq<Step>) {
    && |states| == |steps| + 1
    && Initial(states[0])
    && forall i :: 0 <= i < |steps| ==> Enabled(states[i], steps[i]) && states[i + 1] == Apply(states[i], steps[i])
  }
}
