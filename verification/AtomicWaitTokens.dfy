/**
 Registration tokens across slot reuse (kernel/src/atomic_wait.rs:162-229): a token
 keeps naming the one entry it was issued for, over any run of index operations.
 */
module AtomicWaitTokens {
  import opened Wrappers
  import opened BlockedLedger
  import opened AtomicWaitIndex
  import opened AtomicWaitQueue

  /** One lock-held index operation. The ledger a claim consults is arbitrary. */
  datatype IndexOp =
    | DoRegister(key: AtomicWaitKey, wake: BlockWakeKey)
    | DoCancel(reg: Registration)
    | DoClaim(key: AtomicWaitKey, limit: nat, winners: WinnerMap)

  function Do(ix: Index, op: IndexOp): Index {
    match op
    case DoRegister(key, wake) => Register(ix, key, wake).0
    case DoCancel(reg) => Cancel(ix, reg).0
    case DoClaim(key, limit, winners) => ix.(slots := Claim(ix.slots, winners, key, limit).slots)
  }

  function RunOps(ix: Index, ops: seq<IndexOp>): Index
    decreases |ops|
  {
    if ops == [] then ix else RunOps(Do(ix, ops[0]), ops[1..])
  }

  /** The slot still holds the occupant of this token's generation. */
  predicate OwnLive(ix: Index, reg: Registration) {
    reg.slot < |ix.slots| && ix.slots[reg.slot].generation == reg.generation && ix.slots[reg.slot].entry.Some?
  }

  /** `reg` was issued for `entry`: its slot has moved past it or still holds exactly that entry, or nothing. */
  ghost predicate Genuine(ix: Index, reg: Registration, entry: Entry) {
    && reg.domain == ix.domain && reg.slot < |ix.slots|
    && ix.slots[reg.slot].generation >= reg.generation
    && reg.key == entry.key && reg.wake == entry.wake
    && (OwnLive(ix, reg) ==> ix.slots[reg.slot].entry == Some(entry))
  }

  lemma RegisterIssuesGenuine(ix: Index, key: AtomicWaitKey, wake: BlockWakeKey)
    requires Register(ix, key, wake).1.Success?
    ensures var (after, r) := Register(ix, key, wake);
            Genuine(after, r.value, Entry(key, wake, ix.nextSequence)) && OwnLive(after, r.value)
  {
  }

  /** No operation makes a token stale or brings its entry back. */
  lemma GenuineStays(ix: Index, op: IndexOp, reg: Registration, entry: Entry)
    requires Genuine(ix, reg, entry)
    ensures Genuine(Do(ix, op), reg, entry)
    ensures OwnLive(Do(ix, op), reg) ==> OwnLive(ix, reg)
  {
    if op.DoClaim? {
      ClaimHasSlotEffect(ix.slots, op.winners, op.key, op.limit);
      assert KeptOrTaken(ix.slots[reg.slot], Do(ix, op).slots[reg.slot], op.key);
    }
  }

  /** Cancelling a genuine token is exact: true just when its own entry is live, and no other slot moves. */
  lemma CancelIsExact(ix: Index, reg: Registration, entry: Entry)
    requires Genuine(ix, reg, entry)
    ensures var (after, r) := Cancel(ix, reg);
            && r == Success(OwnLive(ix, reg))
            && !OwnLive(after, reg)
            && (if OwnLive(ix, reg) then after == ix.(slots := Cleared(ix.slots, reg.slot)) else after == ix)
  {
  }

  /** How many times over the run a cancel of `reg` is answered `Ok(true)`. */
  function TrueCancels(ix: Index, ops: seq<IndexOp>, reg: Registration): nat
    decreases |ops|
  {
    if ops == [] then 0
    else (if ops[0] == DoCancel(reg) && Cancel(ix, reg).1 == Success(true) then 1 else 0)
         + TrueCancels(Do(ix, ops[0]), ops[1..], reg)
  }

  lemma {:induction false} GenuineOverRun(ix: Index, ops: seq<IndexOp>, reg: Registration, entry: Entry)
    requires Genuine(ix, reg, entry)
    ensures Genuine(RunOps(ix, ops), reg, entry)
    ensures OwnLive(RunOps(ix, ops), reg) ==> OwnLive(ix, reg)
    ensures TrueCancels(ix, ops, reg) <= if OwnLive(ix, reg) then 1 else 0
    decreases |ops|
  {
    if ops != [] {
      GenuineStays(ix, ops[0], reg, entry);
      GenuineOverRun(Do(ix, ops[0]), ops[1..], reg, entry);
      CancelIsExact(ix, reg, entry);
    }
  }

  /**
   Slot reuse is safe.  From the moment a token is issued, over any run of
   registrations, cancels (of any token) and claims: it is answered `Ok(true)` at
   most once; at any point of the run a cancel answers exactly whether the entry it
   was issued for is still there, never an error; and it removes that entry or nothing.
   */
  lemma SlotReuseIsSafe(ix: Index, key: AtomicWaitKey, wake: BlockWakeKey, ops: seq<IndexOp>, n: nat)
    requires Register(ix, key, wake).1.Success? && n <= |ops|
    ensures var (issued, r) := Register(ix, key, wake);
            var reg := r.value;
            var entry := Entry(key, wake, ix.nextSequence);
            var at := RunOps(issued, ops[..n]);
            && TrueCancels(issued, ops, reg) <= 1
            && Cancel(at, reg).1 == Success(OwnLive(at, reg))
            && (OwnLive(at, reg) ==> at.slots[reg.slot].entry == Some(entry) && Cancel(at, reg).0.slots == Cleared(at.slots, reg.slot))
            && (!OwnLive(at, reg) ==> Cancel(at, reg).0 == at)
  {
    var (issued, r) := Register(ix, key, wake);
    var entry := Entry(key, wake, ix.nextSequence);
    RegisterIssuesGenuine(ix, key, wake);
    GenuineOverRun(issued, ops, r.value, entry);
    GenuineOverRun(issued, ops[..n], r.value, entry);
    CancelIsExact(RunOps(issued, ops[..n]), r.value, entry);
  }
}
