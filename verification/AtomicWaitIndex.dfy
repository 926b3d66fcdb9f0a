/**
 The bounded per-key registration index of atomic_wait32
 (kernel/src/atomic_wait.rs, `AtomicWaitRegistry`).

 `Register`, `Cancel` and `Claim` say what one lock-held region does to the slot
 array; `AtomicWaitTable` runs them in place.
 */
module AtomicWaitIndex {
  import opened Wrappers
  import opened BlockedLedger

  const WAKE_ALL: nat := U32_MAX

  /** Stable identity of one userspace word. */
  datatype AtomicWaitKey = AtomicWaitKey(memory: nat, offset: nat)

  datatype Entry = Entry(key: AtomicWaitKey, wake: BlockWakeKey, sequence: nat)

  datatype Slot = Slot(generation: nat, entry: Option<Entry>)

  /** Copyable identity token of one registration. */
  datatype Registration = Registration(domain: nat, slot: nat, generation: nat, key: AtomicWaitKey, wake: BlockWakeKey)

  datatype WaitError = Capacity | DuplicateThread | ForeignRegistration | StaleRegistration

  datatype RegisterOutcome = Mismatch(observed: nat) | Registered(registration: Registration)

  datatype Index = Index(domain: nat, slots: seq<Slot>, nextSequence: nat)

  predicate Open(slot: Slot) {
    slot.entry.None? && slot.generation < U32_MAX
  }

  predicate Matches(slot: Slot, key: AtomicWaitKey) {
    slot.entry.Some? && slot.entry.value.key == key
  }

  function Cleared(slots: seq<Slot>, i: nat): seq<Slot>
    requires i < |slots|
  {
    slots[i := Slot(slots[i].generation, None)]
  }

  /** Lowest slot from `from` on that can take a registration. */
  function FirstOpen(slots: seq<Slot>, from: nat): (r: Option<nat>)
    requires from <= |slots|
    ensures r.Some? ==> from <= r.value < |slots| && Open(slots[r.value])
    ensures r.Some? ==> forall j :: from <= j < r.value ==> !Open(slots[j])
    ensures r.None? ==> forall j :: from <= j < |slots| ==> !Open(slots[j])
    decreases |slots| - from
  {
    if from == |slots| then None
    else if Open(slots[from]) then Some(from)
    else FirstOpen(slots, from + 1)
  }

  /**
   Publishes one waiter.  Exhausted generations are skipped, an exhausted
   sequence counter refuses, and a slot number past 16 bits refuses after the
   sequence has been spent.
   */
  function Register(ix: Index, key: AtomicWaitKey, wake: BlockWakeKey): (Index, Result<Registration, WaitError>) {
    match FirstOpen(ix.slots, 0)
    case None => (ix, Failure(Capacity))
    case Some(i) =>
      if ix.nextSequence >= U64_MAX then (ix, Failure(Capacity))
      else if i > U16_MAX then (ix.(nextSequence := ix.nextSequence + 1), Failure(Capacity))
      else
        var generation := ix.slots[i].generation + 1;
        var entry := Entry(key, wake, ix.nextSequence);
        (Index(ix.domain, ix.slots[i := Slot(generation, Some(entry))], ix.nextSequence + 1),
         Success(Registration(ix.domain, i, generation, key, wake)))
  }

  /** Removes one exact registration if it is still in the index. */
  function Cancel(ix: Index, reg: Registration): (Index, Result<bool, WaitError>) {
    if reg.domain != ix.domain then (ix, Failure(ForeignRegistration))
    else if reg.slot >= |ix.slots| then (ix, Failure(StaleRegistration))
    else
      var slot := ix.slots[reg.slot];
      if slot.generation < reg.generation then (ix, Failure(StaleRegistration))
      else if slot.generation > reg.generation || slot.entry.None? then (ix, Success(false))
      else if slot.entry.value.key != reg.key || slot.entry.value.wake != reg.wake then (ix, Failure(StaleRegistration))
      else (ix.(slots := Cleared(ix.slots, reg.slot)), Success(true))
  }

  /** Slot below `n` with the smallest sequence among those registered on `key`. */
  function OldestBelow(slots: seq<Slot>, key: AtomicWaitKey, n: nat): (r: Option<nat>)
    requires n <= |slots|
    ensures r.Some? ==> r.value < n && Matches(slots[r.value], key)
    ensures r.Some? ==> forall j :: 0 <= j < n && Matches(slots[j], key) ==>
              slots[r.value].entry.value.sequence <= slots[j].entry.value.sequence
    ensures r.None? ==> forall j :: 0 <= j < n ==> !Matches(slots[j], key)
  {
    if n == 0 then None
    else
      var best := OldestBelow(slots, key, n - 1);
      if Matches(slots[n - 1], key) &&
         (best.None? || slots[n - 1].entry.value.sequence < slots[best.value].entry.value.sequence)
      then Some(n - 1) else best
  }

  function Oldest(slots: seq<Slot>, key: AtomicWaitKey): Option<nat> {
    OldestBelow(slots, key, |slots|)
  }

  function LiveCount(slots: seq<Slot>): nat {
    if slots == [] then 0
    else LiveCount(slots[..|slots| - 1]) + (if slots[|slots| - 1].entry.Some? then 1 else 0)
  }

  lemma {:induction false} ClearingDropsOne(slots: seq<Slot>, i: nat)
    requires i < |slots| && slots[i].entry.Some?
    ensures LiveCount(Cleared(slots, i)) + 1 == LiveCount(slots)
  {
    var last := |slots| - 1;
    if i == last {
      assert Cleared(slots, i)[..last] == slots[..last];
    } else {
      ClearingDropsOne(slots[..last], i);
      assert Cleared(slots, i)[..last] == Cleared(slots[..last], i);
    }
  }

  lemma {:induction false} LiveCountBounded(slots: seq<Slot>)
    ensures LiveCount(slots) <= |slots|
  {
    if slots != [] { LiveCountBounded(slots[..|slots| - 1]); }
  }

  datatype Claimed = Claimed(slots: seq<Slot>, winners: WinnerMap, batch: seq<BlockWakeKey>)

  /** Whether an `AtomicWake` claim on this generation would win. */
  predicate Claimable(winners: WinnerMap, wake: BlockWakeKey) {
    wake in winners && winners[wake].None?
  }

  /**
   One whole `claim_wake` region: pop the oldest entry on the key until `limit`
   claims have won or the key has no entry left.
   */
  function Claim(slots: seq<Slot>, winners: WinnerMap, key: AtomicWaitKey, limit: nat): Claimed
    decreases LiveCount(slots)
  {
    if limit == 0 then Claimed(slots, winners, [])
    else
      match Oldest(slots, key)
      case None => Claimed(slots, winners, [])
      case Some(i) =>
        var wake := slots[i].entry.value.wake;
        ClearingDropsOne(slots, i);
        if Claimable(winners, wake) then
          var rest := Claim(Cleared(slots, i), winners[wake := Some(AtomicWake)], key, limit - 1);
          rest.(batch := [wake] + rest.batch)
        else
          Claim(Cleared(slots, i), winners, key, limit)
  }

  /** How many wakes a count asks for. */
  function Limit(count: nat, capacity: nat): nat {
    if count == WAKE_ALL then capacity else count
  }
}
