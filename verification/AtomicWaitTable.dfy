/**
 The wait index in place: the slot array behind its lock
 (kernel/src/atomic_wait.rs:143-308).
 */
module AtomicWaitTable {
  import opened Wrappers
  import opened BlockedLedger
  import opened AtomicWaitIndex
  import opened AtomicWaitQueue

  /** One entry more, in the lowest usable slot, under that slot's next generation and the next number; the token names it. */
  ghost predicate Published(before: Index, after: Index, reg: Registration, key: AtomicWaitKey, wake: BlockWakeKey) {
    var i := reg.slot;
    && i < |before.slots| && before.slots[i].entry.None? && before.slots[i].generation < U32_MAX
    && (forall j :: 0 <= j < i ==> before.slots[j].entry.Some? || before.slots[j].generation >= U32_MAX)
    && reg == Registration(before.domain, i, before.slots[i].generation + 1, key, wake)
    && after == Index(before.domain, before.slots[i := Slot(reg.generation, Some(Entry(key, wake, before.nextSequence)))],
                      before.nextSequence + 1)
  }

  class AtomicWaitRegistry {
    const domain: nat
    const slots: array<Slot>
    var nextSequence: nat

    function View(): Index reads this, slots { Index(domain, slots[..], nextSequence) }

    constructor (domain: nat, capacity: nat)
      ensures fresh(slots) && slots.Length == capacity
      ensures View() == Index(domain, seq(capacity, _ => Slot(0, None)), 1)
    {
      this.domain := domain;
      nextSequence := 1;
      slots := new Slot[capacity](_ => Slot(0, None));
      new;
      assert slots[..] == seq(capacity, _ => Slot(0, None));
    }

    /** `observed` is the word loaded inside the lock. */
    method RegisterIfExpected(key: AtomicWaitKey, wake: BlockWakeKey, expected: nat, observed: nat)
      returns (r: Result<RegisterOutcome, WaitError>)
      modifies this`nextSequence, slots
      ensures observed != expected ==> r == Success(Mismatch(observed)) && View() == old(View())
      ensures observed == expected ==>
                var after := Register(old(View()), key, wake);
                && View() == after.0
                && (after.1.Success? ==> r == Success(Registered(after.1.value)))
                && (after.1.Failure? ==> r == Failure(after.1.error))
      ensures observed == expected ==>
                (r.Success? <==>
                   && old(nextSequence) < U64_MAX
                   && exists i :: 0 <= i < slots.Length && i <= U16_MAX && old(slots[i]).entry.None? && old(slots[i]).generation < U32_MAX)
      ensures r.Failure? ==> r.error == Capacity && slots[..] == old(slots[..])
      ensures r.Success? && r.value.Registered? ==> Published(old(View()), View(), r.value.registration, key, wake)
    {
      if observed != expected {
        return Success(Mismatch(observed));
      }
      var i := 0;
      while i < slots.Length && !Open(slots[i])
        invariant i <= slots.Length
        invariant FirstOpen(slots[..], 0) == FirstOpen(slots[..], i)
      {
        i := i + 1;
      }
      if i == slots.Length || nextSequence >= U64_MAX {
        return Failure(Capacity);
      }
      var sequence := nextSequence;
      nextSequence := nextSequence + 1;
      if i > U16_MAX {
        return Failure(Capacity);
      }
      var generation := slots[i].generation + 1;
      slots[i] := Slot(generation, Some(Entry(key, wake, sequence)));
      r := Success(Registered(Registration(domain, i, generation, key, wake)));
    }

    method CancelIfLive(reg: Registration) returns (r: Result<bool, WaitError>)
      modifies slots
      ensures View() == Cancel(old(View()), reg).0
      ensures r == Cancel(old(View()), reg).1
      ensures r == Failure(ForeignRegistration) <==> reg.domain != domain
      ensures r == Success(true) <==>
                && reg.domain == domain && reg.slot < slots.Length && old(slots[reg.slot]).generation == reg.generation
                && old(slots[reg.slot]).entry.Some?
                && old(slots[reg.slot]).entry.value.key == reg.key && old(slots[reg.slot]).entry.value.wake == reg.wake
      ensures r == Success(false) <==>
                && reg.domain == domain && reg.slot < slots.Length
                && (|| old(slots[reg.slot]).generation > reg.generation
                    || (old(slots[reg.slot]).generation == reg.generation && old(slots[reg.slot]).entry.None?))
      ensures r.Failure? ==> r.error in {ForeignRegistration, StaleRegistration}
      ensures slots[..] == if r == Success(true) then old(slots[..])[reg.slot := Slot(reg.generation, None)] else old(slots[..])
    {
      if reg.domain != domain {
        return Failure(ForeignRegistration);
      }
      if reg.slot >= slots.Length {
        return Failure(StaleRegistration);
      }
      var slot := slots[reg.slot];
      if slot.generation < reg.generation {
        return Failure(StaleRegistration);
      }
      if slot.generation > reg.generation || slot.entry.None? {
        return Success(false);
      }
      if slot.entry.value.key != reg.key || slot.entry.value.wake != reg.wake {
        return Failure(StaleRegistration);
      }
      slots[reg.slot] := Slot(slot.generation, None);
      r := Success(true);
    }

    method OldestKeyedSlot(key: AtomicWaitKey) returns (r: Option<nat>)
      ensures r == Oldest(slots[..], key)
    {
      r := None;
      for i := 0 to slots.Length
        invariant r == OldestBelow(slots[..], key, i)
      {
        if Matches(slots[i], key) &&
           (r.None? || slots[i].entry.value.sequence < slots[r.value].entry.value.sequence) {
          r := Some(i);
        }
      }
    }

    /** One turn of the claim loop: pops the oldest entry and says whether its claim won. */
    method PopOldest(key: AtomicWaitKey, blocked: BlockedOperationRegistry) returns (popped: Option<(BlockWakeKey, bool)>)
      requires blocked.Valid()
      modifies slots, blocked.slots
      ensures blocked.Valid()
      ensures popped.None? <==> old(Oldest(slots[..], key)).None?
      ensures popped.None? ==> slots[..] == old(slots[..]) && blocked.View() == old(blocked.View())
      ensures popped.Some? ==>
                var i := old(Oldest(slots[..], key)).value;
                && popped.value == (old(slots[i]).entry.value.wake, Claimable(old(blocked.View()), popped.value.0))
                && slots[..] == Cleared(old(slots[..]), i)
                && blocked.View() == if popped.value.1 then old(blocked.View())[popped.value.0 := Some(AtomicWake)] else old(blocked.View())
    {
      var oldest := OldestKeyedSlot(key);
      if oldest.None? {
        return None;
      }
      var i := oldest.value;
      var wake := slots[i].entry.value.wake;
      var claimed := blocked.TryClaimWinner(wake, AtomicWake);
      slots[i] := Slot(slots[i].generation, None);
      popped := Some((wake, claimed == Success(true)));
    }

    /**
     Claims up to `count` waiters.  `batch` stands for the fixed wake array's
     filled prefix, so the assertion before the append is the one in `push`: it
     holds whatever `count` is.
     */
    method ClaimWake(key: AtomicWaitKey, count: nat, blocked: BlockedOperationRegistry) returns (batch: seq<BlockWakeKey>)
      requires blocked.Valid()
      modifies slots, blocked.slots
      ensures blocked.Valid()
      ensures Claimed(slots[..], blocked.View(), batch) ==
              Claim(old(slots[..]), old(blocked.View()), key, Limit(count, slots.Length))
      ensures |batch| <= slots.Length && (count != WAKE_ALL ==> |batch| <= count)
      ensures Sequenced(old(slots[..])) && DistinctWakes(old(slots[..])) ==>
                TakesFirst(batch, Unclaimed(Queue(old(slots[..]), key), old(blocked.View())), count)
      ensures blocked.View().Keys == old(blocked.View()).Keys
      ensures forall w :: w in blocked.View() ==> blocked.View()[w] == if w in batch then Some(AtomicWake) else old(blocked.View())[w]
    {
      ClaimTakesFirst(slots[..], blocked.View(), key, count);
      ClaimHasWinnerEffect(slots[..], blocked.View(), key, Limit(count, slots.Length));
      var limit := if count == WAKE_ALL then slots.Length else count;
      batch := [];
      ghost var whole := Claim(slots[..], blocked.View(), key, limit);
      LiveCountBounded(slots[..]);
      var more := limit > 0;
      while more
        invariant blocked.Valid()
        invariant more ==> |batch| < limit
        invariant |batch| + LiveCount(slots[..]) <= slots.Length
        invariant Remains(whole, batch, slots[..], blocked.View(), key, if more then limit - |batch| else 0)
        decreases LiveCount(slots[..]), more
      {
        ghost var before := slots[..];
        ClaimStep(whole, batch, before, blocked.View(), key, limit - |batch|);
        var popped := PopOldest(key, blocked);
        if popped.None? {
          more := false;
        } else {
          ClearingDropsOne(before, Oldest(before, key).value);
          if popped.value.1 {
            assert |batch| < slots.Length;
            batch := batch + [popped.value.0];
            more := |batch| < limit;
          }
        }
      }
    }
  }

  /** `whole` is `done` followed by what a claim from here would still do. */
  ghost predicate Remains(whole: Claimed, done: seq<BlockWakeKey>, slots: seq<Slot>, winners: WinnerMap,
                          key: AtomicWaitKey, limit: nat) {
    var c := Claim(slots, winners, key, limit);
    whole == Claimed(c.slots, c.winners, done + c.batch)
  }

  lemma ClaimStep(whole: Claimed, done: seq<BlockWakeKey>, slots: seq<Slot>, winners: WinnerMap,
                  key: AtomicWaitKey, limit: nat)
    requires limit > 0 && Remains(whole, done, slots, winners, key, limit)
    ensures match Oldest(slots, key)
            case None => Remains(whole, done, slots, winners, key, 0)
            case Some(i) =>
              var wake := slots[i].entry.value.wake;
              if Claimable(winners, wake)
              then Remains(whole, done + [wake], Cleared(slots, i), winners[wake := Some(AtomicWake)], key, limit - 1)
              else Remains(whole, done, Cleared(slots, i), winners, key, limit)
  {
    match Oldest(slots, key)
    case None =>
    case Some(i) =>
      var wake := slots[i].entry.value.wake;
      if Claimable(winners, wake) {
        var rest := Claim(Cleared(slots, i), winners[wake := Some(AtomicWake)], key, limit - 1);
        assert done + ([wake] + rest.batch) == (done + [wake]) + rest.batch;
      }
  }
}
