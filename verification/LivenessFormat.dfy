/**
 The liveness formatter: a cursor over a fixed buffer, hexadecimal and decimal digit
 loops, and the size bound (kernel/src/debug/liveness.rs:456-591).
 */
module LivenessFormat {
  import opened Wrappers
  import opened LivenessSeqlock

  const SNAPSHOT_MAX_BYTES: nat := 96 + CPU_CAPACITY * 288

  // ----- Digits -----

  function HexDigit(n: nat): (b: Byte)
    requires n < 16
  {
    if n < 10 then 48 + n else 55 + n
  }

  function HexValue(b: Byte): nat { if b < 48 then 0 else if b < 58 then b - 48 else b - 55 }

  function Pow16(k: nat): (p: nat)
    ensures p > 0
  {
    if k == 0 then 1 else 16 * Pow16(k - 1)
  }

  /** The lowest `k` hexadecimal digits of `n`, most significant first. */
  function Hex(n: nat, k: nat): (s: seq<Byte>)
    ensures |s| == k
  {
    if k == 0 then [] else Hex(n / 16, k - 1) + [HexDigit(n % 16)]
  }

  /** The value with its lowest `k` hexadecimal digits shifted out. */
  function Shifted(value: nat, k: nat): nat {
    if k == 0 then value else Shifted(value, k - 1) / 16
  }

  function HexDecode(s: seq<Byte>): nat {
    if s == [] then 0 else 16 * HexDecode(s[..|s| - 1]) + HexValue(s[|s| - 1])
  }

  /** Sixteen digits decode back to any 64-bit value. */
  lemma {:induction false} HexRoundTrip(n: nat, k: nat)
    requires n < Pow16(k)
    ensures HexDecode(Hex(n, k)) == n
  {
    if k > 0 {
      HexRoundTrip(n / 16, k - 1);
      assert Hex(n, k)[..k - 1] == Hex(n / 16, k - 1);
    }
  }

  /** Decimal digits, most significant first; zero is one digit. */
  function Dec(n: nat): (s: seq<Byte>)
    ensures |s| > 0
  {
    if n < 10 then [48 + n] else Dec(n / 10) + [48 + n % 10]
  }

  function DecDecode(s: seq<Byte>): int {
    if s == [] then 0 else 10 * DecDecode(s[..|s| - 1]) - 48 + s[|s| - 1]
  }

  lemma {:induction false} DecRoundTrip(n: nat)
    ensures DecDecode(Dec(n)) == n
  {
    if n < 10 {
      assert Dec(n)[..0] == [];
    } else {
      DecRoundTrip(n / 10);
      assert Dec(n)[..|Dec(n)| - 1] == Dec(n / 10);
    }
  }

  function Pow10(k: nat): (p: nat)
    ensures p > 0
  {
    if k == 0 then 1 else 10 * Pow10(k - 1)
  }

  lemma {:induction false} DecLength(n: nat, k: nat)
    requires k > 0 && n < Pow10(k)
    ensures |Dec(n)| <= k
  {
    if n >= 10 {
      assert k > 1;
      DecLength(n / 10, k - 1);
    }
  }

  lemma PowersOfTen()
    ensures Pow10(1) == 10 && Pow10(9) == 1000000000 && Pow10(10) == 10000000000
    ensures Pow10(19) == 10000000000000000000 && Pow10(20) == 100000000000000000000
  {
    assert Pow10(4) == 10000;
    assert Pow10(8) == 100000000;
    assert Pow10(12) == 1000000000000;
    assert Pow10(16) == 10000000000000000;
  }

  lemma PowersOfSixteen()
    ensures Pow16(16) == U64_MAX + 1
  {
    assert Pow16(4) == 0x1_0000;
    assert Pow16(8) == 0x1_0000_0000;
    assert Pow16(12) == 0x1_0000_0000_0000;
  }

  /** A 64-bit value written in sixteen digits decodes to itself. */
  lemma HexWordRoundTrip(n: nat)
    requires n <= U64_MAX
    ensures HexDecode(Hex(n, 16)) == n
  {
    PowersOfSixteen();
    HexRoundTrip(n, 16);
  }

  // ----- The text of a snapshot -----

  function Text(s: string): (b: seq<Byte>)
    ensures |b| == |s|
  {
    if s == [] then [] else [s[0] as int % 256] + Text(s[1..])
  }

  function Line(cpu: nat, r: Record): seq<Byte> {
    Head(cpu, r) + Counters(r) + Tail(r)
  }

  function Head(cpu: nat, r: Record): seq<Byte> {
    Text("DWLIVE1|cpu=") + Dec(cpu) + Text(if r.consistent then "|read=stable" else "|read=TORN")
    + Text("|thread=") + Hex(r.id.thread, 16) + Text("|process=") + Hex(r.id.process, 16)
    + Text("|root=") + Hex(r.id.root, 16) + Text("|context=") + Hex(r.id.context, 16)
    + Text("|stack=") + Hex(r.id.stack, 16)
  }

  function Counters(r: Record): seq<Byte> {
    Text("|event=") + Dec(r.event) + Text("|publications=") + Dec(r.publications)
    + Text("|exec_gen=") + Dec(r.placement.generation) + Text("|runnable_here=") + Dec(r.placement.runnable)
    + Text("|queue=") + Dec(r.placement.queue)
  }

  function Tail(r: Record): seq<Byte> {
    Text(if r.placement.reschedule then "|resched=1" else "|resched=0")
    + Text(if r.placement.quantum then "|quantum=1" else "|quantum=0")
    + Text("|wake_target=") + (if r.placement.wakeTarget == NO_CPU then Text("none") else Dec(r.placement.wakeTarget))
    + Text("\r\n")
  }

  function Opening(authority: nat): seq<Byte> {
    Text("DWLIVE1|authority=") + Hex(authority, 16) + Text("|cpus=") + Dec(CPU_CAPACITY) + Text("\r\n")
  }

  function Lines(records: seq<Record>, n: nat): seq<Byte>
    requires n <= |records|
  {
    if n == 0 then [] else Lines(records, n - 1) + Line(n - 1, records[n - 1])
  }

  function SnapshotText(authority: nat, records: seq<Record>): seq<Byte> { Opening(authority) + Lines(records, |records|) }

  // ----- The bound -----

  lemma HeadLength(cpu: nat, r: Record)
    ensures |Head(cpu, r)| == 131 + |Dec(cpu)| + if r.consistent then 12 else 10
  {
    hide Hex, Text, Dec;
  }

  lemma CountersLength(r: Record)
    ensures |Counters(r)| == 53 + |Dec(r.event)| + CounterDigits(r)
  {
    hide Text, Dec;
  }

  lemma TailLength(r: Record)
    ensures |Tail(r)| == 35 + if r.placement.wakeTarget == NO_CPU then 4 else |Dec(r.placement.wakeTarget)|
  {
    hide Text, Dec;
  }

  /** The digits of the four counters whose width varies. */
  function CounterDigits(r: Record): nat {
    |Dec(r.publications)| + |Dec(r.placement.generation)| + |Dec(r.placement.runnable)| + |Dec(r.placement.queue)|
  }

  /** What a torn read and a named wake target save. */
  function Saved(r: Record): nat {
    (if r.consistent then 0 else 2) + if r.placement.wakeTarget == NO_CPU then 0 else 3
  }

  /**
   The exact length of a CPU line.  It keeps to the 288 bytes the constant allows it
   if and only if its four counters have at most 51 digits, plus what it saves
   elsewhere; and it takes at most 297.
   */
  lemma LineLength(cpu: nat, r: Record)
    requires cpu < CPU_CAPACITY && RecordFits(r)
    ensures |Line(cpu, r)| + Saved(r) == 237 + CounterDigits(r)
    ensures |Line(cpu, r)| <= 288 <==> CounterDigits(r) <= 51 + Saved(r)
    ensures |Line(cpu, r)| <= 297
  {
    hide Head, Counters, Tail, Dec, CounterDigits;
    HeadLength(cpu, r);
    CountersLength(r);
    TailLength(r);
    DigitBounds(r);
    OneDigit(cpu);
    OneDigit(r.event);
    if r.placement.wakeTarget != NO_CPU { OneDigit(r.placement.wakeTarget); }
  }

  lemma DigitBounds(r: Record)
    requires RecordFits(r)
    ensures CounterDigits(r) <= 60
  {
    PowersOfTen();
    DecLength(r.publications, 20);
    DecLength(r.placement.generation, 20);
    DecLength(r.placement.runnable, 10);
    DecLength(r.placement.queue, 10);
    hide Dec, Pow10;
  }

  /** How many digits a number takes. */
  lemma {:induction false} DigitCount(n: nat, k: nat)
    requires k > 0
    ensures |Dec(n)| == k <==> n < Pow10(k) && (k > 1 ==> n >= Pow10(k - 1))
  {
    if n < Pow10(k) { DecLength(n, k); } else { DecLengthLeast(n, k); }
    if n >= Pow10(k - 1) {
      DecLengthLeast(n, k - 1);
    } else if k > 1 {
      DecLength(n, k - 1);
    }
  }

  lemma {:induction false} LinesLength(records: seq<Record>, n: nat)
    requires n <= |records| && n <= CPU_CAPACITY && AllFit(records)
    ensures |Lines(records, n)| <= 297 * n
  {
    hide Line;
    if n > 0 {
      LinesLength(records, n - 1);
      LineLength(n - 1, records[n - 1]);
    }
  }

  lemma OpeningLength(authority: nat)
    ensures |Opening(authority)| == 43
  {
    hide Hex, Text;
    assert Dec(CPU_CAPACITY) == [52];
  }

  predicate AllFit(records: seq<Record>) { forall i :: 0 <= i < |records| ==> RecordFits(records[i]) }

  /** The result says how much of the buffer is the text, or that the text did not fit. */
  predicate Formatted(text: seq<Byte>, buffer: seq<Byte>, r: Option<nat>) {
    && (r.Some? <==> |text| <= |buffer|)
    && (r.Some? ==> r.value == |text| && buffer[..|text|] == text)
  }

  /** The whole snapshot still fits: 1231 bytes at most, of the 1248 a buffer must have. */
  lemma SnapshotFits(authority: nat, records: seq<Record>)
    requires |records| == CPU_CAPACITY && AllFit(records)
    ensures |SnapshotText(authority, records)| <= 1231 < SNAPSHOT_MAX_BYTES == 1248
  {
    hide Opening, Lines;
    OpeningLength(authority);
    LinesLength(records, CPU_CAPACITY);
  }

  lemma {:induction false} DecLengthLeast(n: nat, k: nat)
    requires n >= Pow10(k)
    ensures |Dec(n)| > k
  {
    if k > 0 {
      DecLengthLeast(n / 10, k - 1);
    }
  }

  lemma LongNumbers()
    ensures |Dec(U64_MAX)| == 20 && |Dec(U32_MAX)| == 10
  {
    hide Dec, Pow10;
    PowersOfTen();
    DigitCount(U64_MAX, 20);
    DigitCount(U32_MAX, 10);
  }

  lemma OneDigit(n: nat)
    requires n < 10
    ensures |Dec(n)| == 1
  {
  }

  // ----- The cursor -----

  /** Appends to a fixed buffer; an append that does not fit writes nothing and marks the overflow. */
  class Cursor {
    const bytes: array<Byte>
    var written: nat
    var overflowed: bool

    ghost predicate Valid() reads this, bytes { written <= bytes.Length }

    ghost function Contents(): seq<Byte>
      requires Valid()
      reads this, bytes
    {
      bytes[..written]
    }

    constructor (buffer: array<Byte>)
      ensures bytes == buffer && written == 0 && !overflowed && Valid()
    {
      bytes := buffer;
      written, overflowed := 0, false;
    }

    /** What appending `text` must do to the cursor. */
    twostate predicate Appended(text: seq<Byte>)
      requires old(Valid())
      reads this, bytes
    {
      && Valid()
      && (if old(written) + |text| <= bytes.Length then
            Contents() == old(Contents()) + text && overflowed == old(overflowed)
          else Contents() == old(Contents()) && overflowed)
    }

    /** The buffer holds `base` then `tail`, or their total length is what overflowed it. */
    ghost predicate Follows(base: seq<Byte>, tail: seq<Byte>) reads this, bytes {
      Valid() && if overflowed then |base| + |tail| > bytes.Length else Contents() == base + tail
    }

    method Literal(text: seq<Byte>)
      requires Valid()
      modifies this, bytes
      ensures Appended(text)
    {
      if written + |text| > bytes.Length {
        overflowed := true;
        return;
      }
      var i := 0;
      while i < |text|
        invariant i <= |text| && written == old(written) && overflowed == old(overflowed)
        invariant bytes[..written] == old(Contents())
        invariant bytes[written..written + i] == text[..i]
      {
        bytes[written + i] := text[i];
        i := i + 1;
      }
      assert bytes[..written + |text|] == old(Contents()) + text;
      written := written + |text|;
    }

    /** Writes sixteen digits from the most significant down, one shifted nibble at a time. */
    method Hex64(value: nat)
      requires Valid()
      modifies this, bytes
      ensures Appended(Hex(value, 16))
    {
      if written + 16 > bytes.Length {
        overflowed := true;
        return;
      }
      var shift := 16;
      while shift > 0
        invariant 0 <= shift <= 16 && written == old(written) + 16 - shift && overflowed == old(overflowed)
        invariant bytes[..written] == old(Contents()) + Hex(Shifted(value, shift), 16 - shift)
      {
        ghost var before := bytes[..written];
        shift := shift - 1;
        bytes[written] := HexDigit(Shifted(value, shift) % 16);
        written := written + 1;
        assert bytes[..written] == before + [HexDigit(Shifted(value, shift) % 16)];
      }
    }

    /** Collects the digits least significant first, then writes them backwards. */
    method Decimal(value: nat)
      requires Valid()
      modifies this, bytes
      ensures Appended(Dec(value))
    {
      var scratch := Digits(value);
      if written + |scratch| > bytes.Length {
        overflowed := true;
        return;
      }
      var index := |scratch|;
      while index > 0
        invariant 0 <= index <= |scratch| && written == old(written) + |scratch| - index && overflowed == old(overflowed)
        invariant bytes[..written] == old(Contents()) + Backwards(scratch[index..])
      {
        ghost var before := bytes[..written];
        index := index - 1;
        BackwardsFront(scratch, index);
        bytes[written] := scratch[index];
        written := written + 1;
        assert bytes[..written] == before + [scratch[index]];
      }
      assert scratch[0..] == scratch;
    }
  }

  /** Appends of one section, each extending what the section holds so far. */
  method PutText(c: Cursor, ghost base: seq<Byte>, ghost tail: seq<Byte>, text: seq<Byte>)
    requires c.Follows(base, tail)
    modifies c, c.bytes
    ensures c.Follows(base, tail + text)
  {
    c.Literal(text);
    assert base + tail + text == base + (tail + text);
  }

  method PutHex(c: Cursor, ghost base: seq<Byte>, ghost tail: seq<Byte>, value: nat)
    requires c.Follows(base, tail)
    modifies c, c.bytes
    ensures c.Follows(base, tail + Hex(value, 16))
  {
    c.Hex64(value);
    assert base + tail + Hex(value, 16) == base + (tail + Hex(value, 16));
  }

  method PutDec(c: Cursor, ghost base: seq<Byte>, ghost tail: seq<Byte>, value: nat)
    requires c.Follows(base, tail)
    modifies c, c.bytes
    ensures c.Follows(base, tail + Dec(value))
  {
    c.Decimal(value);
    assert base + tail + Dec(value) == base + (tail + Dec(value));
  }

  method PutHead(c: Cursor, ghost base: seq<Byte>, cpu: nat, r: Record)
    requires c.Follows(base, [])
    modifies c, c.bytes
    ensures c.Follows(base, Head(cpu, r))
  {
    hide Text, Dec, Hex, Cursor.Follows;
    ghost var t: seq<Byte> := [];
    PutText(c, base, t, Text("DWLIVE1|cpu="));
    t := Text("DWLIVE1|cpu=");
    assert [] + t == t;
    PutDec(c, base, t, cpu);
    t := t + Dec(cpu);
    var read := Text(if r.consistent then "|read=stable" else "|read=TORN");
    PutText(c, base, t, read);
    t := t + read;
    PutText(c, base, t, Text("|thread="));
    t := t + Text("|thread=");
    PutHex(c, base, t, r.id.thread);
    t := t + Hex(r.id.thread, 16);
    PutText(c, base, t, Text("|process="));
    t := t + Text("|process=");
    PutHex(c, base, t, r.id.process);
    t := t + Hex(r.id.process, 16);
    PutText(c, base, t, Text("|root="));
    t := t + Text("|root=");
    PutHex(c, base, t, r.id.root);
    t := t + Hex(r.id.root, 16);
    PutText(c, base, t, Text("|context="));
    t := t + Text("|context=");
    PutHex(c, base, t, r.id.context);
    t := t + Hex(r.id.context, 16);
    PutText(c, base, t, Text("|stack="));
    t := t + Text("|stack=");
    PutHex(c, base, t, r.id.stack);
  }

  method PutCounters(c: Cursor, ghost base: seq<Byte>, r: Record)
    requires c.Follows(base, [])
    modifies c, c.bytes
    ensures c.Follows(base, Counters(r))
  {
    hide Text, Dec, Hex, Cursor.Follows;
    ghost var t: seq<Byte> := [];
    PutText(c, base, t, Text("|event="));
    t := Text("|event=");
    assert [] + t == t;
    PutDec(c, base, t, r.event);
    t := t + Dec(r.event);
    PutText(c, base, t, Text("|publications="));
    t := t + Text("|publications=");
    PutDec(c, base, t, r.publications);
    t := t + Dec(r.publications);
    PutText(c, base, t, Text("|exec_gen="));
    t := t + Text("|exec_gen=");
    PutDec(c, base, t, r.placement.generation);
    t := t + Dec(r.placement.generation);
    PutText(c, base, t, Text("|runnable_here="));
    t := t + Text("|runnable_here=");
    PutDec(c, base, t, r.placement.runnable);
    t := t + Dec(r.placement.runnable);
    PutText(c, base, t, Text("|queue="));
    t := t + Text("|queue=");
    PutDec(c, base, t, r.placement.queue);
  }

  method PutTail(c: Cursor, ghost base: seq<Byte>, r: Record)
    requires c.Follows(base, [])
    modifies c, c.bytes
    ensures c.Follows(base, Tail(r))
  {
    hide Text, Dec, Hex, Cursor.Follows;
    ghost var t: seq<Byte> := [];
    var resched := Text(if r.placement.reschedule then "|resched=1" else "|resched=0");
    PutText(c, base, t, resched);
    t := resched;
    assert [] + t == t;
    var quantum := Text(if r.placement.quantum then "|quantum=1" else "|quantum=0");
    PutText(c, base, t, quantum);
    t := t + quantum;
    PutText(c, base, t, Text("|wake_target="));
    t := t + Text("|wake_target=");
    if r.placement.wakeTarget == NO_CPU {
      PutText(c, base, t, Text("none"));
      t := t + Text("none");
    } else {
      PutDec(c, base, t, r.placement.wakeTarget);
      t := t + Dec(r.placement.wakeTarget);
    }
    PutText(c, base, t, Text("\r\n"));
  }

  /** A finished section becomes part of the base. */
  lemma Rebase(c: Cursor, base: seq<Byte>, tail: seq<Byte>)
    requires c.Follows(base, tail)
    ensures c.Follows(base + tail, [])
  {
    assert base + tail + [] == base + tail;
  }

  method PutLine(c: Cursor, ghost base: seq<Byte>, cpu: nat, r: Record)
    requires c.Follows(base, [])
    modifies c, c.bytes
    ensures c.Follows(base + Line(cpu, r), [])
  {
    hide Head, Counters, Tail, Cursor.Follows;
    PutHead(c, base, cpu, r);
    Rebase(c, base, Head(cpu, r));
    PutCounters(c, base + Head(cpu, r), r);
    Rebase(c, base + Head(cpu, r), Counters(r));
    PutTail(c, base + Head(cpu, r) + Counters(r), r);
    Rebase(c, base + Head(cpu, r) + Counters(r), Tail(r));
    assert base + Head(cpu, r) + Counters(r) + Tail(r) == base + Line(cpu, r);
  }

  method PutOpening(c: Cursor, authority: nat)
    requires c.Follows([], [])
    modifies c, c.bytes
    ensures c.Follows(Opening(authority), [])
  {
    hide Text, Dec, Hex, Cursor.Follows;
    ghost var t: seq<Byte> := [];
    PutText(c, [], t, Text("DWLIVE1|authority="));
    t := Text("DWLIVE1|authority=");
    assert [] + t == t;
    PutHex(c, [], t, authority);
    t := t + Hex(authority, 16);
    PutText(c, [], t, Text("|cpus="));
    t := t + Text("|cpus=");
    PutDec(c, [], t, CPU_CAPACITY);
    t := t + Dec(CPU_CAPACITY);
    PutText(c, [], t, Text("\r\n"));
    Rebase(c, [], Opening(authority));
    assert [] + Opening(authority) == Opening(authority);
  }

  /**
   Formats one snapshot.  A buffer below the constant is refused; on any other buffer
   it succeeds exactly when the text fits, and then the buffer holds exactly the text.
   Records that a reader of the mirror can return always fit.
   */
  method FormatSnapshot(authority: nat, records: seq<Record>, buffer: array<Byte>) returns (r: Option<nat>)
    requires |records| == CPU_CAPACITY
    modifies buffer
    ensures buffer.Length < SNAPSHOT_MAX_BYTES ==> r == None && buffer[..] == old(buffer[..])
    ensures buffer.Length >= SNAPSHOT_MAX_BYTES ==> Formatted(SnapshotText(authority, records), buffer[..], r)
    ensures buffer.Length >= SNAPSHOT_MAX_BYTES && AllFit(records) ==> r.Some?
  {
    hide Opening, Line, AllFit;
    if buffer.Length < SNAPSHOT_MAX_BYTES {
      return None;
    }
    var c := new Cursor(buffer);
    assert c.Follows([], []);
    PutOpening(c, authority);
    var i := 0;
    assert Opening(authority) + Lines(records, 0) == Opening(authority);
    while i < |records|
      invariant i <= |records| && c.bytes == buffer && fresh(c)
      invariant c.Follows(Opening(authority) + Lines(records, i), [])
    {
      PutLine(c, Opening(authority) + Lines(records, i), i, records[i]);
      assert Opening(authority) + Lines(records, i) + Line(i, records[i]) == Opening(authority) + Lines(records, i + 1);
      i := i + 1;
    }
    if AllFit(records) { SnapshotFits(authority, records); }
    if c.overflowed {
      return None;
    }
    assert SnapshotText(authority, records) + [] == SnapshotText(authority, records);
    r := Some(c.written);
  }

  /** The last digit drawn from a longer suffix goes in front when the order is reversed. */
  function Backwards(s: seq<Byte>): (r: seq<Byte>)
    ensures |r| == |s|
  {
    if s == [] then [] else Backwards(s[1..]) + [s[0]]
  }

  lemma BackwardsFront(s: seq<Byte>, i: nat)
    requires i < |s|
    ensures Backwards(s[i..]) == Backwards(s[i + 1..]) + [s[i]]
  {
    assert s[i..][1..] == s[i + 1..];
  }

  lemma {:induction false} BackwardsAppend(s: seq<Byte>, b: Byte)
    ensures Backwards(s + [b]) == [b] + Backwards(s)
  {
    if s == [] {
      assert ([b])[1..] == [];
    } else {
      BackwardsAppend(s[1..], b);
      assert (s + [b])[1..] == s[1..] + [b];
    }
  }

  /** Digits least significant first: reversed, they are the decimal text. */
  method Digits(value: nat) returns (scratch: seq<Byte>)
    ensures Backwards(scratch) == Dec(value)
  {
    scratch := [48 + value % 10];
    var remaining: nat := value / 10;
    assert ([48 + value % 10])[1..] == [];
    while remaining != 0
      invariant Dec(value) == (if remaining == 0 then [] else Dec(remaining)) + Backwards(scratch)
      decreases remaining
    {
      BackwardsAppend(scratch, 48 + remaining % 10);
      scratch := scratch + [48 + remaining % 10];
      remaining := remaining / 10;
    }
  }

  /** One reader of one CPU's mirror that has returned. */
  datatype ReadRun = ReadRun(states: seq<State>, steps: seq<Step>, end: nat)

  ghost predicate Returned(r: ReadRun) {
    Run(r.states, r.steps) && r.end < |r.states| && r.states[r.end].reader.Finished?
  }

  ghost function RecordOf(r: ReadRun): Record
    requires Returned(r)
  {
    r.states[r.end].reader.record
  }

  /** Whatever the publishers did, the four records a snapshot reads always fit in 1231 bytes. */
  lemma MirrorAlwaysFormats(authority: nat, runs: seq<ReadRun>)
    requires |runs| == CPU_CAPACITY && forall i :: 0 <= i < |runs| ==> Returned(runs[i])
    ensures |SnapshotText(authority, seq(|runs|, i requires 0 <= i < |runs| => RecordOf(runs[i])))| <= 1231
  {
    hide Run, Opening, Lines;
    var records := seq(|runs|, i requires 0 <= i < |runs| => RecordOf(runs[i]));
    forall i | 0 <= i < |records| ensures RecordFits(records[i]) {
      EveryRecordFits(runs[i].states, runs[i].steps, runs[i].end);
    }
    SnapshotFits(authority, records);
  }
}
