/**
 The text of a liveness snapshot can be read back: equal texts come from equal
 records (kernel/src/debug/liveness.rs:456-591).
 */
module LivenessText {
  import opened Wrappers
  import opened LivenessSeqlock
  import opened LivenessFormat

  predicate IsDigit(b: Byte) { 48 <= b < 58 }

  /** The text begins with something that is not a digit. */
  predicate Stops(s: seq<Byte>) { |s| > 0 && !IsDigit(s[0]) }

  lemma {:induction false} DecDigits(n: nat)
    ensures forall i :: 0 <= i < |Dec(n)| ==> IsDigit(Dec(n)[i])
  {
    if n >= 10 { DecDigits(n / 10); }
  }

  lemma SameWidth(a: seq<Byte>, b: seq<Byte>, y: seq<Byte>, z: seq<Byte>)
    requires a + y == b + z && |a| == |b|
    ensures a == b && y == z
  {
    assert a == (a + y)[..|a|] && b == (b + z)[..|b|];
    assert y == (a + y)[|a|..] && z == (b + z)[|b|..];
  }

  lemma NoLonger(n: nat, m: nat, y: seq<Byte>, z: seq<Byte>)
    requires Dec(n) + y == Dec(m) + z && Stops(y)
    ensures |Dec(m)| <= |Dec(n)|
  {
    hide Dec;
    DecDigits(m);
    assert (Dec(n) + y)[|Dec(n)|] == y[0];
    assert forall i :: 0 <= i < |Dec(m)| ==> (Dec(m) + z)[i] == Dec(m)[i];
  }

  /** A decimal number ends where its digits end. */
  lemma DecReads(n: nat, m: nat, y: seq<Byte>, z: seq<Byte>)
    requires Dec(n) + y == Dec(m) + z && Stops(y) && Stops(z)
    ensures n == m && y == z
  {
    hide Dec;
    NoLonger(n, m, y, z);
    NoLonger(m, n, z, y);
    SameWidth(Dec(n), Dec(m), y, z);
    DecRoundTrip(n);
    DecRoundTrip(m);
  }

  /** A labelled decimal field in front of a text. */
  function Field(tag: seq<Byte>, n: nat, y: seq<Byte>): seq<Byte> { tag + (Dec(n) + y) }

  lemma FieldReads(tag: seq<Byte>, n: nat, m: nat, y: seq<Byte>, z: seq<Byte>)
    requires Field(tag, n, y) == Field(tag, m, z) && Stops(y) && Stops(z)
    ensures n == m && y == z
  {
    hide Dec;
    SameWidth(tag, tag, Dec(n) + y, Dec(m) + z);
    DecReads(n, m, y, z);
  }

  // ----- The three sections of a line -----

  function FromQueue(r: Record, y: seq<Byte>): seq<Byte> { Field(Text("|queue="), r.placement.queue, y) }
  function FromRunnable(r: Record, y: seq<Byte>): seq<Byte> { Field(Text("|runnable_here="), r.placement.runnable, FromQueue(r, y)) }
  function FromGeneration(r: Record, y: seq<Byte>): seq<Byte> { Field(Text("|exec_gen="), r.placement.generation, FromRunnable(r, y)) }
  function FromPublications(r: Record, y: seq<Byte>): seq<Byte> { Field(Text("|publications="), r.publications, FromGeneration(r, y)) }
  function FromEvent(r: Record, y: seq<Byte>): seq<Byte> { Field(Text("|event="), r.event, FromPublications(r, y)) }

  lemma CountersInOrder(r: Record, y: seq<Byte>)
    ensures Counters(r) + y == FromEvent(r, y)
  {
    hide Text, Dec;
  }

  lemma LabelStops(tag: seq<Byte>, n: nat, y: seq<Byte>)
    requires Stops(tag)
    ensures Stops(Field(tag, n, y))
  {
  }

  lemma Labels()
    ensures Stops(Text("|event=")) && Stops(Text("|publications=")) && Stops(Text("|exec_gen="))
    ensures Stops(Text("|runnable_here=")) && Stops(Text("|queue="))
  {
    hide Text;
    TextAt("|event=", 0);
    TextAt("|publications=", 0);
    TextAt("|exec_gen=", 0);
    TextAt("|runnable_here=", 0);
    TextAt("|queue=", 0);
  }

  lemma CountersStop(r: Record, y: seq<Byte>)
    ensures Stops(FromQueue(r, y)) && Stops(FromRunnable(r, y)) && Stops(FromGeneration(r, y)) && Stops(FromPublications(r, y))
  {
    hide Text, Dec, Field;
    Labels();
    LabelStops(Text("|queue="), r.placement.queue, y);
    LabelStops(Text("|runnable_here="), r.placement.runnable, FromQueue(r, y));
    LabelStops(Text("|exec_gen="), r.placement.generation, FromRunnable(r, y));
    LabelStops(Text("|publications="), r.publications, FromGeneration(r, y));
  }

  lemma CountersRead(a: Record, b: Record, y: seq<Byte>, z: seq<Byte>)
    requires Counters(a) + y == Counters(b) + z && Stops(y) && Stops(z)
    ensures a.event == b.event && a.publications == b.publications && y == z
    ensures a.placement.generation == b.placement.generation && a.placement.runnable == b.placement.runnable
    ensures a.placement.queue == b.placement.queue
  {
    hide Counters, Text, Dec, Field, Stops;
    CountersInOrder(a, y);
    CountersInOrder(b, z);
    CountersStop(a, y);
    CountersStop(b, z);
    FieldReads(Text("|event="), a.event, b.event, FromPublications(a, y), FromPublications(b, z));
    FieldReads(Text("|publications="), a.publications, b.publications, FromGeneration(a, y), FromGeneration(b, z));
    FieldReads(Text("|exec_gen="), a.placement.generation, b.placement.generation, FromRunnable(a, y), FromRunnable(b, z));
    FieldReads(Text("|runnable_here="), a.placement.runnable, b.placement.runnable, FromQueue(a, y), FromQueue(b, z));
    FieldReads(Text("|queue="), a.placement.queue, b.placement.queue, y, z);
  }

  lemma HexReads(n: nat, m: nat)
    requires Hex(n, 16) == Hex(m, 16) && n <= U64_MAX && m <= U64_MAX
    ensures n == m
  {
    hide Hex;
    HexWordRoundTrip(n);
    HexWordRoundTrip(m);
  }

  /** Everything before the identity. */
  function Preamble(cpu: nat, stable: bool): seq<Byte> {
    Text("DWLIVE1|cpu=") + Dec(cpu) + Text(if stable then "|read=stable" else "|read=TORN")
  }

  function HexField(tag: seq<Byte>, n: nat, y: seq<Byte>): seq<Byte> { tag + (Hex(n, 16) + y) }

  function FromStack(id: Identity, y: seq<Byte>): seq<Byte> { HexField(Text("|stack="), id.stack, y) }
  function FromContext(id: Identity, y: seq<Byte>): seq<Byte> { HexField(Text("|context="), id.context, FromStack(id, y)) }
  function FromRoot(id: Identity, y: seq<Byte>): seq<Byte> { HexField(Text("|root="), id.root, FromContext(id, y)) }
  function FromProcess(id: Identity, y: seq<Byte>): seq<Byte> { HexField(Text("|process="), id.process, FromRoot(id, y)) }
  function FromThread(id: Identity, y: seq<Byte>): seq<Byte> { HexField(Text("|thread="), id.thread, FromProcess(id, y)) }

  lemma HeadInOrder(cpu: nat, r: Record, y: seq<Byte>)
    ensures Head(cpu, r) + y == Preamble(cpu, r.consistent) + FromThread(r.id, y)
  {
    hide Text, Dec, Hex;
  }

  lemma HexFieldReads(tag: seq<Byte>, n: nat, m: nat, y: seq<Byte>, z: seq<Byte>)
    requires HexField(tag, n, y) == HexField(tag, m, z) && n <= U64_MAX && m <= U64_MAX
    ensures n == m && y == z
  {
    hide Hex;
    SameWidth(tag, tag, Hex(n, 16) + y, Hex(m, 16) + z);
    SameWidth(Hex(n, 16), Hex(m, 16), y, z);
    HexReads(n, m);
  }

  lemma IdentityReads(a: Identity, b: Identity, y: seq<Byte>, z: seq<Byte>)
    requires FromThread(a, y) == FromThread(b, z) && IdentityFits(a) && IdentityFits(b)
    ensures a == b && y == z
  {
    hide Text, HexField;
    HexFieldReads(Text("|thread="), a.thread, b.thread, FromProcess(a, y), FromProcess(b, z));
    HexFieldReads(Text("|process="), a.process, b.process, FromRoot(a, y), FromRoot(b, z));
    HexFieldReads(Text("|root="), a.root, b.root, FromContext(a, y), FromContext(b, z));
    HexFieldReads(Text("|context="), a.context, b.context, FromStack(a, y), FromStack(b, z));
    HexFieldReads(Text("|stack="), a.stack, b.stack, y, z);
  }

  lemma PreambleMark(cpu: nat, stable: bool)
    ensures var n := 12 + |Dec(cpu)| + 6;
            n < |Preamble(cpu, stable)| && Preamble(cpu, stable)[n] == if stable then 115 else 84
  {
    hide Dec, Text;
    ReadMark();
    var mark := Text(if stable then "|read=stable" else "|read=TORN");
    assert Preamble(cpu, stable) == Text("DWLIVE1|cpu=") + Dec(cpu) + mark;
    assert Preamble(cpu, stable)[12 + |Dec(cpu)| + 6] == mark[6];
  }

  lemma ReadMark()
    ensures Text("|read=stable")[6] == 115 && Text("|read=TORN")[6] == 84
  {
    hide Text;
    TextAt("|read=stable", 6);
    TextAt("|read=TORN", 6);
  }

  lemma {:induction false} TextAt(s: string, i: nat)
    requires i < |s|
    ensures Text(s)[i] == s[i] as int % 256
  {
    if i > 0 { TextAt(s[1..], i - 1); }
  }

  lemma HeadReads(cpu: nat, a: Record, b: Record, y: seq<Byte>, z: seq<Byte>)
    requires Head(cpu, a) + y == Head(cpu, b) + z && IdentityFits(a.id) && IdentityFits(b.id)
    ensures a.consistent == b.consistent && a.id == b.id && y == z
  {
    hide Head, Preamble, FromThread, Dec;
    HeadInOrder(cpu, a, y);
    HeadInOrder(cpu, b, z);
    PreambleMark(cpu, a.consistent);
    PreambleMark(cpu, b.consistent);
    var n := 12 + |Dec(cpu)| + 6;
    assert (Preamble(cpu, a.consistent) + FromThread(a.id, y))[n] == Preamble(cpu, a.consistent)[n];
    assert (Preamble(cpu, b.consistent) + FromThread(b.id, z))[n] == Preamble(cpu, b.consistent)[n];
    SameWidth(Preamble(cpu, a.consistent), Preamble(cpu, b.consistent), FromThread(a.id, y), FromThread(b.id, z));
    IdentityReads(a.id, b.id, y, z);
  }

  function ReschedText(on: bool): seq<Byte> { Text(if on then "|resched=1" else "|resched=0") }
  function QuantumText(on: bool): seq<Byte> { Text(if on then "|quantum=1" else "|quantum=0") }

  lemma FlagMarks(on: bool)
    ensures |ReschedText(on)| == |QuantumText(on)| == 10
    ensures ReschedText(on)[9] == QuantumText(on)[9] == if on then 49 else 48
  {
    hide Text;
    TextAt("|resched=1", 9);
    TextAt("|resched=0", 9);
    TextAt("|quantum=1", 9);
    TextAt("|quantum=0", 9);
  }

  function WakeText(target: nat): seq<Byte> { if target == NO_CPU then Text("none") else Dec(target) }

  lemma WakeReads(t: nat, u: nat, y: seq<Byte>, z: seq<Byte>)
    requires WakeText(t) + y == WakeText(u) + z && Stops(y) && Stops(z)
    ensures t == u && y == z
  {
    hide Dec, Text;
    TextAt("none", 0);
    DecDigits(t);
    DecDigits(u);
    assert (WakeText(t) + y)[0] == WakeText(t)[0] && (WakeText(u) + z)[0] == WakeText(u)[0];
    if t == NO_CPU {
      SameWidth(Text("none"), Text("none"), y, z);
    } else {
      DecReads(t, u, y, z);
    }
  }

  function FromWake(r: Record, y: seq<Byte>): seq<Byte> {
    Text("|wake_target=") + (WakeText(r.placement.wakeTarget) + (Text("\r\n") + y))
  }

  lemma TailInOrder(r: Record, y: seq<Byte>)
    ensures Tail(r) + y == ReschedText(r.placement.reschedule) + (QuantumText(r.placement.quantum) + FromWake(r, y))
  {
    hide Text, Dec;
  }

  lemma EndStops(y: seq<Byte>)
    ensures Stops(Text("\r\n") + y)
  {
    hide Text;
    TextAt("\r\n", 0);
  }

  lemma FromWakeReads(a: Record, b: Record, y: seq<Byte>, z: seq<Byte>)
    requires FromWake(a, y) == FromWake(b, z)
    ensures a.placement.wakeTarget == b.placement.wakeTarget && y == z
  {
    hide Text, WakeText, Stops;
    var wake, end := Text("|wake_target="), Text("\r\n");
    SameWidth(wake, wake, WakeText(a.placement.wakeTarget) + (end + y), WakeText(b.placement.wakeTarget) + (end + z));
    EndStops(y);
    EndStops(z);
    WakeReads(a.placement.wakeTarget, b.placement.wakeTarget, end + y, end + z);
    SameWidth(end, end, y, z);
  }

  lemma TailReads(a: Record, b: Record, y: seq<Byte>, z: seq<Byte>)
    requires Tail(a) + y == Tail(b) + z
    ensures a.placement.reschedule == b.placement.reschedule && a.placement.quantum == b.placement.quantum
    ensures a.placement.wakeTarget == b.placement.wakeTarget && y == z
  {
    hide Tail, FromWake, ReschedText, QuantumText;
    var p, q := a.placement, b.placement;
    TailInOrder(a, y);
    TailInOrder(b, z);
    FlagMarks(p.reschedule);
    FlagMarks(q.reschedule);
    FlagMarks(p.quantum);
    FlagMarks(q.quantum);
    SameWidth(ReschedText(p.reschedule), ReschedText(q.reschedule),
              QuantumText(p.quantum) + FromWake(a, y), QuantumText(q.quantum) + FromWake(b, z));
    SameWidth(QuantumText(p.quantum), QuantumText(q.quantum), FromWake(a, y), FromWake(b, z));
    FromWakeReads(a, b, y, z);
  }

  lemma TailStops(r: Record, y: seq<Byte>)
    ensures Stops(Tail(r) + y)
  {
    hide FromWake, QuantumText, Text;
    TailInOrder(r, y);
    TextAt("|resched=1", 0);
    TextAt("|resched=0", 0);
  }

  // ----- Lines and snapshots -----

  lemma LineReads(cpu: nat, a: Record, b: Record, y: seq<Byte>, z: seq<Byte>)
    requires Line(cpu, a) + y == Line(cpu, b) + z && IdentityFits(a.id) && IdentityFits(b.id)
    ensures a == b && y == z
  {
    hide Head, Counters, Tail, IdentityFits, Stops;
    assert Line(cpu, a) + y == Head(cpu, a) + (Counters(a) + (Tail(a) + y));
    assert Line(cpu, b) + z == Head(cpu, b) + (Counters(b) + (Tail(b) + z));
    HeadReads(cpu, a, b, Counters(a) + (Tail(a) + y), Counters(b) + (Tail(b) + z));
    TailStops(a, y);
    TailStops(b, z);
    CountersRead(a, b, Tail(a) + y, Tail(b) + z);
    TailReads(a, b, y, z);
  }

  lemma {:induction false} LinesRead(a: seq<Record>, b: seq<Record>, n: nat, y: seq<Byte>, z: seq<Byte>)
    requires n <= |a| == |b| && Lines(a, n) + y == Lines(b, n) + z
    requires forall i :: 0 <= i < n ==> IdentityFits(a[i].id) && IdentityFits(b[i].id)
    ensures a[..n] == b[..n] && y == z
    decreases n
  {
    hide Line, IdentityFits;
    if n > 0 {
      var k := n - 1;
      assert Lines(a, n) + y == Lines(a, k) + (Line(k, a[k]) + y);
      assert Lines(b, n) + z == Lines(b, k) + (Line(k, b[k]) + z);
      LinesRead(a, b, k, Line(k, a[k]) + y, Line(k, b[k]) + z);
      LineReads(k, a[k], b[k], y, z);
      assert a[..n] == a[..k] + [a[k]] && b[..n] == b[..k] + [b[k]];
    } else {
      assert Lines(a, 0) + y == y && Lines(b, 0) + z == z;
    }
  }

  lemma OpeningReads(authority: nat, other: nat, y: seq<Byte>, z: seq<Byte>)
    requires Opening(authority) + y == Opening(other) + z && authority <= U64_MAX && other <= U64_MAX
    ensures authority == other && y == z
  {
    hide Text, Hex, Dec;
    var rest := Text("|cpus=") + Dec(CPU_CAPACITY) + Text("\r\n");
    assert Opening(authority) + y == HexField(Text("DWLIVE1|authority="), authority, rest + y);
    assert Opening(other) + z == HexField(Text("DWLIVE1|authority="), other, rest + z);
    HexFieldReads(Text("DWLIVE1|authority="), authority, other, rest + y, rest + z);
    SameWidth(rest, rest, y, z);
  }

  /** The text determines the authority and every field of every record it was made from. */
  lemma SnapshotReads(authority: nat, other: nat, a: seq<Record>, b: seq<Record>)
    requires |a| == |b| && AllFit(a) && AllFit(b) && authority <= U64_MAX && other <= U64_MAX
    requires SnapshotText(authority, a) == SnapshotText(other, b)
    ensures authority == other && a == b
  {
    hide Opening, Lines, IdentityFits;
    OpeningReads(authority, other, Lines(a, |a|), Lines(b, |b|));
    assert Lines(a, |a|) + [] == Lines(a, |a|) && Lines(b, |b|) + [] == Lines(b, |b|);
    LinesRead(a, b, |a|, [], []);
    assert a[..|a|] == a && b[..|b|] == b;
  }
}
