/**
 The boot device table: record parsing, reserved hardware, pairwise checks, and
 minting only after everything passed (kernel/src/boot/device_table.rs:14-225).
 */
module DeviceTable {
  import opened Wrappers
  import opened LittleEndian
  import opened BootMemory
  import opened BootGrants

  const TABLE_SIZE: nat := 32
  const TABLE_VERSION: nat := 1
  const RECORD_SIZE: nat := 48
  const RECORD_VERSION: nat := 1
  const MAX_RESOURCES: nat := 8
  const KIND_PIO_WITH_INTERRUPT: nat := 1
  const COM1_START: nat := 0x3f8
  const COM1_END: nat := 0x400
  const COM1_SOURCE: nat := 4
  const PORT_LIMIT: nat := 0x1_0000

  datatype TableError =
    | InvalidTable
    | UnsupportedVersion
    | UnknownFlags
    | NonZeroReserved
    | ArithmeticOverflow
    | ReadFailure
    | InvalidResource
    | ProtectedResource
    | DuplicateId
    | DuplicateSource
    | Overlapping
    | GenerationsUsedUp

  // ----- One record -----

  /** What every parsed descriptor satisfies on its own. */
  predicate WellFormed(d: Descriptor) {
    && 0 < d.resource <= U64_MAX && d.correlation <= U64_MAX && d.kind == KIND_PIO_WITH_INTERRUPT
    && d.pioBase <= U16_MAX && 0 < d.pioLength <= U16_MAX && d.pioBase + d.pioLength <= PORT_LIMIT
    && 0 < d.interruptSource <= U32_MAX
  }

  /** Size and version words are right. */
  predicate Recognised(record: seq<Byte>)
    requires |record| == RECORD_SIZE
  {
    U32At(record, 0) == RECORD_SIZE && U32At(record, 4) == RECORD_VERSION
  }

  /** The bytes are a version 1 port-and-interrupt record with no flags and no spare bits, and say `d`. */
  predicate ResourceSays(record: seq<Byte>, d: Descriptor)
    requires |record| == RECORD_SIZE
  {
    && Recognised(record) && U32At(record, 12) == 0 && U64At(record, 40) == 0
    && d.resource == U64At(record, 16) && d.correlation == U64At(record, 24) && d.kind == U32At(record, 8)
    && d.pioBase == U16At(record, 32) && d.pioLength == U16At(record, 34) && d.interruptSource == U32At(record, 36)
    && WellFormed(d)
  }

  /** A record is refused with the error of its first fault: size, version, kind, flags, spare bits, then the fields. */
  function ParseResource(record: seq<Byte>): (r: Result<Descriptor, TableError>)
    requires |record| == RECORD_SIZE
    ensures r.Success? ==> ResourceSays(record, r.value)
    ensures r.Failure? ==> forall d :: !ResourceSays(record, d)
    ensures r.Failure? ==> r.error in {InvalidResource, UnsupportedVersion, UnknownFlags, NonZeroReserved}
    ensures r == Failure(UnsupportedVersion) <==> U32At(record, 0) == RECORD_SIZE && U32At(record, 4) != RECORD_VERSION
    ensures r == Failure(UnknownFlags) <==>
            Recognised(record) && U32At(record, 8) == KIND_PIO_WITH_INTERRUPT && U32At(record, 12) != 0
    ensures r == Failure(NonZeroReserved) <==>
            Recognised(record) && U32At(record, 8) == KIND_PIO_WITH_INTERRUPT && U32At(record, 12) == 0 && U64At(record, 40) != 0
  {
    if U32At(record, 0) != RECORD_SIZE then Failure(InvalidResource)
    else if U32At(record, 4) != RECORD_VERSION then Failure(UnsupportedVersion)
    else if U32At(record, 8) != KIND_PIO_WITH_INTERRUPT then Failure(InvalidResource)
    else if U32At(record, 12) != 0 then Failure(UnknownFlags)
    else if U64At(record, 40) != 0 then Failure(NonZeroReserved)
    else
      var d := Descriptor(U64At(record, 16), U64At(record, 24), U32At(record, 8),
                          U16At(record, 32), U16At(record, 34), U32At(record, 36));
      if d.resource == 0 || d.pioLength == 0 || d.interruptSource == 0 then Failure(InvalidResource)
      else if d.pioBase + d.pioLength > PORT_LIMIT then Failure(InvalidResource)
      else Success(d)
  }

  function EncodeResource(d: Descriptor): (record: seq<Byte>)
    ensures |record| == RECORD_SIZE
  {
    EncodeHead(d) + EncodeTail(d)
  }

  function EncodeHead(d: Descriptor): (head: seq<Byte>)
    ensures |head| == 32
  {
    Encode(RECORD_SIZE, 4) + Encode(RECORD_VERSION, 4) + Encode(d.kind, 4) + Encode(0, 4)
    + Encode(d.resource, 8) + Encode(d.correlation, 8)
  }

  function EncodeTail(d: Descriptor): (tail: seq<Byte>)
    ensures |tail| == 16
  {
    Encode(d.pioBase, 2) + Encode(d.pioLength, 2) + Encode(d.interruptSource, 4) + Encode(0, 8)
  }

  lemma HeadFields(d: Descriptor)
    ensures var e := EncodeHead(d);
            && e[0..4] == Encode(RECORD_SIZE, 4) && e[4..8] == Encode(RECORD_VERSION, 4)
            && e[8..12] == Encode(d.kind, 4) && e[12..16] == Encode(0, 4)
            && e[16..24] == Encode(d.resource, 8) && e[24..32] == Encode(d.correlation, 8)
  {
    hide Encode;
    assert EncodeHead(d)[24..32] == EncodeHead(d)[24..];
  }

  lemma TailFields(d: Descriptor)
    ensures var e := EncodeTail(d);
            && e[0..2] == Encode(d.pioBase, 2) && e[2..4] == Encode(d.pioLength, 2)
            && e[4..8] == Encode(d.interruptSource, 4) && e[8..16] == Encode(0, 8)
  {
    hide Encode;
    assert EncodeTail(d)[8..16] == EncodeTail(d)[8..];
  }

  /** Where each field of an encoded record lies. */
  lemma EncodedFields(d: Descriptor)
    ensures var e := EncodeResource(d);
            && e[0..4] == Encode(RECORD_SIZE, 4) && e[4..8] == Encode(RECORD_VERSION, 4)
            && e[8..12] == Encode(d.kind, 4) && e[12..16] == Encode(0, 4)
            && e[16..24] == Encode(d.resource, 8) && e[24..32] == Encode(d.correlation, 8)
            && e[32..34] == Encode(d.pioBase, 2) && e[34..36] == Encode(d.pioLength, 2)
            && e[36..40] == Encode(d.interruptSource, 4) && e[40..48] == Encode(0, 8)
  {
    hide Encode, EncodeHead, EncodeTail;
    HeadFields(d);
    TailFields(d);
    var e, head, tail := EncodeResource(d), EncodeHead(d), EncodeTail(d);
    assert e[0..4] == head[0..4] && e[4..8] == head[4..8] && e[8..12] == head[8..12];
    assert e[12..16] == head[12..16] && e[16..24] == head[16..24] && e[24..32] == head[24..32];
    assert e[32..34] == tail[0..2] && e[34..36] == tail[2..4] && e[36..40] == tail[4..8] && e[40..48] == tail[8..16];
  }

  /** Every well-formed descriptor has a record that parses back to it. */
  lemma ParseEncode(d: Descriptor)
    requires WellFormed(d)
    ensures ParseResource(EncodeResource(d)) == Success(d)
  {
    hide Encode, EncodeResource, Decode, Pow256;
    EncodedFields(d);
    Widths();
    DecodeEncode(RECORD_SIZE, 4);
    DecodeEncode(RECORD_VERSION, 4);
    DecodeEncode(d.kind, 4);
    DecodeEncode(0, 4);
    DecodeEncode(d.resource, 8);
    DecodeEncode(d.correlation, 8);
    DecodeEncode(d.pioBase, 2);
    DecodeEncode(d.pioLength, 2);
    DecodeEncode(d.interruptSource, 4);
    DecodeEncode(0, 8);
  }

  /** A descriptor has only one record: whatever parses to it is what encoding it gives. */
  lemma EncodeParse(record: seq<Byte>, d: Descriptor)
    requires |record| == RECORD_SIZE && ParseResource(record) == Success(d)
    ensures EncodeResource(d) == record
  {
    hide Encode, Decode, Pow256, EncodeHead, EncodeTail, WellFormed;
    EncodedFields(d);
    var e := EncodeResource(d);
    SameField(e, record, 0, 4, RECORD_SIZE);
    SameField(e, record, 4, 4, RECORD_VERSION);
    SameField(e, record, 8, 4, d.kind);
    SameField(e, record, 12, 4, 0);
    SameField(e, record, 16, 8, d.resource);
    SameField(e, record, 24, 8, d.correlation);
    SameField(e, record, 32, 2, d.pioBase);
    SameField(e, record, 34, 2, d.pioLength);
    SameField(e, record, 36, 4, d.interruptSource);
    SameField(e, record, 40, 8, 0);
  }

  lemma SameField(a: seq<Byte>, b: seq<Byte>, offset: nat, width: nat, n: nat)
    requires offset + width <= |a| == |b| && a[offset..offset + width] == Encode(n, width) && Decode(b[offset..offset + width]) == n
    ensures forall i :: offset <= i < offset + width ==> a[i] == b[i]
  {
    hide Encode, Decode;
    EncodeDecode(b[offset..offset + width]);
    forall i | offset <= i < offset + width ensures a[i] == b[i] {
      assert a[i] == a[offset..offset + width][i - offset] && b[i] == b[offset..offset + width][i - offset];
    }
  }

  // ----- The whole table -----

  predicate TouchesCom1(d: Descriptor) {
    (d.pioBase < COM1_END && COM1_START < d.pioBase + d.pioLength) || d.interruptSource == COM1_SOURCE
  }

  predicate PortsOverlap(a: Descriptor, b: Descriptor) {
    a.pioBase < b.pioBase + b.pioLength && b.pioBase < a.pioBase + a.pioLength
  }

  predicate Compatible(a: Descriptor, b: Descriptor) {
    a.resource != b.resource && a.interruptSource != b.interruptSource && !PortsOverlap(a, b)
  }

  predicate HasPort(d: Descriptor, p: nat) { d.pioBase <= p < d.pioBase + d.pioLength }

  /** The end-point tests, port by port: a serial port or line of the kernel's own, and a port in common. */
  lemma PortTestsMean(a: Descriptor, b: Descriptor)
    requires a.pioLength > 0 && b.pioLength > 0
    ensures TouchesCom1(a) <==> a.interruptSource == 4 || exists p: nat :: HasPort(a, p) && 0x3f8 <= p < 0x400
    ensures PortsOverlap(a, b) <==> exists p: nat :: HasPort(a, p) && HasPort(b, p)
  {
    var low := if a.pioBase < 0x3f8 then 0x3f8 else a.pioBase;
    assert TouchesCom1(a) && a.interruptSource != 4 ==> HasPort(a, low) && 0x3f8 <= low < 0x400;
    var meet := if a.pioBase < b.pioBase then b.pioBase else a.pioBase;
    assert PortsOverlap(a, b) ==> HasPort(a, meet) && HasPort(b, meet);
  }

  function HeaderCount(header: seq<Byte>, start: nat, length: nat): (r: Result<nat, TableError>)
    requires |header| == TABLE_SIZE
    ensures r.Success? <==> HeaderOk(header, start, length)
    ensures r.Success? ==> r.value == U32At(header, 8)
    ensures r.Failure? ==> r.error != GenerationsUsedUp
  {
    if U32At(header, 0) != TABLE_SIZE then Failure(InvalidTable)
    else if U32At(header, 4) != TABLE_VERSION then Failure(UnsupportedVersion)
    else if U32At(header, 8) == 0 || U32At(header, 8) > MAX_RESOURCES then Failure(InvalidTable)
    else if U32At(header, 12) != 0 then Failure(UnknownFlags)
    else if U32At(header, 16) != RECORD_SIZE then Failure(InvalidTable)
    else if U32At(header, 20) != 0 then Failure(NonZeroReserved)
    else
      var expected := TABLE_SIZE + U32At(header, 8) * RECORD_SIZE;
      if U64At(header, 24) != expected || length != expected then Failure(InvalidTable)
      else if start + expected > U64_MAX then Failure(ArithmeticOverflow)
      else Success(U32At(header, 8))
  }

  /** The header names this module exactly: version, count, stride and total length all agree. */
  predicate HeaderOk(header: seq<Byte>, start: nat, length: nat)
    requires |header| == TABLE_SIZE
  {
    var count := U32At(header, 8);
    && U32At(header, 0) == TABLE_SIZE && U32At(header, 4) == TABLE_VERSION && 0 < count <= MAX_RESOURCES
    && U32At(header, 12) == 0 && U32At(header, 16) == RECORD_SIZE && U32At(header, 20) == 0
    && U64At(header, 24) == length == TABLE_SIZE + count * RECORD_SIZE && start + length <= U64_MAX
  }

  function RecordAt(start: nat, i: nat): nat { start + TABLE_SIZE + i * RECORD_SIZE }

  /** Record `i` is readable and says `d`. */
  predicate RecordIs(memory: Memory, start: nat, i: nat, d: Descriptor) {
    && ReadExact(memory, RecordAt(start, i), RECORD_SIZE).Some?
    && ResourceSays(ReadExact(memory, RecordAt(start, i), RECORD_SIZE).value, d)
  }

  ghost predicate Unusable(memory: Memory, start: nat, i: nat) {
    forall d :: !RecordIs(memory, start, i, d)
  }

  /** The table in memory holds exactly these descriptors and every check passes. */
  ghost predicate Acceptable(memory: Memory, start: nat, length: nat, ds: seq<Descriptor>) {
    && length >= TABLE_SIZE && ReadExact(memory, start, TABLE_SIZE).Some?
    && HeaderOk(ReadExact(memory, start, TABLE_SIZE).value, start, length)
    && |ds| == U32At(ReadExact(memory, start, TABLE_SIZE).value, 8)
    && (forall i :: 0 <= i < |ds| ==> RecordIs(memory, start, i, ds[i]))
    && Sound(ds)
  }

  ghost predicate Sound(ds: seq<Descriptor>) {
    && (forall i :: 0 <= i < |ds| ==> !TouchesCom1(ds[i]))
    && (forall i, j :: 0 <= i < j < |ds| ==> Compatible(ds[i], ds[j]))
  }

  method ReadRecords(memory: Memory, start: nat, count: nat) returns (r: Result<seq<Descriptor>, TableError>)
    ensures r.Success? ==> |r.value| == count && forall i :: 0 <= i < count ==> RecordIs(memory, start, i, r.value[i])
    ensures r.Failure? ==> r.error != GenerationsUsedUp && exists i :: 0 <= i < count && Unusable(memory, start, i)
  {
    var ds: seq<Descriptor> := [];
    var i := 0;
    while i < count
      invariant i == |ds| <= count
      invariant forall j :: 0 <= j < i ==> RecordIs(memory, start, j, ds[j])
    {
      var bytes := ReadExact(memory, RecordAt(start, i), RECORD_SIZE);
      if bytes.None? {
        assert Unusable(memory, start, i);
        return Failure(ReadFailure);
      }
      var parsed := ParseResource(bytes.value);
      if parsed.Failure? {
        assert Unusable(memory, start, i);
        return Failure(parsed.error);
      }
      ds := ds + [parsed.value];
      i := i + 1;
    }
    r := Success(ds);
  }

  method CheckReserved(ds: seq<Descriptor>) returns (r: Result<(), TableError>)
    ensures r.Success? <==> forall i :: 0 <= i < |ds| ==> !TouchesCom1(ds[i])
    ensures r.Failure? ==> r.error == ProtectedResource
  {
    var i := 0;
    while i < |ds|
      invariant i <= |ds| && forall j :: 0 <= j < i ==> !TouchesCom1(ds[j])
    {
      if TouchesCom1(ds[i]) {
        return Failure(ProtectedResource);
      }
      i := i + 1;
    }
    r := Success(());
  }

  /** The first check a pair fails. */
  function PairError(a: Descriptor, b: Descriptor): Option<TableError> {
    if a.resource == b.resource then Some(DuplicateId)
    else if a.interruptSource == b.interruptSource then Some(DuplicateSource)
    else if PortsOverlap(a, b) then Some(Overlapping)
    else None
  }

  /** Pair (i, j) is the first incompatible one, row by row, and fails with `error`. */
  ghost predicate FirstBadPair(ds: seq<Descriptor>, i: nat, j: nat, error: TableError) {
    && i < j < |ds| && PairError(ds[i], ds[j]) == Some(error)
    && forall a, b :: 0 <= a < b < |ds| && (a < i || (a == i && b < j)) ==> Compatible(ds[a], ds[b])
  }

  /** Compares every pair once; the error is the first check the first bad pair fails. */
  method CheckPairs(ds: seq<Descriptor>) returns (r: Result<(), TableError>)
    ensures r.Success? <==> forall i, j :: 0 <= i < j < |ds| ==> Compatible(ds[i], ds[j])
    ensures r.Failure? ==> exists i, j :: FirstBadPair(ds, i, j, r.error)
    ensures r.Failure? ==> r.error in {DuplicateId, DuplicateSource, Overlapping}
  {
    var i := 0;
    while i < |ds|
      invariant i <= |ds|
      invariant forall a, b :: 0 <= a < i && a < b < |ds| ==> Compatible(ds[a], ds[b])
    {
      var j := i + 1;
      while j < |ds|
        invariant i < j <= |ds|
        invariant forall b :: i < b < j ==> Compatible(ds[i], ds[b])
      {
        if ds[i].resource == ds[j].resource {
          assert FirstBadPair(ds, i, j, DuplicateId);
          return Failure(DuplicateId);
        }
        if ds[i].interruptSource == ds[j].interruptSource {
          assert FirstBadPair(ds, i, j, DuplicateSource);
          return Failure(DuplicateSource);
        }
        if PortsOverlap(ds[i], ds[j]) {
          assert FirstBadPair(ds, i, j, Overlapping);
          return Failure(Overlapping);
        }
        j := j + 1;
      }
      i := i + 1;
    }
    r := Success(());
  }

  /**
   Parses the table and mints its grants.  It accepts exactly the acceptable tables;
   a refusal, for whatever reason, mints nothing.
   */
  method ParseBootResourceGrants(memory: Memory, start: nat, length: nat, mint: GrantMint)
    returns (r: Result<seq<Grant>, TableError>, ghost ds: seq<Descriptor>)
    requires mint.Valid()
    modifies mint
    ensures mint.Valid()
    ensures r.Failure? ==> mint.next == old(mint.next) && mint.issued == old(mint.issued)
    ensures r.Failure? && r.error != GenerationsUsedUp ==> forall es :: !Acceptable(memory, start, length, es)
    ensures r == Failure(GenerationsUsedUp) ==>
              Acceptable(memory, start, length, ds) && old(mint.next) + |ds| > U64_MAX
    ensures r.Success? ==>
              && Acceptable(memory, start, length, ds) && old(mint.next) + |ds| <= U64_MAX
              && Minted(r.value) && |r.value| == |ds| && (forall i :: 0 <= i < |ds| ==> r.value[i].descriptor == ds[i])
    ensures r.Success? ==> Advanced(old(mint.next), old(mint.issued), mint.next, mint.issued, r.value)
  {
    hide ReadExact, RecordIs, Unusable, HeaderOk, TouchesCom1, Compatible;
    ds := [];
    if length < TABLE_SIZE {
      return Failure(InvalidTable), [];
    }
    var header := ReadExact(memory, start, TABLE_SIZE);
    if header.None? {
      return Failure(ReadFailure), [];
    }
    var count := HeaderCount(header.value, start, length);
    if count.Failure? {
      return Failure(count.error), [];
    }
    var records := ReadRecords(memory, start, count.value);
    if records.Failure? {
      AcceptableReads(memory, start, length);
      return Failure(records.error), [];
    }
    ds := records.value;
    OneReading(memory, start, length, ds);
    var reserved := CheckReserved(records.value);
    if reserved.Failure? {
      return Failure(reserved.error), ds;
    }
    var pairs := CheckPairs(records.value);
    if pairs.Failure? {
      return Failure(pairs.error), ds;
    }
    var grants := mint.Materialize(records.value);
    match grants
    case Failure(TooMany) => return Failure(InvalidTable), ds;
    case Failure(_) => return Failure(GenerationsUsedUp), ds;
    case Success(minted) => return Success(minted), ds;
  }

  /** An acceptable table has no unusable record. */
  lemma AcceptableReads(memory: Memory, start: nat, length: nat)
    ensures forall es, i :: Acceptable(memory, start, length, es) && 0 <= i < |es| ==> !Unusable(memory, start, i)
  {
    forall es, i | Acceptable(memory, start, length, es) && 0 <= i < |es| ensures !Unusable(memory, start, i) {
      assert RecordIs(memory, start, i, es[i]);
    }
  }

  /** Memory holds at most one list of descriptors. */
  lemma OneReading(memory: Memory, start: nat, length: nat, ds: seq<Descriptor>)
    requires ReadExact(memory, start, TABLE_SIZE).Some? && |ds| == U32At(ReadExact(memory, start, TABLE_SIZE).value, 8)
    requires forall i :: 0 <= i < |ds| ==> RecordIs(memory, start, i, ds[i])
    ensures forall es :: Acceptable(memory, start, length, es) ==> es == ds
  {
    forall es | Acceptable(memory, start, length, es) ensures es == ds {
      forall i | 0 <= i < |ds| ensures es[i] == ds[i] {
        assert RecordIs(memory, start, i, es[i]) && RecordIs(memory, start, i, ds[i]);
      }
    }
  }

  lemma OneAcceptable(memory: Memory, start: nat, length: nat, ds: seq<Descriptor>)
    requires Acceptable(memory, start, length, ds)
    ensures forall es :: Acceptable(memory, start, length, es) ==> es == ds
  {
    hide ReadExact, RecordIs, HeaderOk, Sound;
    OneReading(memory, start, length, ds);
  }
}
