/**
 Ranges, tables and records of the boot handoff
 (kernel/src/boot/validation.rs:14-163, 395-635).
 */
module BootRecords {
  import opened Wrappers
  import opened LittleEndian
  import opened Pages

  const BOOT_INFO_SIZE: nat := 312
  const RECORD_BYTES: nat := 64
  const KIND_RESERVED_MEMORY: nat := 2
  const KIND_BOOTSTRAP: nat := 1
  const KIND_BOOTFS: nat := 2
  const KIND_PAGING: nat := 3
  const KIND_DEVICE_TABLE: nat := 4
  const FLAG_READ_ONLY: nat := 1

  datatype BootError =
    | ReadFailed
    | UnalignedAddress
    | Overflow
    | EmptyRange
    | UnsupportedVersion
    | StructureTooSmall
    | StructureLargerThanStride
    | NonZeroReserved
    | UnknownFlags
    | UnknownMemoryKind
    | UnknownModuleKind
    | UnknownPixelFormat
    | UnknownEntropySource
    | InvalidTable
    | EntryCountLimitExceeded
    | MissingRequiredModule
    | DuplicateRequiredModule
    | DuplicateDeviceModule
    | OverlappingModules
    | InvalidModuleFlags
    | InvalidFramebuffer
    | InvalidEntropy
    | InvalidCommandLine
    | InvalidPagingHandoff
    | FrameRoleOverlap
    | FrameNotReserved
    | InvalidDeviceTable

  datatype Range = Range(start: nat, length: nat)

  predicate InRange(r: Range, a: nat) { r.start <= a < r.start + r.length }

  /** No byte belongs to both ranges. */
  ghost predicate Disjoint(l: Range, r: Range) {
    forall a: nat :: !(InRange(l, a) && InRange(r, a))
  }

  predicate FitsU64(r: Range) { r.start + r.length <= U64_MAX }

  function CheckedRange(start: nat, length: nat, alignment: nat): (r: Result<Range, BootError>)
    requires alignment > 0
    ensures r.Success? <==> length > 0 && start % alignment == 0 && start + length <= U64_MAX
    ensures r.Success? ==> r.value == Range(start, length)
    ensures r == Failure(EmptyRange) <==> length == 0
    ensures r == Failure(UnalignedAddress) <==> length > 0 && start % alignment != 0
    ensures r == Failure(Overflow) <==> length > 0 && start % alignment == 0 && start + length > U64_MAX
  {
    if length == 0 then Failure(EmptyRange)
    else if start % alignment != 0 then Failure(UnalignedAddress)
    else if start + length > U64_MAX then Failure(Overflow)
    else Success(Range(start, length))
  }

  /** Two zeros are no range; anything else must be a nonempty addressable one. */
  predicate OptionalSays(start: nat, length: nat, r: Option<Range>) {
    match r
    case None => start == 0 && length == 0
    case Some(range) => range == Range(start, length) && length > 0 && start + length <= U64_MAX
  }

  function OptionalRange(start: nat, length: nat, error: BootError): (r: Result<Option<Range>, BootError>)
    ensures r.Success? ==> OptionalSays(start, length, r.value)
    ensures r.Failure? ==> r.error == error && forall range :: !OptionalSays(start, length, range)
  {
    if start == 0 && length == 0 then Success(None)
    else
      match CheckedRange(start, length, 1)
      case Success(range) => Success(Some(range))
      case Failure(_) => Failure(error)
  }

  function RangesOverlap(l: Range, r: Range): Result<bool, BootError> {
    if !FitsU64(l) || !FitsU64(r) then Failure(Overflow)
    else Success(l.start < r.start + r.length && r.start < l.start + l.length)
  }

  /** Both ranges fit in an address and the overlap test says no. */
  predicate Clear(l: Range, r: Range) { RangesOverlap(l, r) == Success(false) }

  /** The end-point test decides byte disjointness for nonempty ranges. */
  lemma ClearIsDisjoint(l: Range, r: Range)
    requires FitsU64(l) && FitsU64(r) && l.length > 0 && r.length > 0
    ensures Clear(l, r) <==> Disjoint(l, r)
  {
    if !Clear(l, r) {
      var a := if l.start < r.start then r.start else l.start;
      assert InRange(l, a) && InRange(r, a);
    }
  }

  // ----- Records -----

  function RecordHeader(size: nat, version: nat, minimum: nat, expected: nat, stride: Option<nat>): Result<(), BootError> {
    if version != expected then Failure(UnsupportedVersion)
    else if size < minimum then Failure(StructureTooSmall)
    else if stride.Some? && size > stride.value then Failure(StructureLargerThanStride)
    else Success(())
  }

  datatype MemoryRecord = MemoryRecord(kind: nat, start: nat, pages: nat)

  function MemoryRange(m: MemoryRecord): Range { Range(m.start, m.pages * PAGE_SIZE) }

  predicate MemoryOk(m: MemoryRecord) {
    1 <= m.kind <= 7 && m.pages > 0 && m.start % PAGE_SIZE == 0 && FitsU64(MemoryRange(m))
  }

  /** The bytes are a version 1 memory record that fits the stride, with its spare words zero, and say `m`. */
  predicate MemorySays(b: seq<Byte>, stride: nat, m: MemoryRecord)
    requires |b| == RECORD_BYTES
  {
    && RECORD_BYTES <= U32At(b, 0) <= stride && U32At(b, 4) == 1 && U32At(b, 12) == 0
    && U64At(b, 40) == 0 && U64At(b, 48) == 0 && U64At(b, 56) == 0
    && m.kind == U32At(b, 8) && m.start == U64At(b, 16) && m.pages == U64At(b, 24) && MemoryOk(m)
  }

  function ParseMemoryRange(b: seq<Byte>, stride: nat): (r: Result<MemoryRecord, BootError>)
    requires |b| == RECORD_BYTES
    ensures r.Success? ==> MemorySays(b, stride, r.value)
    ensures r.Failure? ==> forall m :: !MemorySays(b, stride, m)
  {
    match RecordHeader(U32At(b, 0), U32At(b, 4), RECORD_BYTES, 1, Some(stride))
    case Failure(e) => Failure(e)
    case Success(_) =>
      if U32At(b, 12) != 0 then Failure(NonZeroReserved)
      else if U64At(b, 40) != 0 || U64At(b, 48) != 0 || U64At(b, 56) != 0 then Failure(NonZeroReserved)
      else
        var m := MemoryRecord(U32At(b, 8), U64At(b, 16), U64At(b, 24));
        if m.kind < 1 || m.kind > 7 then Failure(UnknownMemoryKind)
        else if m.pages == 0 then Failure(EmptyRange)
        else if m.pages * PAGE_SIZE > U64_MAX then Failure(Overflow)
        else
          match CheckedRange(m.start, m.pages * PAGE_SIZE, PAGE_SIZE)
          case Failure(e) => Failure(e)
          case Success(_) => Success(m)
  }

  /** `error` names the first fault of a memory record: version, size, spare words, kind, pages, range. */
  predicate MemoryFault(b: seq<Byte>, stride: nat, error: BootError)
    requires |b| == RECORD_BYTES
  {
    var framed := U32At(b, 4) == 1 && 64 <= U32At(b, 0) <= stride;
    var spare := framed && U32At(b, 12) == 0 && U64At(b, 40) == 0 && U64At(b, 48) == 0 && U64At(b, 56) == 0;
    var known := spare && 1 <= U32At(b, 8) <= 7;
    var bytes := U64At(b, 24) * 4096;
    match error
    case UnsupportedVersion => U32At(b, 4) != 1
    case StructureTooSmall => U32At(b, 4) == 1 && U32At(b, 0) < 64
    case StructureLargerThanStride => U32At(b, 4) == 1 && 64 <= U32At(b, 0) && U32At(b, 0) > stride
    case NonZeroReserved => framed && !spare
    case UnknownMemoryKind => spare && !known
    case EmptyRange => known && U64At(b, 24) == 0
    case UnalignedAddress => known && 0 < bytes <= U64_MAX && U64At(b, 16) % 4096 != 0
    case Overflow => known && bytes > 0 && (bytes > U64_MAX || (U64At(b, 16) % 4096 == 0 && U64At(b, 16) + bytes > U64_MAX))
    case _ => false
  }

  lemma MemoryFaultNamed(b: seq<Byte>, stride: nat)
    requires |b| == RECORD_BYTES
    ensures ParseMemoryRange(b, stride).Failure? ==> MemoryFault(b, stride, ParseMemoryRange(b, stride).error)
  {
    hide U32At, U64At;
  }

  datatype Module = Module(kind: nat, flags: nat, start: nat, length: nat)

  function ModuleRange(m: Module): Range { Range(m.start, m.length) }

  predicate ModuleOk(m: Module) {
    m.flags <= FLAG_READ_ONLY && m.length > 0 && m.start % PAGE_SIZE == 0 && FitsU64(ModuleRange(m))
  }

  /** The bytes are a version 1 module record that fits the stride, with its spare words zero, and say `m`. */
  predicate ModuleSays(b: seq<Byte>, stride: nat, m: Module)
    requires |b| == RECORD_BYTES
  {
    && RECORD_BYTES <= U32At(b, 0) <= stride && U32At(b, 4) == 1
    && U64At(b, 32) == 0 && U64At(b, 40) == 0 && U64At(b, 48) == 0 && U64At(b, 56) == 0
    && m.kind == U32At(b, 8) && m.flags == U32At(b, 12) && m.start == U64At(b, 16) && m.length == U64At(b, 24) && ModuleOk(m)
  }

  function ParseModule(b: seq<Byte>, stride: nat): (r: Result<Module, BootError>)
    requires |b| == RECORD_BYTES
    ensures r.Success? ==> ModuleSays(b, stride, r.value)
    ensures r.Failure? ==> forall m :: !ModuleSays(b, stride, m)
  {
    match RecordHeader(U32At(b, 0), U32At(b, 4), RECORD_BYTES, 1, Some(stride))
    case Failure(e) => Failure(e)
    case Success(_) =>
      if U64At(b, 32) != 0 || U64At(b, 40) != 0 || U64At(b, 48) != 0 || U64At(b, 56) != 0 then Failure(NonZeroReserved)
      else if U32At(b, 12) > FLAG_READ_ONLY then Failure(UnknownFlags)
      else
        match CheckedRange(U64At(b, 16), U64At(b, 24), PAGE_SIZE)
        case Failure(e) => Failure(e)
        case Success(range) => Success(Module(U32At(b, 8), U32At(b, 12), range.start, range.length))
  }

  /** `error` names the first fault of a module record: version, size, spare words, flags, range. */
  predicate ModuleFault(b: seq<Byte>, stride: nat, error: BootError)
    requires |b| == RECORD_BYTES
  {
    var framed := U32At(b, 4) == 1 && 64 <= U32At(b, 0) <= stride;
    var spare := framed && U64At(b, 32) == 0 && U64At(b, 40) == 0 && U64At(b, 48) == 0 && U64At(b, 56) == 0;
    var flagged := spare && U32At(b, 12) <= 1;
    match error
    case UnsupportedVersion => U32At(b, 4) != 1
    case StructureTooSmall => U32At(b, 4) == 1 && U32At(b, 0) < 64
    case StructureLargerThanStride => U32At(b, 4) == 1 && 64 <= U32At(b, 0) && U32At(b, 0) > stride
    case NonZeroReserved => framed && !spare
    case UnknownFlags => spare && !flagged
    case EmptyRange => flagged && U64At(b, 24) == 0
    case UnalignedAddress => flagged && U64At(b, 24) > 0 && U64At(b, 16) % 4096 != 0
    case Overflow => flagged && U64At(b, 24) > 0 && U64At(b, 16) % 4096 == 0 && U64At(b, 16) + U64At(b, 24) > U64_MAX
    case _ => false
  }

  lemma ModuleFaultNamed(b: seq<Byte>, stride: nat)
    requires |b| == RECORD_BYTES
    ensures ParseModule(b, stride).Failure? ==> ModuleFault(b, stride, ParseModule(b, stride).error)
  {
    hide U32At, U64At;
  }

  // ----- Written and read back -----

  /** The two kinds of record share a layout: four words, two double words, and a tail of double words. */
  function EncodeRecord(words: (nat, nat, nat, nat), a: nat, b: nat, tail: (nat, nat, nat, nat)): (record: seq<Byte>)
    ensures |record| == RECORD_BYTES
  {
    RecordHead(words, a, b) + RecordTail(tail)
  }

  function RecordHead(words: (nat, nat, nat, nat), a: nat, b: nat): (head: seq<Byte>)
    ensures |head| == 32
  {
    Encode(words.0, 4) + Encode(words.1, 4) + Encode(words.2, 4) + Encode(words.3, 4) + Encode(a, 8) + Encode(b, 8)
  }

  function RecordTail(tail: (nat, nat, nat, nat)): (bytes: seq<Byte>)
    ensures |bytes| == 32
  {
    Encode(tail.0, 8) + Encode(tail.1, 8) + Encode(tail.2, 8) + Encode(tail.3, 8)
  }

  lemma HeadFields(words: (nat, nat, nat, nat), a: nat, b: nat)
    ensures var h := RecordHead(words, a, b);
            && h[0..4] == Encode(words.0, 4) && h[4..8] == Encode(words.1, 4)
            && h[8..12] == Encode(words.2, 4) && h[12..16] == Encode(words.3, 4)
            && h[16..24] == Encode(a, 8) && h[24..32] == Encode(b, 8)
  {
    hide Encode;
    assert RecordHead(words, a, b)[24..32] == RecordHead(words, a, b)[24..];
  }

  lemma TailFields(tail: (nat, nat, nat, nat))
    ensures var t := RecordTail(tail);
            && t[0..8] == Encode(tail.0, 8) && t[8..16] == Encode(tail.1, 8)
            && t[16..24] == Encode(tail.2, 8) && t[24..32] == Encode(tail.3, 8)
  {
    hide Encode;
    assert RecordTail(tail)[24..32] == RecordTail(tail)[24..];
  }

  /** Every field of an encoded record is read back from its own offset. */
  lemma RecordFields(words: (nat, nat, nat, nat), a: nat, b: nat, tail: (nat, nat, nat, nat))
    requires words.0 <= U32_MAX && words.1 <= U32_MAX && words.2 <= U32_MAX && words.3 <= U32_MAX
    requires a <= U64_MAX && b <= U64_MAX
    requires tail.0 <= U64_MAX && tail.1 <= U64_MAX && tail.2 <= U64_MAX && tail.3 <= U64_MAX
    ensures var r := EncodeRecord(words, a, b, tail);
            && U32At(r, 0) == words.0 && U32At(r, 4) == words.1 && U32At(r, 8) == words.2 && U32At(r, 12) == words.3
            && U64At(r, 16) == a && U64At(r, 24) == b
            && U64At(r, 32) == tail.0 && U64At(r, 40) == tail.1 && U64At(r, 48) == tail.2 && U64At(r, 56) == tail.3
  {
    hide Encode, Decode, Pow256, RecordHead, RecordTail;
    HeadFields(words, a, b);
    TailFields(tail);
    Widths();
    var r, h, t := EncodeRecord(words, a, b, tail), RecordHead(words, a, b), RecordTail(tail);
    assert r[0..4] == h[0..4] && r[4..8] == h[4..8] && r[8..12] == h[8..12] && r[12..16] == h[12..16];
    assert r[16..24] == h[16..24] && r[24..32] == h[24..32];
    assert r[32..40] == t[0..8] && r[40..48] == t[8..16] && r[48..56] == t[16..24] && r[56..64] == t[24..32];
    DecodeEncode(words.0, 4);
    DecodeEncode(words.1, 4);
    DecodeEncode(words.2, 4);
    DecodeEncode(words.3, 4);
    DecodeEncode(a, 8);
    DecodeEncode(b, 8);
    DecodeEncode(tail.0, 8);
    DecodeEncode(tail.1, 8);
    DecodeEncode(tail.2, 8);
    DecodeEncode(tail.3, 8);
  }

  /** Every acceptable module has a record, under any stride, that parses back to it. */
  lemma ModuleRoundTrip(m: Module, stride: nat)
    requires ModuleOk(m) && m.kind <= U32_MAX && stride >= RECORD_BYTES
    ensures ParseModule(EncodeRecord((RECORD_BYTES, 1, m.kind, m.flags), m.start, m.length, (0, 0, 0, 0)), stride) == Success(m)
  {
    hide EncodeRecord;
    RecordFields((RECORD_BYTES, 1, m.kind, m.flags), m.start, m.length, (0, 0, 0, 0));
  }

  /** Every acceptable memory record, with any firmware attributes, parses back to itself. */
  lemma MemoryRoundTrip(m: MemoryRecord, attributes: nat, stride: nat)
    requires MemoryOk(m) && attributes <= U64_MAX && stride >= RECORD_BYTES
    ensures ParseMemoryRange(EncodeRecord((RECORD_BYTES, 1, m.kind, 0), m.start, m.pages, (attributes, 0, 0, 0)), stride) == Success(m)
  {
    hide EncodeRecord;
    RecordFields((RECORD_BYTES, 1, m.kind, 0), m.start, m.pages, (attributes, 0, 0, 0));
  }

  // ----- Tables -----

  datatype Table = Table(start: nat, count: nat, stride: nat)

  function TableRange(t: Table): Range { Range(t.start, t.count * t.stride) }

  predicate TableOk(t: Table, limit: nat) {
    0 < t.count <= limit && t.stride >= RECORD_BYTES && t.stride % 8 == 0 && t.start % 8 == 0 && FitsU64(TableRange(t))
  }

  function ValidateTable(start: nat, count: nat, stride: nat, limit: nat): (r: Result<Table, BootError>)
    ensures r.Success? <==> TableOk(Table(start, count, stride), limit)
    ensures r.Success? ==> r.value == Table(start, count, stride)
    ensures r == Failure(EntryCountLimitExceeded) <==> count == 0 || count > limit
    ensures r == Failure(InvalidTable) <==> 0 < count <= limit && (stride < 64 || stride % 8 != 0)
    ensures r.Failure? ==> r.error in {EntryCountLimitExceeded, InvalidTable, UnalignedAddress, Overflow}
    ensures r == Failure(UnalignedAddress) <==>
            0 < count <= limit && stride >= 64 && stride % 8 == 0 && count * stride <= U64_MAX && start % 8 != 0
  {
    if count == 0 || count > limit then Failure(EntryCountLimitExceeded)
    else if stride < RECORD_BYTES || stride % 8 != 0 then Failure(InvalidTable)
    else if count * stride > U64_MAX then Failure(Overflow)
    else
      match CheckedRange(start, count * stride, 8)
      case Failure(e) => Failure(e)
      case Success(_) => Success(Table(start, count, stride))
  }

  function EntryAt(t: Table, i: nat): nat { t.start + i * t.stride }

  // ----- Framebuffer and entropy -----

  predicate AllZero(b: seq<Byte>) { forall i :: 0 <= i < |b| ==> b[i] == 0 }

  predicate MasksMeet(a: nat, b: nat)
    requires a <= U32_MAX && b <= U32_MAX
  {
    (a as bv32) & (b as bv32) != 0
  }

  /** A bit-mask pixel format needs three nonzero colour masks and no two masks sharing a bit. */
  predicate MasksBad(red: nat, green: nat, blue: nat, spare: nat)
    requires red <= U32_MAX && green <= U32_MAX && blue <= U32_MAX && spare <= U32_MAX
  {
    || red == 0 || green == 0 || blue == 0
    || MasksMeet(red, green) || MasksMeet(red, blue) || MasksMeet(red, spare)
    || MasksMeet(green, blue) || MasksMeet(green, spare) || MasksMeet(blue, spare)
  }

  /** A linear framebuffer of a known format whose memory holds every scan line and whose masks suit the format. */
  predicate FramebufferOk(b: seq<Byte>)
    requires |b| == 96
  {
    var format, width, height, scan := U32At(b, 12), U32At(b, 32), U32At(b, 36), U32At(b, 40);
    && U32At(b, 0) >= 96 && U32At(b, 4) == 1 && U32At(b, 8) == 1 && U32At(b, 44) == 0 && AllZero(b[64..96])
    && 1 <= format <= 3 && 0 < width <= scan && 0 < height
    && scan * height * 4 <= U64At(b, 24) && U64At(b, 16) + U64At(b, 24) <= U64_MAX
    && (if format == 3 then !MasksBad(U32At(b, 48), U32At(b, 52), U32At(b, 56), U32At(b, 60))
        else U32At(b, 48) == U32At(b, 52) == U32At(b, 56) == U32At(b, 60) == 0)
  }

  predicate FramebufferSays(present: bool, b: seq<Byte>, r: Option<Range>)
    requires |b| == 96
  {
    if present then FramebufferOk(b) && r == Some(Range(U64At(b, 16), U64At(b, 24))) else AllZero(b) && r == None
  }

  function ValidateFramebuffer(present: bool, b: seq<Byte>): (r: Result<Option<Range>, BootError>)
    requires |b| == 96
    ensures r.Success? ==> FramebufferSays(present, b, r.value)
    ensures r.Failure? ==> forall range :: !FramebufferSays(present, b, range)
    ensures r.Success? && r.value.Some? ==> FitsU64(r.value.value) && r.value.value.length > 0
  {
    if !present then (if AllZero(b) then Success(None) else Failure(InvalidFramebuffer))
    else if RecordHeader(U32At(b, 0), U32At(b, 4), 96, 1, None).Failure? then Failure(InvalidFramebuffer)
    else if U32At(b, 8) != 1 || U32At(b, 44) != 0 || !AllZero(b[64..96]) then Failure(InvalidFramebuffer)
    else if U32At(b, 12) < 1 || U32At(b, 12) > 3 then Failure(UnknownPixelFormat)
    else if U32At(b, 32) == 0 || U32At(b, 36) == 0 || U32At(b, 40) < U32At(b, 32) then Failure(InvalidFramebuffer)
    else
      var least := U32At(b, 40) * U32At(b, 36) * 4;
      if least > U64_MAX then Failure(Overflow)
      else if U64At(b, 24) < least then Failure(InvalidFramebuffer)
      else
        match CheckedRange(U64At(b, 16), U64At(b, 24), 1)
        case Failure(e) => Failure(e)
        case Success(range) =>
          if U32At(b, 12) == 3 then
            if MasksBad(U32At(b, 48), U32At(b, 52), U32At(b, 56), U32At(b, 60)) then Failure(InvalidFramebuffer)
            else Success(Some(range))
          else if U32At(b, 48) != 0 || U32At(b, 52) != 0 || U32At(b, 56) != 0 || U32At(b, 60) != 0 then
            Failure(InvalidFramebuffer)
          else Success(Some(range))
  }

  /** Entropy of a known source, with no range at all or an addressable one. */
  predicate EntropyOk(b: seq<Byte>)
    requires |b| == 64
  {
    && U32At(b, 0) >= 64 && U32At(b, 4) == 1 && U32At(b, 12) <= 1 && AllZero(b[32..64]) && 1 <= U32At(b, 8) <= 3
    && (U64At(b, 24) == 0 ==> U64At(b, 16) == 0) && U64At(b, 16) + U64At(b, 24) <= U64_MAX
  }

  predicate EntropySays(b: seq<Byte>, r: Option<Range>)
    requires |b| == 64
  {
    if AllZero(b) then r == None else EntropyOk(b) && OptionalSays(U64At(b, 16), U64At(b, 24), r)
  }

  function ValidateEntropy(b: seq<Byte>): (r: Result<Option<Range>, BootError>)
    requires |b| == 64
    ensures r.Success? ==> EntropySays(b, r.value)
    ensures r.Failure? ==> forall range :: !EntropySays(b, range)
  {
    if AllZero(b) then Success(None)
    else if RecordHeader(U32At(b, 0), U32At(b, 4), 64, 1, None).Failure? then Failure(InvalidEntropy)
    else if U32At(b, 12) > 1 || !AllZero(b[32..64]) then Failure(InvalidEntropy)
    else if U32At(b, 8) < 1 || U32At(b, 8) > 3 then Failure(UnknownEntropySource)
    else OptionalRange(U64At(b, 16), U64At(b, 24), InvalidEntropy)
  }

  /** A refused entropy record is of an unknown source, or is malformed before or after that is looked at. */
  lemma EntropyFaults(b: seq<Byte>)
    requires |b| == 64
    ensures var r := ValidateEntropy(b);
            && (r.Failure? ==> r.error in {InvalidEntropy, UnknownEntropySource})
            && (r == Failure(UnknownEntropySource) <==>
                  && !AllZero(b) && U32At(b, 4) == 1 && U32At(b, 0) >= 64 && U32At(b, 12) <= 1 && AllZero(b[32..64])
                  && !(1 <= U32At(b, 8) <= 3))
  {
    hide U32At, U64At, AllZero;
  }

  /** Size, version, kind and spare words of a framebuffer record are right. */
  predicate FramebufferFramed(b: seq<Byte>)
    requires |b| == 96
  {
    U32At(b, 4) == 1 && U32At(b, 0) >= 96 && U32At(b, 8) == 1 && U32At(b, 44) == 0 && AllZero(b[64..96])
  }

  /** A refused framebuffer is of an unknown format, or too large for an address, or else malformed. */
  lemma FramebufferFaults(present: bool, b: seq<Byte>)
    requires |b| == 96
    ensures var r := ValidateFramebuffer(present, b);
            && (r.Failure? ==> r.error in {InvalidFramebuffer, UnknownPixelFormat, Overflow})
            && (r == Failure(UnknownPixelFormat) <==> present && FramebufferFramed(b) && !(1 <= U32At(b, 12) <= 3))
            && (r == Failure(Overflow) <==>
                  && present && FramebufferFramed(b) && 1 <= U32At(b, 12) <= 3
                  && 0 < U32At(b, 32) <= U32At(b, 40) && 0 < U32At(b, 36)
                  && var least := U32At(b, 40) * U32At(b, 36) * 4;
                     least > U64_MAX || (least <= U64At(b, 24) && U64At(b, 16) + U64At(b, 24) > U64_MAX))
  {
    hide U32At, U64At, AllZero, MasksBad;
  }
}
