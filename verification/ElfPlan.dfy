/**
 The static ELF64 loader plan (kernel/src/boot/primordial.rs:15-40, 187-517), after
 the System V gABI, chapter 4 "ELF Header" and chapter 5 "Program Header".
 */
module ElfPlan {
  import opened Wrappers
  import opened LittleEndian
  import opened Pages

  const HEADER_SIZE: nat := 64
  const PHDR_SIZE: nat := 56
  const MAX_FILE: nat := 0x100_0000
  const MAX_PHDRS: nat := 16
  const MAX_LOADS: nat := 8
  const MAX_IMAGE: nat := 0x200_0000
  const USER_END: nat := 0x0000_8000_0000_0000
  const PT_LOAD: nat := 1
  const PT_PHDR: nat := 6
  const PT_GNU_STACK: nat := 0x6474_e551

  datatype ElfError =
    | InvalidFileSize
    | TruncatedHeader
    | InvalidIdentification
    | UnsupportedType
    | UnsupportedMachine
    | UnsupportedVersion
    | InvalidHeaderSize
    | InvalidProgramHeaderSize
    | InvalidProgramHeaderCount
    | ProgramHeaderTableOutOfRange
    | UnsupportedProgramHeader
    | DuplicateMetadataHeader
    | TooManyLoadSegments
    | SegmentFileRangeOutOfRange
    | FileSizeExceedsMemorySize
    | EmptyLoadSegment
    | InvalidSegmentAlignment
    | SegmentAddressOverflow
    | SegmentOutsideUserAddressSpace
    | UnsupportedSegmentPermissions
    | WritableExecutableSegment
    | ExecutableStack
    | PageRoundedSegmentOverlap
    | ImageSizeLimitExceeded
    | InvalidEntryPoint

  datatype Segment = Segment(
    fileOffset: nat,
    fileLength: nat,
    memoryLength: nat,
    virtualStart: nat,
    pageStart: nat,
    pageEnd: nat,
    flags: nat)

  predicate Executable(s: Segment) { s.flags % 2 == 1 }
  predicate Writable(s: Segment) { s.flags / 2 % 2 == 1 }

  function MappedLength(s: Segment): int { s.pageEnd - s.pageStart }

  datatype Plan = Plan(entry: nat, segments: seq<Segment>, mappedLength: nat)

  // ----- One program header -----

  predicate IsPowerOfTwo(n: nat) {
    n == 1 || (n > 1 && n % 2 == 0 && IsPowerOfTwo(n / 2))
  }

  function ParseLoadSegment(h: seq<Byte>, fileLength: nat): (r: Result<Segment, ElfError>)
    requires |h| == PHDR_SIZE
    ensures r.Success? <==> LoadOk(h, fileLength)
    ensures r.Success? ==> r.value == LoadSegment(h)
  {
    var flags := U32At(h, 4);
    if flags > 7 then Failure(UnsupportedSegmentPermissions)
    else if flags / 2 % 2 == 1 && flags % 2 == 1 then Failure(WritableExecutableSegment)
    else if flags != 4 && flags != 6 && flags != 5 then Failure(UnsupportedSegmentPermissions)
    else
      var offset, start, fileBytes, memoryBytes, alignment := U64At(h, 8), U64At(h, 16), U64At(h, 32), U64At(h, 40), U64At(h, 48);
      if fileBytes > memoryBytes then Failure(FileSizeExceedsMemorySize)
      else if memoryBytes == 0 then Failure(EmptyLoadSegment)
      else if offset + fileBytes > U64_MAX then Failure(SegmentFileRangeOutOfRange)
      else if offset + fileBytes > fileLength then Failure(SegmentFileRangeOutOfRange)
      else if alignment > 1 && (!IsPowerOfTwo(alignment) || offset % alignment != start % alignment) then
        Failure(InvalidSegmentAlignment)
      else if start + memoryBytes > U64_MAX then Failure(SegmentAddressOverflow)
      else
        match AlignUp(start + memoryBytes)
        case None => Failure(SegmentAddressOverflow)
        case Some(pageEnd) =>
          var pageStart := AlignDown(start);
          if pageStart < PAGE_SIZE || pageEnd > USER_END then Failure(SegmentOutsideUserAddressSpace)
          else Success(Segment(offset, fileBytes, memoryBytes, start, pageStart, pageEnd, flags))
  }

  /** The segment a load header describes. */
  function LoadSegment(h: seq<Byte>): Segment
    requires |h| == PHDR_SIZE
  {
    Segment(U64At(h, 8), U64At(h, 32), U64At(h, 40), U64At(h, 16),
            AlignDown(U64At(h, 16)), RoundUp(U64At(h, 16) + U64At(h, 40)), U32At(h, 4))
  }

  /** A load header is acceptable: read-only, read-write or read-execute; backed by the file; inside user space. */
  predicate LoadOk(h: seq<Byte>, fileLength: nat)
    requires |h| == PHDR_SIZE
  {
    var s, alignment := LoadSegment(h), U64At(h, 48);
    && s.flags in {4, 5, 6}
    && s.fileLength <= s.memoryLength && 0 < s.memoryLength
    && s.fileOffset + s.fileLength <= fileLength && s.fileOffset + s.fileLength <= U64_MAX
    && (alignment > 1 ==> IsPowerOfTwo(alignment) && s.fileOffset % alignment == s.virtualStart % alignment)
    && PAGE_SIZE <= s.pageStart && s.pageEnd <= USER_END
  }

  /** `error` names the first fault of a load header: permissions, sizes, file range, alignment, address range. */
  predicate LoadFault(h: seq<Byte>, fileLength: nat, error: ElfError)
    requires |h| == PHDR_SIZE
  {
    var s, alignment := LoadSegment(h), U64At(h, 48);
    var permitted := s.flags in {4, 5, 6};
    var sized := permitted && s.fileLength <= s.memoryLength && 0 < s.memoryLength;
    var inFile := sized && s.fileOffset + s.fileLength <= fileLength && s.fileOffset + s.fileLength <= U64_MAX;
    var aligned := inFile && (alignment > 1 ==> IsPowerOfTwo(alignment) && s.fileOffset % alignment == s.virtualStart % alignment);
    var addressed := aligned && s.virtualStart + s.memoryLength + 4095 <= U64_MAX;
    match error
    case WritableExecutableSegment => s.flags in {3, 7}
    case UnsupportedSegmentPermissions => s.flags > 7 || s.flags in {0, 1, 2}
    case FileSizeExceedsMemorySize => permitted && s.fileLength > s.memoryLength
    case EmptyLoadSegment => permitted && s.fileLength == s.memoryLength == 0
    case SegmentFileRangeOutOfRange => sized && !inFile
    case InvalidSegmentAlignment => inFile && !aligned
    case SegmentAddressOverflow => aligned && !addressed
    case SegmentOutsideUserAddressSpace => addressed && !(PAGE_SIZE <= s.pageStart && s.pageEnd <= USER_END)
    case _ => false
  }

  /** A refused load header is refused for its first fault. */
  lemma LoadFaultNamed(h: seq<Byte>, fileLength: nat)
    requires |h| == PHDR_SIZE
    ensures ParseLoadSegment(h, fileLength).Failure? ==> LoadFault(h, fileLength, ParseLoadSegment(h, fileLength).error)
  {
    hide IsPowerOfTwo, U16At, U32At, U64At, AlignDown, RoundUp;
  }

  /** The alignment test accepts exactly the powers of two. */
  lemma {:induction false} PowerOfTwoMeans(n: nat)
    ensures IsPowerOfTwo(n) <==> exists k: nat :: n == Pow2(k)
  {
    if n == 1 {
      assert n == Pow2(0);
    } else if n > 1 && n % 2 == 0 {
      PowerOfTwoMeans(n / 2);
      if k: nat :| n / 2 == Pow2(k) {
        assert n == Pow2(k + 1);
      }
      if k: nat :| n == Pow2(k) {
        assert n / 2 == Pow2(k - 1);
      }
    } else {
      forall k: nat ensures n != Pow2(k) {
        assert Pow2(k) == 1 || Pow2(k) % 2 == 0;
      }
    }
  }

  predicate MetadataInFile(h: seq<Byte>, fileLength: nat)
    requires |h| == PHDR_SIZE
  {
    U64At(h, 8) + U64At(h, 32) <= U64_MAX && U64At(h, 8) + U64At(h, 32) <= fileLength
  }

  predicate PagesOverlap(a: Segment, b: Segment) { a.pageStart < b.pageEnd && b.pageStart < a.pageEnd }

  /** A program header is acceptable on its own. */
  predicate PhdrOk(h: seq<Byte>, fileLength: nat)
    requires |h| == PHDR_SIZE
  {
    var kind := U32At(h, 0);
    if kind == PT_LOAD then LoadOk(h, fileLength)
    else if kind == PT_PHDR then MetadataInFile(h, fileLength)
    else kind == PT_GNU_STACK && U32At(h, 4) <= 7 && U32At(h, 4) % 2 == 0
  }

  // ----- The whole image -----

  /** The bytes begin with the header of a little-endian x86-64 executable whose program headers all lie in the file. */
  predicate HeaderOk(bytes: seq<Byte>) {
    && HEADER_SIZE <= |bytes| <= MAX_FILE
    && bytes[..7] == [0x7f, 0x45, 0x4c, 0x46, 2, 1, 1]
    && U16At(bytes, 16) == 2 && U16At(bytes, 18) == 62 && U32At(bytes, 20) == 1
    && U16At(bytes, 52) == HEADER_SIZE && U16At(bytes, 54) == PHDR_SIZE && 0 < U16At(bytes, 56) <= MAX_PHDRS
    && U64At(bytes, 32) + U16At(bytes, 56) * PHDR_SIZE <= |bytes|
  }

  /** The first check the header fails, before any program header is read. */
  function HeaderError(bytes: seq<Byte>): Option<ElfError> {
    if |bytes| == 0 || |bytes| > MAX_FILE then Some(InvalidFileSize)
    else if |bytes| < HEADER_SIZE then Some(TruncatedHeader)
    else if bytes[..4] != [0x7f, 0x45, 0x4c, 0x46] || bytes[4] != 2 || bytes[5] != 1 || bytes[6] != 1 then
      Some(InvalidIdentification)
    else if U16At(bytes, 16) != 2 then Some(UnsupportedType)
    else if U16At(bytes, 18) != 62 then Some(UnsupportedMachine)
    else if U32At(bytes, 20) != 1 then Some(UnsupportedVersion)
    else if U16At(bytes, 52) != HEADER_SIZE then Some(InvalidHeaderSize)
    else if U16At(bytes, 54) != PHDR_SIZE then Some(InvalidProgramHeaderSize)
    else if U16At(bytes, 56) == 0 || U16At(bytes, 56) > MAX_PHDRS then Some(InvalidProgramHeaderCount)
    else if U64At(bytes, 32) + U16At(bytes, 56) * PHDR_SIZE > |bytes| then Some(ProgramHeaderTableOutOfRange)
    else None
  }

  /** The checks find no fault exactly in the acceptable headers. */
  lemma HeaderChecked(bytes: seq<Byte>)
    ensures HeaderError(bytes).None? <==> HeaderOk(bytes)
  {
    if |bytes| >= HEADER_SIZE {
      assert bytes[..7] == bytes[..4] + [bytes[4], bytes[5], bytes[6]];
      assert bytes[..4] == bytes[..7][..4];
    }
  }

  function PhdrCount(bytes: seq<Byte>): nat
    requires HeaderOk(bytes)
  {
    U16At(bytes, 56)
  }

  function Entry(bytes: seq<Byte>): nat
    requires HeaderOk(bytes)
  {
    U64At(bytes, 24)
  }

  function Phdr(bytes: seq<Byte>, i: nat): (h: seq<Byte>)
    requires HeaderOk(bytes) && i < PhdrCount(bytes)
    ensures |h| == PHDR_SIZE
  {
    var offset := U64At(bytes, 32) + i * PHDR_SIZE;
    bytes[offset..offset + PHDR_SIZE]
  }

  function Kind(bytes: seq<Byte>, i: nat): nat
    requires HeaderOk(bytes) && i < PhdrCount(bytes)
  {
    U32At(Phdr(bytes, i), 0)
  }

  /** The load segments among the first `n` program headers, in order. */
  function Loads(bytes: seq<Byte>, n: nat): (s: seq<Segment>)
    requires HeaderOk(bytes) && n <= PhdrCount(bytes)
    ensures |s| <= n
  {
    if n == 0 then []
    else if Kind(bytes, n - 1) == PT_LOAD then Loads(bytes, n - 1) + [LoadSegment(Phdr(bytes, n - 1))]
    else Loads(bytes, n - 1)
  }

  function TotalMapped(segments: seq<Segment>): int {
    if segments == [] then 0 else TotalMapped(segments[..|segments| - 1]) + MappedLength(segments[|segments| - 1])
  }

  ghost predicate PagesApart(segments: seq<Segment>) {
    forall i, j :: 0 <= i < j < |segments| ==> !PagesOverlap(segments[i], segments[j])
  }

  predicate Contains(s: Segment, address: nat) {
    s.virtualStart <= address < s.virtualStart + s.memoryLength
  }

  /** At most one of the first `n` headers has this kind. */
  ghost predicate AtMostOne(bytes: seq<Byte>, n: nat, kind: nat)
    requires HeaderOk(bytes) && n <= PhdrCount(bytes)
  {
    forall i, j :: 0 <= i < j < n && Kind(bytes, i) == kind ==> Kind(bytes, j) != kind
  }

  /** The first `n` headers are acceptable together. */
  ghost predicate PrefixOk(bytes: seq<Byte>, n: nat)
    requires HeaderOk(bytes) && n <= PhdrCount(bytes)
  {
    && (forall i :: 0 <= i < n ==> PhdrOk(Phdr(bytes, i), |bytes|))
    && AtMostOne(bytes, n, PT_PHDR) && AtMostOne(bytes, n, PT_GNU_STACK)
    && |Loads(bytes, n)| <= MAX_LOADS && PagesApart(Loads(bytes, n)) && TotalMapped(Loads(bytes, n)) <= MAX_IMAGE
  }

  /** What an acceptable image is, with no reference to how it is parsed. */
  ghost predicate ValidImage(bytes: seq<Byte>) {
    && HeaderOk(bytes) && PrefixOk(bytes, PhdrCount(bytes))
    && exists i :: 0 <= i < |Loads(bytes, PhdrCount(bytes))|
         && Executable(Loads(bytes, PhdrCount(bytes))[i]) && Contains(Loads(bytes, PhdrCount(bytes))[i], Entry(bytes))
  }

  // ----- Facts about load lists -----

  lemma {:induction false} LoadsSound(bytes: seq<Byte>, n: nat)
    requires HeaderOk(bytes) && n <= PhdrCount(bytes)
    requires forall i :: 0 <= i < n ==> PhdrOk(Phdr(bytes, i), |bytes|)
    ensures forall k :: 0 <= k < |Loads(bytes, n)| ==> SegmentOk(Loads(bytes, n)[k], |bytes|)
  {
    hide HeaderOk, PhdrCount, Phdr, IsPowerOfTwo;
    if n > 0 {
      LoadsSound(bytes, n - 1);
      assert PhdrOk(Phdr(bytes, n - 1), |bytes|);
    }
  }

  /** What a single planned segment satisfies. */
  predicate SegmentOk(s: Segment, fileLength: nat) {
    && s.flags in {4, 5, 6} && s.fileLength <= s.memoryLength && 0 < s.memoryLength
    && s.fileOffset + s.fileLength <= fileLength
    && s.pageStart == AlignDown(s.virtualStart) && s.pageEnd == RoundUp(s.virtualStart + s.memoryLength)
    && PAGE_SIZE <= s.pageStart && s.pageEnd <= USER_END
  }

  /** A longer header list only adds load segments. */
  lemma {:induction false} LoadsPrefix(bytes: seq<Byte>, m: nat, n: nat)
    requires HeaderOk(bytes) && m <= n <= PhdrCount(bytes)
    ensures |Loads(bytes, m)| <= |Loads(bytes, n)| && Loads(bytes, m) == Loads(bytes, n)[..|Loads(bytes, m)|]
    decreases n
  {
    hide HeaderOk, PhdrCount, Kind, Phdr, LoadSegment;
    if m < n {
      LoadsPrefix(bytes, m, n - 1);
    }
  }

  lemma {:induction false} TotalGrows(segments: seq<Segment>, m: nat)
    requires m <= |segments| && forall k :: 0 <= k < |segments| ==> MappedLength(segments[k]) >= 0
    ensures 0 <= TotalMapped(segments[..m]) <= TotalMapped(segments)
    decreases |segments|
  {
    if m < |segments| {
      var front := segments[..|segments| - 1];
      assert forall k :: 0 <= k < |front| ==> front[k] == segments[k];
      TotalGrows(front, m);
      assert front[..m] == segments[..m];
    } else {
      assert segments[..m] == segments;
      if m > 0 {
        var front := segments[..m - 1];
        assert forall k :: 0 <= k < |front| ==> front[k] == segments[k];
        TotalGrows(front, m - 1);
      }
    }
  }

  /** An acceptable header list has acceptable prefixes. */
  lemma PrefixOfOk(bytes: seq<Byte>, m: nat, n: nat)
    requires HeaderOk(bytes) && m <= n <= PhdrCount(bytes) && PrefixOk(bytes, n)
    ensures PrefixOk(bytes, m)
  {
    hide PhdrOk, Loads, HeaderOk, PhdrCount, Kind, Phdr, SegmentOk, TotalMapped, PagesOverlap;
    LoadsPrefix(bytes, m, n);
    LoadsSound(bytes, n);
    var all := Loads(bytes, n);
    PagesApartPrefix(all, |Loads(bytes, m)|);
    MappedNonNegative(all, |bytes|);
    TotalGrows(all, |Loads(bytes, m)|);
  }

  lemma PagesApartPrefix(segments: seq<Segment>, m: nat)
    requires PagesApart(segments) && m <= |segments|
    ensures PagesApart(segments[..m])
  {
  }

  lemma TotalNonNegative(bytes: seq<Byte>, n: nat)
    requires HeaderOk(bytes) && n <= PhdrCount(bytes) && PrefixOk(bytes, n)
    ensures TotalMapped(Loads(bytes, n)) >= 0
  {
    hide PhdrOk, Loads, HeaderOk, PhdrCount, SegmentOk;
    LoadsSound(bytes, n);
    MappedNonNegative(Loads(bytes, n), |bytes|);
    TotalGrows(Loads(bytes, n), 0);
  }

  lemma MappedNonNegative(segments: seq<Segment>, fileLength: nat)
    requires forall k :: 0 <= k < |segments| ==> SegmentOk(segments[k], fileLength)
    ensures forall k :: 0 <= k < |segments| ==> MappedLength(segments[k]) > 0
  {
  }

  // ----- The parser -----

  /** What is wrong with a load header after the segments already planned, in the order it is looked for. */
  ghost function LoadError(h: seq<Byte>, fileLength: nat, before: seq<Segment>): Option<ElfError>
    requires |h| == PHDR_SIZE
  {
    if |before| >= MAX_LOADS then Some(TooManyLoadSegments)
    else
      match ParseLoadSegment(h, fileLength)
      case Failure(e) => Some(e)
      case Success(s) =>
        if exists i :: 0 <= i < |before| && PagesOverlap(before[i], s) then Some(PageRoundedSegmentOverlap)
        else if TotalMapped(before) + MappedLength(s) > MAX_IMAGE then Some(ImageSizeLimitExceeded)
        else None
  }

  /** What is wrong with header `n` once the headers before it were taken. */
  ghost function StepError(bytes: seq<Byte>, n: nat): Option<ElfError>
    requires HeaderOk(bytes) && n < PhdrCount(bytes)
  {
    var h, kind := Phdr(bytes, n), Kind(bytes, n);
    if kind == PT_LOAD then LoadError(h, |bytes|, Loads(bytes, n))
    else if kind == PT_PHDR then
      if exists i :: 0 <= i < n && Kind(bytes, i) == PT_PHDR then Some(DuplicateMetadataHeader)
      else if !MetadataInFile(h, |bytes|) then Some(SegmentFileRangeOutOfRange)
      else None
    else if kind == PT_GNU_STACK then
      if exists i :: 0 <= i < n && Kind(bytes, i) == PT_GNU_STACK then Some(DuplicateMetadataHeader)
      else if U32At(h, 4) % 2 == 1 then Some(ExecutableStack)
      else if U32At(h, 4) > 7 then Some(UnsupportedSegmentPermissions)
      else None
    else Some(UnsupportedProgramHeader)
  }

  /** Header `n` is the first bad one, and `error` is what is wrong with it. */
  ghost predicate FirstBad(bytes: seq<Byte>, n: nat, error: ElfError)
    requires HeaderOk(bytes)
  {
    n < PhdrCount(bytes) && PrefixOk(bytes, n) && !PrefixOk(bytes, n + 1) && StepError(bytes, n) == Some(error)
  }

  /** Takes in one load header: parse, compare with every earlier segment, add to the total. */
  method AddLoad(h: seq<Byte>, fileLength: nat, segments: seq<Segment>, mapped: int) returns (r: Result<Segment, ElfError>)
    requires |h| == PHDR_SIZE && mapped == TotalMapped(segments)
    ensures r.Failure? ==> LoadError(h, fileLength, segments) == Some(r.error)
    ensures r.Success? <==>
            && |segments| < MAX_LOADS && LoadOk(h, fileLength)
            && (forall i :: 0 <= i < |segments| ==> !PagesOverlap(segments[i], LoadSegment(h)))
            && mapped + MappedLength(LoadSegment(h)) <= MAX_IMAGE
    ensures r.Success? ==> r.value == LoadSegment(h)
  {
    if |segments| >= MAX_LOADS {
      return Failure(TooManyLoadSegments);
    }
    r := ParseLoadSegment(h, fileLength);
    if r.Failure? {
      return;
    }
    var i := 0;
    while i < |segments|
      invariant i <= |segments| && r == Success(LoadSegment(h))
      invariant forall j :: 0 <= j < i ==> !PagesOverlap(segments[j], LoadSegment(h))
    {
      if PagesOverlap(segments[i], r.value) {
        return Failure(PageRoundedSegmentOverlap);
      }
      i := i + 1;
    }
    if mapped + MappedLength(r.value) > MAX_IMAGE {
      return Failure(ImageSizeLimitExceeded);
    }
  }

  method FindEntry(segments: seq<Segment>, entry: nat) returns (found: bool)
    ensures found <==> exists i :: 0 <= i < |segments| && Executable(segments[i]) && Contains(segments[i], entry)
  {
    var i := 0;
    while i < |segments|
      invariant i <= |segments| && forall j :: 0 <= j < i ==> !(Executable(segments[j]) && Contains(segments[j], entry))
    {
      if Executable(segments[i]) && Contains(segments[i], entry) {
        return true;
      }
      i := i + 1;
    }
    found := false;
  }

  /** One more header is acceptable exactly when it is acceptable after the ones before it. */
  ghost predicate NextOk(bytes: seq<Byte>, n: nat)
    requires HeaderOk(bytes) && n < PhdrCount(bytes)
  {
    var h, kind, before := Phdr(bytes, n), Kind(bytes, n), Loads(bytes, n);
    && PhdrOk(h, |bytes|)
    && (kind == PT_LOAD ==>
          && |before| < MAX_LOADS && (forall i :: 0 <= i < |before| ==> !PagesOverlap(before[i], LoadSegment(h)))
          && TotalMapped(before) + MappedLength(LoadSegment(h)) <= MAX_IMAGE)
    && (kind == PT_PHDR ==> forall i :: 0 <= i < n ==> Kind(bytes, i) != PT_PHDR)
    && (kind == PT_GNU_STACK ==> forall i :: 0 <= i < n ==> Kind(bytes, i) != PT_GNU_STACK)
  }

  lemma PagesApartGrows(before: seq<Segment>, s: Segment)
    requires PagesApart(before)
    ensures PagesApart(before + [s]) <==> forall i :: 0 <= i < |before| ==> !PagesOverlap(before[i], s)
  {
    var after := before + [s];
    if PagesApart(after) {
      forall i | 0 <= i < |before| ensures !PagesOverlap(before[i], s) {
        assert !PagesOverlap(after[i], after[|before|]);
      }
    }
  }

  lemma TotalAppends(before: seq<Segment>, s: Segment)
    ensures TotalMapped(before + [s]) == TotalMapped(before) + MappedLength(s)
  {
    assert (before + [s])[..|before|] == before;
  }

  lemma PrefixStep(bytes: seq<Byte>, n: nat)
    requires HeaderOk(bytes) && n < PhdrCount(bytes) && PrefixOk(bytes, n)
    ensures PrefixOk(bytes, n + 1) <==> NextOk(bytes, n)
  {
    hide HeaderOk, PhdrCount, Phdr, PhdrOk, LoadSegment, TotalMapped, PagesApart, PagesOverlap, MappedLength;
    var before := Loads(bytes, n);
    if Kind(bytes, n) == PT_LOAD {
      PagesApartGrows(before, LoadSegment(Phdr(bytes, n)));
      TotalAppends(before, LoadSegment(Phdr(bytes, n)));
    }
    hide Loads, Kind;
    MetadataStep(bytes, n, PT_PHDR);
    MetadataStep(bytes, n, PT_GNU_STACK);
    assert PrefixOk(bytes, n + 1) ==> PhdrOk(Phdr(bytes, n), |bytes|);
  }

  lemma MetadataStep(bytes: seq<Byte>, n: nat, kind: nat)
    requires HeaderOk(bytes) && n < PhdrCount(bytes) && AtMostOne(bytes, n, kind)
    ensures AtMostOne(bytes, n + 1, kind) <==> (Kind(bytes, n) == kind ==> forall i :: 0 <= i < n ==> Kind(bytes, i) != kind)
  {
    hide HeaderOk, PhdrCount, Kind;
  }

  lemma NothingTaken(bytes: seq<Byte>)
    requires HeaderOk(bytes)
    ensures PrefixOk(bytes, 0) && Loads(bytes, 0) == [] && TotalMapped([]) == 0
  {
  }

  /** The parser accepts exactly the valid images, and plans exactly their load segments. */
  method ParsePrimordialElf(bytes: seq<Byte>) returns (r: Result<Plan, ElfError>)
    ensures r.Success? <==> ValidImage(bytes)
    ensures r.Success? ==>
              var loads := Loads(bytes, PhdrCount(bytes));
              r.value.entry == Entry(bytes) && r.value.segments == loads && r.value.mappedLength == TotalMapped(loads)
    ensures r.Failure? ==>
              if !HeaderOk(bytes) then HeaderError(bytes) == Some(r.error)
              else (exists n :: FirstBad(bytes, n, r.error)) || (PrefixOk(bytes, PhdrCount(bytes)) && r.error == InvalidEntryPoint)
  {
    hide PrefixOk, Loads, HeaderError, HeaderOk, PhdrCount, Entry, Kind, TotalMapped, Contains, Executable, FirstBad;
    HeaderChecked(bytes);
    var bad := HeaderError(bytes);
    if bad.Some? {
      return Failure(bad.value);
    }
    var count := PhdrCount(bytes);
    NothingTaken(bytes);
    var segments: seq<Segment>, mapped, seenPhdr, seenStack, failed := [], 0, false, false, None;
    var i := 0;
    while i < count && failed.None?
      invariant i <= count && HeaderOk(bytes) && count == PhdrCount(bytes)
      invariant failed.None? ==> PrefixOk(bytes, i) && segments == Loads(bytes, i) && mapped == TotalMapped(segments)
      invariant failed.None? ==> (seenPhdr <==> exists j :: 0 <= j < i && Kind(bytes, j) == PT_PHDR)
      invariant failed.None? ==> (seenStack <==> exists j :: 0 <= j < i && Kind(bytes, j) == PT_GNU_STACK)
      invariant failed.Some? ==> !PrefixOk(bytes, count) && FirstBad(bytes, i, failed.value)
      decreases count - i, failed.None?
    {
      i, segments, mapped, seenPhdr, seenStack, failed := TakeHeader(bytes, i, segments, mapped, seenPhdr, seenStack);
    }
    if failed.Some? {
      return Failure(failed.value);
    }
    var found := FindEntry(segments, Entry(bytes));
    if !found {
      return Failure(InvalidEntryPoint);
    }
    TotalNonNegative(bytes, count);
    r := Success(Plan(Entry(bytes), segments, mapped));
  }

  /** One turn of the loop over program headers. */
  method TakeHeader(bytes: seq<Byte>, i: nat, segments: seq<Segment>, mapped: int, seenPhdr: bool, seenStack: bool)
    returns (i': nat, segments': seq<Segment>, mapped': int, seenPhdr': bool, seenStack': bool, failed: Option<ElfError>)
    requires HeaderOk(bytes) && i < PhdrCount(bytes)
    requires PrefixOk(bytes, i) && segments == Loads(bytes, i) && mapped == TotalMapped(segments)
    requires seenPhdr <==> exists j :: 0 <= j < i && Kind(bytes, j) == PT_PHDR
    requires seenStack <==> exists j :: 0 <= j < i && Kind(bytes, j) == PT_GNU_STACK
    ensures failed.Some? ==> i' == i && !PrefixOk(bytes, PhdrCount(bytes)) && FirstBad(bytes, i, failed.value)
    ensures failed.None? ==>
              && i' == i + 1 && PrefixOk(bytes, i') && segments' == Loads(bytes, i') && mapped' == TotalMapped(segments')
              && (seenPhdr' <==> exists j :: 0 <= j < i' && Kind(bytes, j) == PT_PHDR)
              && (seenStack' <==> exists j :: 0 <= j < i' && Kind(bytes, j) == PT_GNU_STACK)
  {
    hide HeaderOk, PhdrCount, Phdr, PrefixOk, LoadSegment, LoadOk, TotalMapped, PagesOverlap, MappedLength, MetadataInFile, LoadError;
    i', segments', mapped', seenPhdr', seenStack', failed := i, segments, mapped, seenPhdr, seenStack, None;
    PrefixStep(bytes, i);
    if PrefixOk(bytes, PhdrCount(bytes)) { PrefixOfOk(bytes, i + 1, PhdrCount(bytes)); }
    var h := Phdr(bytes, i);
    var kind, flags := U32At(h, 0), U32At(h, 4);
    if kind == PT_LOAD {
      var added := AddLoad(h, |bytes|, segments, mapped);
      if added.Failure? {
        failed := Some(added.error);
        return;
      }
      TotalAppends(segments, added.value);
      segments', mapped' := segments + [added.value], mapped + MappedLength(added.value);
    } else if kind == PT_PHDR {
      if seenPhdr {
        failed := Some(DuplicateMetadataHeader);
        return;
      }
      seenPhdr' := true;
      if !MetadataInFile(h, |bytes|) {
        failed := Some(SegmentFileRangeOutOfRange);
        return;
      }
    } else if kind == PT_GNU_STACK {
      if seenStack {
        failed := Some(DuplicateMetadataHeader);
        return;
      }
      seenStack' := true;
      if flags % 2 == 1 {
        failed := Some(ExecutableStack);
        return;
      }
      if flags > 7 {
        failed := Some(UnsupportedSegmentPermissions);
        return;
      }
    } else {
      failed := Some(UnsupportedProgramHeader);
      return;
    }
    i' := i + 1;
  }
}
