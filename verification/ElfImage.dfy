/** What an accepted load plan guarantees (kernel/src/boot/primordial.rs:314-517). */
module ElfImage {
  import opened Wrappers
  import opened Pages
  import opened ElfPlan

  /** The segments of a valid image. */
  function PlanOf(bytes: seq<Byte>): seq<Segment>
    requires HeaderOk(bytes)
  {
    Loads(bytes, PhdrCount(bytes))
  }

  /** The page numbers a segment maps. */
  function PagesOf(s: Segment): set<nat> { PageSet(s.pageStart / PAGE_SIZE, s.pageEnd / PAGE_SIZE) }

  lemma ValidFacts(bytes: seq<Byte>)
    requires ValidImage(bytes)
    ensures PagesApart(PlanOf(bytes)) && |PlanOf(bytes)| <= MAX_LOADS && TotalMapped(PlanOf(bytes)) <= MAX_IMAGE
    ensures forall k :: 0 <= k < |PlanOf(bytes)| ==> SegmentOk(PlanOf(bytes)[k], |bytes|)
  {
    hide HeaderOk, Loads, PhdrOk, SegmentOk, PagesApart, TotalMapped;
    LoadsSound(bytes, PhdrCount(bytes));
  }

  /** A page is mapped by a segment exactly when it holds a byte of the segment. */
  lemma PageHoldsByte(s: Segment, fileLength: nat, page: nat)
    requires SegmentOk(s, fileLength)
    ensures page in PagesOf(s) <==> exists a: nat :: Contains(s, a) && a / PAGE_SIZE == page
  {
    if page in PagesOf(s) {
      var a := if page * PAGE_SIZE < s.virtualStart then s.virtualStart else page * PAGE_SIZE;
      assert Contains(s, a) && a / PAGE_SIZE == page;
    }
    forall a: nat | Contains(s, a) && a / PAGE_SIZE == page ensures page in PagesOf(s) {
      ByteInPages(s, fileLength, a);
    }
  }

  lemma ByteInPages(s: Segment, fileLength: nat, a: nat)
    requires SegmentOk(s, fileLength) && Contains(s, a)
    ensures a / PAGE_SIZE in PagesOf(s) && s.pageStart <= a < s.pageEnd
  {
  }

  lemma PageBounds(s: Segment, fileLength: nat, page: nat)
    requires SegmentOk(s, fileLength) && page in PagesOf(s)
    ensures s.pageStart <= page * PAGE_SIZE < s.pageEnd && !(Writable(s) && Executable(s))
  {
  }

  lemma ApartPages(a: Segment, b: Segment, fileLength: nat)
    requires SegmentOk(a, fileLength) && SegmentOk(b, fileLength) && !PagesOverlap(a, b)
    ensures PagesOf(a) !! PagesOf(b)
  {
  }

  /** The overlap test of the planner decides whether two segments share a page. */
  lemma OverlapMeansSharedPage(a: Segment, b: Segment, fileLength: nat)
    requires SegmentOk(a, fileLength) && SegmentOk(b, fileLength)
    ensures PagesOverlap(a, b) <==> exists page :: page in PagesOf(a) && page in PagesOf(b)
  {
    if PagesOverlap(a, b) {
      var page := (if a.pageStart < b.pageStart then b.pageStart else a.pageStart) / PAGE_SIZE;
      assert page in PagesOf(a) && page in PagesOf(b);
    } else {
      ApartPages(a, b, fileLength);
    }
  }

  /** No page of a valid image is both writable and executable. */
  lemma NoWritableExecutablePage(bytes: seq<Byte>, i: nat, j: nat, page: nat)
    requires ValidImage(bytes) && i < |PlanOf(bytes)| && j < |PlanOf(bytes)|
    requires page in PagesOf(PlanOf(bytes)[i]) && page in PagesOf(PlanOf(bytes)[j])
    ensures !(Writable(PlanOf(bytes)[i]) && Executable(PlanOf(bytes)[j]))
    ensures i == j
  {
    hide HeaderOk, Loads, PhdrOk, PrefixOk, PagesOf, SegmentOk;
    ValidFacts(bytes);
    PageBounds(PlanOf(bytes)[i], |bytes|, page);
    PageBounds(PlanOf(bytes)[j], |bytes|, page);
  }

  /** Every address is supplied by at most one segment. */
  lemma OneSupplier(bytes: seq<Byte>, i: nat, j: nat, address: nat)
    requires ValidImage(bytes) && i < |PlanOf(bytes)| && j < |PlanOf(bytes)|
    requires Contains(PlanOf(bytes)[i], address) && Contains(PlanOf(bytes)[j], address)
    ensures i == j
  {
    hide HeaderOk, Loads, PhdrOk, PrefixOk, PagesOf;
    ValidFacts(bytes);
    ByteInPages(PlanOf(bytes)[i], |bytes|, address);
    ByteInPages(PlanOf(bytes)[j], |bytes|, address);
    NoWritableExecutablePage(bytes, i, j, address / PAGE_SIZE);
  }

  /** File ranges stay in the module, segments in user space above the first page, and never write and execute. */
  lemma SegmentsInBounds(bytes: seq<Byte>, i: nat)
    requires ValidImage(bytes) && i < |PlanOf(bytes)|
    ensures var s := PlanOf(bytes)[i];
            && s.fileOffset + s.fileLength <= |bytes| && s.fileLength <= s.memoryLength
            && PAGE_SIZE <= s.pageStart <= s.virtualStart && s.virtualStart + s.memoryLength <= s.pageEnd <= USER_END
            && !(Writable(s) && Executable(s))
  {
    hide HeaderOk, Loads, PhdrOk, PrefixOk;
    ValidFacts(bytes);
  }

  /** The entry point lies in exactly one segment, and that segment is executable and not writable. */
  lemma EntryIsExecutable(bytes: seq<Byte>) returns (i: nat)
    requires ValidImage(bytes)
    ensures i < |PlanOf(bytes)| && Contains(PlanOf(bytes)[i], Entry(bytes))
    ensures Executable(PlanOf(bytes)[i]) && !Writable(PlanOf(bytes)[i])
    ensures forall j :: 0 <= j < |PlanOf(bytes)| && Contains(PlanOf(bytes)[j], Entry(bytes)) ==> j == i
  {
    hide HeaderOk, Loads, PhdrOk, PrefixOk;
    var k :| 0 <= k < |PlanOf(bytes)| && Executable(PlanOf(bytes)[k]) && Contains(PlanOf(bytes)[k], Entry(bytes));
    i := k;
    SegmentsInBounds(bytes, i);
    forall j | 0 <= j < |PlanOf(bytes)| && Contains(PlanOf(bytes)[j], Entry(bytes)) ensures j == i {
      OneSupplier(bytes, j, i, Entry(bytes));
    }
  }

  /** Every page the plan maps. */
  function AllPages(segments: seq<Segment>): set<nat> {
    if segments == [] then {} else AllPages(segments[..|segments| - 1]) + PagesOf(segments[|segments| - 1])
  }

  lemma SegmentPages(s: Segment, fileLength: nat)
    requires SegmentOk(s, fileLength)
    ensures MappedLength(s) == PAGE_SIZE * |PagesOf(s)|
  {
    PageSetSize(s.pageStart / PAGE_SIZE, s.pageEnd / PAGE_SIZE);
  }

  lemma {:induction false} AllPagesFrom(segments: seq<Segment>, page: nat)
    ensures page in AllPages(segments) <==> exists k :: 0 <= k < |segments| && page in PagesOf(segments[k])
  {
    if segments != [] {
      var front, last := segments[..|segments| - 1], segments[|segments| - 1];
      AllPagesFrom(front, page);
      hide PagesOf;
      if page in AllPages(front) {
        var k :| 0 <= k < |front| && page in PagesOf(front[k]);
        assert page in PagesOf(segments[k]);
      }
      if exists k :: 0 <= k < |segments| && page in PagesOf(segments[k]) {
        var k :| 0 <= k < |segments| && page in PagesOf(segments[k]);
        assert k < |front| ==> page in PagesOf(front[k]);
      }
    }
  }

  lemma {:induction false} TotalIsPages(segments: seq<Segment>, fileLength: nat)
    requires PagesApart(segments) && forall k :: 0 <= k < |segments| ==> SegmentOk(segments[k], fileLength)
    ensures TotalMapped(segments) == PAGE_SIZE * |AllPages(segments)|
  {
    if segments != [] {
      var front, last := segments[..|segments| - 1], segments[|segments| - 1];
      assert forall k :: 0 <= k < |front| ==> front[k] == segments[k];
      TotalIsPages(front, fileLength);
      SegmentPages(last, fileLength);
      forall page | page in AllPages(front) ensures page !in PagesOf(last) {
        AllPagesFrom(front, page);
        var k :| 0 <= k < |front| && page in PagesOf(front[k]);
        ApartPages(segments[k], last, fileLength);
      }
      DisjointUnionSize(AllPages(front), PagesOf(last));
    }
  }

  /** The planned length is the page size times the number of distinct pages mapped. */
  lemma MappedLengthCountsPages(bytes: seq<Byte>)
    requires ValidImage(bytes)
    ensures TotalMapped(PlanOf(bytes)) == PAGE_SIZE * |AllPages(PlanOf(bytes))|
    ensures forall page :: page in AllPages(PlanOf(bytes)) <==>
              exists k, a: nat :: 0 <= k < |PlanOf(bytes)| && Contains(PlanOf(bytes)[k], a) && a / PAGE_SIZE == page
  {
    hide HeaderOk, Loads, PhdrOk, PrefixOk, PagesOf, AllPages, SegmentOk, Contains;
    ValidFacts(bytes);
    var plan := PlanOf(bytes);
    TotalIsPages(plan, |bytes|);
    forall page ensures page in AllPages(plan) <==>
                        exists k, a: nat :: 0 <= k < |plan| && Contains(plan[k], a) && a / PAGE_SIZE == page {
      AllPagesFrom(plan, page);
      forall k | 0 <= k < |plan| ensures page in PagesOf(plan[k]) <==> exists a: nat :: Contains(plan[k], a) && a / PAGE_SIZE == page {
        PageHoldsByte(plan[k], |bytes|, page);
      }
    }
  }
}
