// Filling the destination space page by page: copy the records of a page into a buffer, fix
// their pointers through the registry, and move the buffer into place, at most once per page.
module Copier {
  import opened Prelude
  import opened Pages
  import opened PageRuns
  import opened Placement
  import opened Registry
  import opened Partition
  import opened Graph
  import opened Marking
  import opened Relocation
  import Bitmap

  // What marking hands to the copier: the heap, the live objects in the order they were
  // registered, their placement, and the records in insertion order.
  datatype Plan = Plan(h: Heap, base: nat, live: set<Addr>, order: seq<Addr>, m: Placed, records: seq<Record>)

  ghost predicate Ready(p: Plan) {
    && Laid(p.h, p.base) && NoOverlap(p.h) && Closed(p.h, p.live)
    && Registered(p.h, p.base, p.live, p.order, p.m, p.records)
  }

  ghost function MapOf(p: Plan): map<Addr, Addr> {
    RelocationMap(p.live, p.base, p.m.table.base, p.records)
  }

  ghost function ImageOf(p: Plan): Heap
    requires Ready(p)
  {
    PlanMoves(p);
    Image(p.h, MapOf(p))
  }

  lemma PlanMoves(p: Plan)
    requires Ready(p)
    ensures var f := MapOf(p);
      && f.Keys == p.live && Injective(f)
      && (forall a :: a in f ==> a in p.h && Covered(f, p.h[a]))
      && MovedHeap(p.h, f, Image(p.h, f))
  {
    RelocationExact(p.h, p.base, p.live, p.order, p.m, p.records);
    ImageMoved(p.h, MapOf(p));
  }

  lemma ImageOfMoved(p: Plan)
    requires Ready(p)
    ensures MovedHeap(p.h, MapOf(p), ImageOf(p))
  {
    hide Ready, MapOf, Image, MovedHeap;
    PlanMoves(p);
  }

  // The part of the relocated heap that lies in a range of addresses.
  ghost function Within(img: Heap, lo: nat, hi: nat): Heap {
    map d | d in img.Keys && lo <= d < hi :: img[d]
  }

  ghost function PageImage(p: Plan, page: nat): Heap
    requires Ready(p) && p.m.table.Has(page)
  {
    var t := p.m.table;
    Within(ImageOf(p), t.Page(page).start, t.Page(page).start + t.Page(page).Size())
  }

  function Shifted(s: set<nat>, start: nat): (r: set<Addr>)
    ensures forall d: Addr :: d in r <==> d >= start && d - start in s
  {
    set o | o in s :: start + o
  }

  // A buffer put in place at an address.
  function Install(buffer: map<nat, Obj>, start: nat): Heap {
    map d | d in Shifted(buffer.Keys, start) :: buffer[d - start]
  }

  // The i-th registered object, in the relocated heap.
  lemma ImageAt(p: Plan, i: nat)
    requires Ready(p) && i < |p.order|
    ensures |p.records| == |p.order| == |p.m.grants|
    ensures p.order[i] in p.h && p.order[i] in MapOf(p) && Covered(MapOf(p), p.h[p.order[i]])
    ensures p.order[i] == p.base + p.records[i].src
    ensures p.m.grants[i].addr == p.m.table.base + p.records[i].dest
    ensures p.m.grants[i].addr in ImageOf(p)
    ensures ImageOf(p)[p.m.grants[i].addr] == MoveObj(MapOf(p), p.h[p.order[i]])
  {
    RelocationExact(p.h, p.base, p.live, p.order, p.m, p.records);
    PlanMoves(p);
    hide RelocationMap, PlacedInOrder, NoOverlap, Laid, Closed;
    assert p.order[i] in p.live;
  }

  // Nothing else is there.
  lemma ImageOnly(p: Plan, d: Addr) returns (i: nat)
    requires Ready(p) && d in ImageOf(p)
    ensures i < |p.order| == |p.m.grants| && p.m.grants[i].addr == d
  {
    RelocationExact(p.h, p.base, p.live, p.order, p.m, p.records);
    PlanMoves(p);
    hide RelocationMap, PlacedInOrder, NoOverlap, Laid, Closed;
    var f := MapOf(p);
    var a :| a in f && f[a] == d;
    i :| 0 <= i < |p.order| && p.order[i] == a;
  }

  lemma PlanRecorded(p: Plan)
    requires Ready(p)
    ensures Good(p.m) && Recorded(p.m, p.records)
  {
    PlaceGrants(p.m.table.base, p.m.table.nrPages, SizesOf(p.h, p.order));
    assert forall i :: 0 <= i < |p.records| ==> p.m.grants[i].size == SizesOf(p.h, p.order)[i];
  }

  lemma PlanObject(p: Plan, i: nat)
    requires Ready(p) && i < |p.order| && p.order[i] in p.h
    ensures |p.m.grants| == |p.order| && p.m.grants[i].size == p.h[p.order[i]].size
    ensures p.h[p.order[i]].size > 0 && p.h[p.order[i]].size % 8 == 0
  {
    PlaceGrants(p.m.table.base, p.m.table.nrPages, SizesOf(p.h, p.order));
    assert SizesOf(p.h, p.order)[i] == p.h[p.order[i]].size;
  }

  lemma RecordOfPage(p: Plan, page: nat, i: nat)
    requires Ready(p) && p.m.table.Has(page) && i < |p.records|
    ensures var t, r := p.m.table, p.records[i];
      && r.size > 0 && t.Page(page).start == t.base + PageLo(t, page)
      && (Meets(Dest, r, PageLo(t, page), PageHi(t, page)) <==> InPage(t, page, r))
  {
    PlanRecorded(p);
    RecordedDisjoint(p.m, p.records);
    RecordInOnePage(p.m, p.records, i, page);
    assert PageOk(p.m.table, page);
    hide Ready, Good, Recorded, Disjoint, Tiled;
  }

  lemma MeetingIndex(rs: seq<Record>, lo: nat, hi: nat, r: Record) returns (i: nat)
    requires r in Meeting(Dest, rs, lo, hi)
    ensures i < |rs| && rs[i] == r && Meets(Dest, r, lo, hi)
  {
    MeetingSpec(Dest, rs, lo, hi);
    i :| i < |rs| && rs[i] == r;
  }

  // The records that meet a page lie inside it and are that page's share of the relocated heap.
  lemma RecordInImage(p: Plan, page: nat, r: Record)
    requires Ready(p) && p.m.table.Has(page)
    requires r in Meeting(Dest, p.records, PageLo(p.m.table, page), PageHi(p.m.table, page))
    ensures var t := p.m.table;
      r in p.records && InPage(t, page, r) && r.size > 0 && t.base + r.dest in PageImage(p, page)
  {
    hide *;
    var i := MeetingIndex(p.records, PageLo(p.m.table, page), PageHi(p.m.table, page), r);
    RecordOfPage(p, page, i);
    RecordHasImage(p, i);
    InPageImage(p, page, r);
  }

  lemma RecordHasImage(p: Plan, i: nat)
    requires Ready(p) && i < |p.records|
    ensures p.m.table.base + p.records[i].dest in ImageOf(p)
  {
    hide Ready, ImageOf, MapOf;
    PlanSizes(p);
    ImageAt(p, i);
  }

  lemma InPageImage(p: Plan, page: nat, r: Record)
    requires Ready(p) && p.m.table.Has(page)
    requires p.m.table.Page(page).start == p.m.table.base + PageLo(p.m.table, page)
    requires InPage(p.m.table, page, r) && r.size > 0 && p.m.table.base + r.dest in ImageOf(p)
    ensures p.m.table.base + r.dest in PageImage(p, page)
  {
    hide Ready, ImageOf;
  }

  lemma ImageHasRecord(p: Plan, page: nat, d: Addr) returns (r: Record)
    requires Ready(p) && p.m.table.Has(page) && d in PageImage(p, page)
    ensures r in Meeting(Dest, p.records, PageLo(p.m.table, page), PageHi(p.m.table, page))
    ensures p.m.table.base + r.dest == d
  {
    MeetingSpec(Dest, p.records, PageLo(p.m.table, page), PageHi(p.m.table, page));
    hide Ready, Meeting, ImageOf, MapOf;
    var i := ImageOnly(p, d);
    PlanSizes(p);
    ImageAt(p, i);
    RecordOfPage(p, page, i);
    r := p.records[i];
    assert r in p.records;
  }

  lemma PlanSizes(p: Plan)
    requires Ready(p)
    ensures |p.records| == |p.order| && NonEmpty(p.records)
    ensures Disjoint(Src, p.records) && Disjoint(Dest, p.records)
  {
    RegisteredDisjoint(p.h, p.base, p.live, p.order, p.m, p.records);
  }

  // Where in the page, and where in the space, the objects of these records start.
  ghost function Offsets(rs: seq<Record>, lo: nat): set<int> {
    set r | r in rs :: r.dest - lo
  }

  ghost function Starts(rs: seq<Record>, base: nat): set<Addr> {
    set r | r in rs :: base + r.dest
  }

  // The buffer holds the relocated object of each record at its offset in the page.
  ghost predicate Holding(img: Heap, base: nat, rs: seq<Record>, buffer: map<nat, Obj>, lo: nat) {
    && (forall o: int :: o in Offsets(rs, lo) <==> o >= 0 && o in buffer.Keys)
    && (forall o :: o in buffer ==> base + lo + o in img && buffer[o] == img[base + lo + o])
  }

  lemma PageImageStarts(p: Plan, page: nat)
    requires Ready(p) && p.m.table.Has(page)
    ensures PageImage(p, page).Keys
         == Starts(Meeting(Dest, p.records, PageLo(p.m.table, page), PageHi(p.m.table, page)), p.m.table.base)
    ensures forall d :: d in PageImage(p, page) ==> d in ImageOf(p) && PageImage(p, page)[d] == ImageOf(p)[d]
  {
    hide Ready, ImageOf, Meeting;
    var t := p.m.table;
    var rs := Meeting(Dest, p.records, PageLo(t, page), PageHi(t, page));
    forall d | d in PageImage(p, page) ensures d in Starts(rs, t.base) {
      var r := ImageHasRecord(p, page, d);
    }
    forall d | d in Starts(rs, t.base) ensures d in PageImage(p, page) {
      var r :| r in rs && t.base + r.dest == d;
      RecordInImage(p, page, r);
    }
  }

  // The relocated objects of some of the records.
  ghost function Copies(p: Plan, rs: seq<Record>): Heap
    requires Ready(p)
  {
    map d | d in Starts(rs, p.m.table.base) && d in ImageOf(p) :: ImageOf(p)[d]
  }

  lemma CopiesSpec(p: Plan, rs: seq<Record>)
    requires Ready(p) && forall r :: r in rs ==> r in p.records
    ensures Copies(p, rs).Keys == Starts(rs, p.m.table.base)
    ensures forall d :: d in Copies(p, rs) ==> d in ImageOf(p) && Copies(p, rs)[d] == ImageOf(p)[d]
  {
    hide Ready, ImageOf;
    forall r | r in rs ensures p.m.table.base + r.dest in ImageOf(p) {
      var i: nat :| i < |p.records| && p.records[i] == r;
      RecordHasImage(p, i);
    }
  }

  // A buffer holding the objects of these records, put at the page's start, is their copies.
  lemma BufferIsCopies(p: Plan, page: nat, rs: seq<Record>, buffer: map<nat, Obj>)
    requires Ready(p) && p.m.table.Has(page) && forall r :: r in rs ==> r in p.records
    requires Holding(ImageOf(p), p.m.table.base, rs, buffer, PageLo(p.m.table, page))
    ensures Install(buffer, p.m.table.Page(page).start) == Copies(p, rs)
  {
    hide *;
    PageStart(p, page);
    CopiesSpec(p, rs);
    InstallIs(ImageOf(p), Copies(p, rs), p.m.table.base, rs, buffer, PageLo(p.m.table, page));
  }

  // When a page is served they are its share of the relocated heap.
  lemma ServedCopies(p: Plan, page: nat, at: Option<nat>)
    requires Ready(p) && p.m.table.Has(page) && (at.Some? ==> at.value < |p.records|)
    requires Served(p.m.table, p.records, page, at)
    ensures Copies(p, Deliver(Dest, p.records, at, PageHi(p.m.table, page))) == PageImage(p, page)
  {
    hide Ready, ImageOf, PageImage, Deliver, Meeting, Copies, Starts;
    DeliveredAreRecords(p.records, at, PageHi(p.m.table, page));
    CopiesSpec(p, Deliver(Dest, p.records, at, PageHi(p.m.table, page)));
    PageImageStarts(p, page);
  }

  lemma PageStart(p: Plan, page: nat)
    requires Ready(p) && p.m.table.Has(page)
    ensures p.m.table.Page(page).start == p.m.table.base + PageLo(p.m.table, page)
  {
    PlanRecorded(p);
    assert PageOk(p.m.table, page);
  }

  lemma InstallAt(img: Heap, base: nat, rs: seq<Record>, buffer: map<nat, Obj>, lo: nat, d: Addr)
    requires Holding(img, base, rs, buffer, lo)
    ensures d in Install(buffer, base + lo) <==> d in Starts(rs, base)
    ensures d in Install(buffer, base + lo) ==> d in img && Install(buffer, base + lo)[d] == img[d]
  {
    var o := d - (base + lo);
    assert base + lo + o == d;
    if d in Starts(rs, base) {
      var r :| r in rs && base + r.dest == d;
      assert r.dest - lo == o;
    }
    if o in Offsets(rs, lo) {
      var r :| r in rs && r.dest - lo == o;
      assert base + r.dest == d;
    }
  }

  // A buffer with the objects of these records is the share whose starts are these records'.
  lemma InstallIs(img: Heap, share: Heap, base: nat, rs: seq<Record>, buffer: map<nat, Obj>, lo: nat)
    requires Holding(img, base, rs, buffer, lo)
    requires share.Keys == Starts(rs, base) && forall d :: d in share ==> d in img && share[d] == img[d]
    ensures Install(buffer, base + lo) == share
  {
    hide *;
    forall d: Addr
      ensures d in Install(buffer, base + lo) <==> d in share.Keys
      ensures d in Install(buffer, base + lo) ==> d in img && Install(buffer, base + lo)[d] == img[d]
    {
      InstallAt(img, base, rs, buffer, lo, d);
    }
  }

  // ----- The copier -----

  predicate FieldsAbove(start: nat, o: Obj) {
    forall i :: 0 <= i < |o.fields| && o.fields[i].Some? ==> o.fields[i].value >= start
  }

  // Every pointer of the object has a record.
  ghost predicate FieldsRecorded(rs: seq<Record>, start: nat, o: Obj)
    requires FieldsAbove(start, o)
  {
    forall i :: 0 <= i < |o.fields| && o.fields[i].Some? ==> MapAddr(rs, o.fields[i].value - start).Some?
  }

  // The pointers of an object, through the registry.
  ghost predicate Fixed(rs: seq<Record>, start: nat, toSpace: nat, o: Obj, r: Obj)
    requires FieldsAbove(start, o)
  {
    && |r.fields| == |o.fields| && r == o.(fields := r.fields)
    && (forall i :: 0 <= i < |o.fields| ==> FixedPtr(rs, start, toSpace, o.fields[i], r.fields[i]))
  }

  ghost predicate FixedPtr(rs: seq<Record>, start: nat, toSpace: nat, p: Option<Addr>, q: Option<Addr>)
    requires p.Some? ==> p.value >= start
  {
    if p.None? then q == None
    else MapAddr(rs, p.value - start).Some? && q == Some(toSpace + MapAddr(rs, p.value - start).value)
  }

  method FixPointers(registry: RelocationRegistry, start: nat, toSpace: nat, o: Obj) returns (r: Option<Obj>)
    requires Sorted(Src, registry.recordsBySrc) && NonEmpty(registry.recordsBySrc)
    requires FieldsAbove(start, o)
    ensures r.Some? <==> FieldsRecorded(registry.recordsBySrc, start, o)
    ensures r.Some? ==> Fixed(registry.recordsBySrc, start, toSpace, o, r.value)
  {
    hide Sorted, NonEmpty, MapAddr;
    var fields: seq<Option<Addr>> := o.fields;
    for i := 0 to |o.fields|
      invariant |fields| == |o.fields| && fields[i..] == o.fields[i..]
      invariant forall k :: 0 <= k < i ==> FixedPtr(registry.recordsBySrc, start, toSpace, o.fields[k], fields[k])
    {
      assert fields[i] == fields[i..][0] == o.fields[i];
      if fields[i].Some? {
        var mapped := registry.MapSrcToDest(fields[i].value - start);
        if mapped.None? {
          return None;
        }
        fields := fields[i := Some(toSpace + mapped.value)];
      }
    }
    r := Some(o.(fields := fields));
  }

  // What the frozen registry says about a live object's address.
  lemma LiveMapped(p: Plan, a: Addr)
    requires Ready(p) && a in MapOf(p)
    ensures a >= p.base
    ensures var d := MapAddr(SortBySrc(p.records), a - p.base); d.Some? && MapOf(p)[a] == p.m.table.base + d.value
  {
    hide *;
    PlanSizes(p);
    MapEntry(p, a);
    FreezeKeepsMap(p.records, a - p.base);
  }

  lemma MapEntry(p: Plan, a: Addr)
    requires a in MapOf(p)
    ensures a >= p.base && MapAddr(p.records, a - p.base).Some?
    ensures MapOf(p)[a] == p.m.table.base + MapAddr(p.records, a - p.base).value
  {
    hide MapAddr;
  }

  lemma LiveRecorded(p: Plan, o: Obj)
    requires Ready(p) && Covered(MapOf(p), o)
    ensures FieldsAbove(p.base, o) && FieldsRecorded(SortBySrc(p.records), p.base, o)
  {
    hide Ready, SortBySrc, MapAddr, MapOf;
    forall k | 0 <= k < |o.fields| && o.fields[k].Some?
      ensures o.fields[k].value >= p.base
      ensures o.fields[k].value >= p.base ==> MapAddr(SortBySrc(p.records), o.fields[k].value - p.base).Some?
    {
      LiveMapped(p, o.fields[k].value);
    }
  }

  // A live object's fixed copy is the relocated object.
  lemma FixedIsMoved(p: Plan, o: Obj, r: Obj)
    requires Ready(p) && Covered(MapOf(p), o) && FieldsAbove(p.base, o)
    requires Fixed(SortBySrc(p.records), p.base, p.m.table.base, o, r)
    ensures r == MoveObj(MapOf(p), o)
  {
    hide Ready, SortBySrc, MapAddr, MapOf;
    var f := MapOf(p);
    forall k | 0 <= k < |o.fields| ensures r.fields[k] == MovePtr(f, o.fields[k]) {
      assert FixedPtr(SortBySrc(p.records), p.base, p.m.table.base, o.fields[k], r.fields[k]);
      if o.fields[k].Some? {
        LiveMapped(p, o.fields[k].value);
      }
    }
    assert r.fields == MoveObj(f, o).fields;
  }

  // The object at a record's source can be fixed.
  lemma RecordFixes(p: Plan, k: nat)
    requires Ready(p) && k < |p.records|
    ensures p.base + p.records[k].src in p.h && FieldsAbove(p.base, p.h[p.base + p.records[k].src])
    ensures FieldsRecorded(SortBySrc(p.records), p.base, p.h[p.base + p.records[k].src])
  {
    hide Ready, MapOf, ImageOf, FieldsAbove, FieldsRecorded, SortBySrc;
    PlanSizes(p);
    ImageAt(p, k);
    LiveRecorded(p, p.h[p.base + p.records[k].src]);
  }

  // And fixed it is the record's object in the relocated heap.
  lemma FixedIsImage(p: Plan, k: nat, o: Obj)
    requires Ready(p) && k < |p.records| && p.base + p.records[k].src in p.h
    requires FieldsAbove(p.base, p.h[p.base + p.records[k].src])
    requires Fixed(SortBySrc(p.records), p.base, p.m.table.base, p.h[p.base + p.records[k].src], o)
    ensures p.m.table.base + p.records[k].dest in ImageOf(p) && o == ImageOf(p)[p.m.table.base + p.records[k].dest]
  {
    hide Ready, MapOf, ImageOf, FieldsAbove, Fixed, SortBySrc;
    PlanSizes(p);
    ImageAt(p, k);
    FixedIsMoved(p, p.h[p.base + p.records[k].src], o);
  }

  lemma PlanSorted(p: Plan)
    requires Ready(p)
    ensures Sorted(Src, SortBySrc(p.records)) && NonEmpty(SortBySrc(p.records))
  {
    hide *;
    PlanSizes(p);
    SortSorts(p.records);
  }

  lemma HoldOne(img: Heap, base: nat, rs: seq<Record>, buffer: map<nat, Obj>, lo: nat, r: Record, o: Obj)
    requires Holding(img, base, rs, buffer, lo)
    requires r.dest >= lo && base + r.dest in img && o == img[base + r.dest]
    ensures Holding(img, base, rs + [r], buffer[r.dest - lo := o], lo)
  {
    assert forall q :: q in rs + [r] <==> q in rs || q == r;
    assert Offsets(rs + [r], lo) == Offsets(rs, lo) + {r.dest - lo} by {
      assert r in rs + [r];
    }
    hide Offsets;
  }

  lemma ServedWhenIncreasing(p: Plan, page: nat)
    requires Ready(p) && p.m.table.Has(page)
    ensures Increasing(p.m.grants) ==> forall at: Option<nat> ::
      (at.Some? ==> at.value < |p.records|) && SearchResult(Dest, p.records, PageLo(p.m.table, page), at) ==>
        Served(p.m.table, p.records, page, at)
    ensures forall at: Option<nat> ::
      (at.Some? ==> at.value < |p.records|) && Served(p.m.table, p.records, page, at) ==>
      AllInPage(p.m.table, page, Deliver(Dest, p.records, at, PageHi(p.m.table, page)))
  {
    hide *;
    PlanRecorded(p);
    if Increasing(p.m.grants) {
      forall at: Option<nat> | (at.Some? ==> at.value < |p.records|)
                               && SearchResult(Dest, p.records, PageLo(p.m.table, page), at)
        ensures Served(p.m.table, p.records, page, at)
      {
        IncreasingServes(p.m, p.records, page, at);
      }
    }
    forall at: Option<nat> | (at.Some? ==> at.value < |p.records|) && Served(p.m.table, p.records, page, at)
      ensures AllInPage(p.m.table, page, Deliver(Dest, p.records, at, PageHi(p.m.table, page)))
    {
      ServedInPage(p, page, at);
    }
  }

  lemma ServedInPage(p: Plan, page: nat, at: Option<nat>)
    requires Ready(p) && p.m.table.Has(page) && (at.Some? ==> at.value < |p.records|)
    requires Served(p.m.table, p.records, page, at)
    ensures AllInPage(p.m.table, page, Deliver(Dest, p.records, at, PageHi(p.m.table, page)))
  {
    hide Ready, Deliver, Meeting;
    forall r | r in Deliver(Dest, p.records, at, PageHi(p.m.table, page)) ensures InPage(p.m.table, page, r) {
      RecordInImage(p, page, r);
    }
  }

  lemma HoldNone(img: Heap, base: nat, lo: nat)
    ensures Holding(img, base, [], map[], lo)
  {
  }

  lemma PageNotEmpty(p: Plan, page: nat)
    requires Ready(p) && p.m.table.Has(page)
    ensures PageLo(p.m.table, page) < PageHi(p.m.table, page)
  {
    PlanRecorded(p);
    assert PageOk(p.m.table, page);
  }

  // ----- Pages as a partition of the relocated heap -----

  lemma PlanTiled(p: Plan)
    requires Ready(p)
    ensures Tiled(p.m.table)
  {
    PlanRecorded(p);
  }

  lemma HolderIsUsed(t: Table, h: nat, addr: nat)
    requires Tiled(t) && Holds(t, h, addr)
    ensures h < t.current <= t.nrPages && t.base <= addr < t.End()
    ensures forall g: nat :: Holds(t, g, addr) ==> g == h
  {
    assert PageOk(t, h);
    forall g: nat | Holds(t, g, addr) ensures g == h {
      if g < h { PagesApart(t, g, h); }
      if h < g { PagesApart(t, h, g); }
    }
  }

  lemma NoneHolds(t: Table, addr: nat)
    requires Tiled(t) && addr >= t.End()
    ensures forall h: nat :: !Holds(t, h, addr)
  {
    forall h: nat | Holds(t, h, addr) ensures false {
      HolderIsUsed(t, h, addr);
    }
  }

  lemma StartHolds(p: Plan, h: nat)
    requires Ready(p) && p.m.table.Has(h)
    ensures Holds(p.m.table, h, p.m.table.Page(h).start)
    ensures p.m.table.base <= p.m.table.Page(h).start < p.m.table.End()
    ensures p.m.table.End() <= p.m.table.base + p.m.table.nrPages * BASE_PAGE_SIZE
    ensures h < p.m.table.current <= p.m.table.nrPages
  {
    PlanTiled(p);
    hide Ready;
    assert PageOk(p.m.table, h);
    HolderIsUsed(p.m.table, h, p.m.table.Page(h).start);
  }

  lemma InItsPage(p: Plan, page: nat, d: Addr)
    requires Ready(p) && p.m.table.Has(page)
    ensures d in PageImage(p, page) <==> d in ImageOf(p) && Holds(p.m.table, page, d)
    ensures d in PageImage(p, page) ==> PageImage(p, page)[d] == ImageOf(p)[d]
  {
    hide Ready, ImageOf;
  }

  // The pages' shares of the relocated heap partition it.
  lemma ImageInOnePage(p: Plan, d: Addr) returns (h: nat)
    requires Ready(p) && d in ImageOf(p)
    ensures p.m.table.Has(h) && d in PageImage(p, h)
    ensures forall g: nat :: p.m.table.Has(g) && d in PageImage(p, g) ==> g == h
  {
    hide *;
    h := PageOfImage(p, d);
    PlanTiled(p);
    HolderIsUsed(p.m.table, h, d);
    InItsPage(p, h, d);
    forall g: nat | p.m.table.Has(g) && d in PageImage(p, g) ensures g == h {
      InItsPage(p, g, d);
    }
  }

  lemma PageOfImage(p: Plan, d: Addr) returns (h: nat)
    requires Ready(p) && d in ImageOf(p)
    ensures p.m.table.Has(h) && Holds(p.m.table, h, d)
  {
    var i := ImageOnly(p, d);
    PlanRecorded(p);
    hide Ready, ImageOf;
    assert Inside(p.m.table, p.m.grants[i]);
    h := p.m.grants[i].page;
  }

  // What a space holds outside a range.
  ghost function Outside(heap: Heap, lo: nat, hi: nat): Heap {
    map d | d in heap.Keys && !(lo <= d < hi) :: heap[d]
  }

  ghost function Delivered(p: Plan, page: nat, at: Option<nat>): seq<Record>
    requires p.m.table.Has(page) && (at.Some? ==> at.value < |p.records|)
  {
    Deliver(Dest, p.records, at, PageHi(p.m.table, page))
  }

  // A page moved into place, with what its query delivered.
  ghost function Filled(p: Plan, page: nat, at: Option<nat>, toSpace: Heap): Heap
    requires Ready(p) && p.m.table.Has(page) && (at.Some? ==> at.value < |p.records|)
  {
    var start := p.m.table.Page(page).start;
    Outside(toSpace, start, start + p.m.table.Page(page).Size()) + Copies(p, Delivered(p, page, at))
  }

  // Where the page's search may have stopped.
  ghost predicate SearchedAt(p: Plan, page: nat, at: Option<nat>)
    requires p.m.table.Has(page)
  {
    (at.Some? ==> at.value < |p.records|) && SearchResult(Dest, p.records, PageLo(p.m.table, page), at)
  }

  // And no assertion fired.
  ghost predicate Passed(p: Plan, page: nat, at: Option<nat>)
    requires p.m.table.Has(page)
  {
    SearchedAt(p, page, at) && AllInPage(p.m.table, page, Delivered(p, page, at))
  }

  // A record that the query delivered is not inside the page: an assertion fires.
  ghost predicate Fires(p: Plan, u: nat, at: Option<nat>)
    requires p.m.table.Has(u) ==> SearchedAt(p, u, at)
  {
    p.m.table.Has(u) && !Passed(p, u, at)
  }

  // Moving a unit into place replaces all of it, a used page by what its query delivered.
  ghost function Put(p: Plan, heap: Heap, u: nat, at: Option<nat>): Heap
    requires Ready(p) && (p.m.table.Has(u) ==> SearchedAt(p, u, at))
  {
    if p.m.table.Has(u) then Filled(p, u, at, heap)
    else Outside(heap, p.m.table.base + u * BASE_PAGE_SIZE, p.m.table.base + u * BASE_PAGE_SIZE + BASE_PAGE_SIZE)
  }

  lemma NotPassed(p: Plan, page: nat, at: Option<nat>)
    requires Ready(p) && p.m.table.Has(page) && SearchedAt(p, page, at) && !Passed(p, page, at)
    ensures !Increasing(p.m.grants)
  {
    hide Ready, Increasing, SearchResult, Served, AllInPage, Deliver;
    ServedWhenIncreasing(p, page);
  }

  // The page holds the objects of the records its query delivered.
  ghost predicate Brought(p: Plan, page: nat, at: Option<nat>, toSpace: Heap)
    requires Ready(p) && p.m.table.Has(page)
  {
    Passed(p, page, at)
    && forall d :: d in PageImage(p, page) ==> (d in toSpace <==> d in Starts(Delivered(p, page, at), p.m.table.base))
  }

  // Pages marked done hold what their queries delivered, other pages nothing.
  ghost predicate PartlyFilled(p: Plan, workDone: seq<bool>, toSpace: Heap)
    requires Ready(p)
  {
    && (forall d :: d in toSpace ==> d in ImageOf(p) && toSpace[d] == ImageOf(p)[d])
    && (forall h: nat :: p.m.table.Has(h) && h < |workDone| && workDone[h] ==> exists at :: Brought(p, h, at, toSpace))
    && (forall h: nat, d ::
          p.m.table.Has(h) && h < |workDone| && !workDone[h] && d in PageImage(p, h) ==> d !in toSpace)
  }

  lemma NothingFilled(p: Plan, n: nat)
    requires Ready(p)
    ensures PartlyFilled(p, seq(n, _ => false), map[])
  {
    hide Ready, ImageOf, PageImage;
  }

  // Filling a page changes the page to what was delivered and nothing elsewhere.
  lemma FilledAt(p: Plan, page: nat, at: Option<nat>, toSpace: Heap, h: nat, d: Addr)
    requires Ready(p) && p.m.table.Has(page) && p.m.table.Has(h) && Passed(p, page, at) && d in PageImage(p, h)
    ensures d in Filled(p, page, at, toSpace)
       <==> if h == page then d in Starts(Delivered(p, page, at), p.m.table.base) else d in toSpace
  {
    hide Ready, ImageOf, PageImage, Deliver, Tiled, SearchResult, Starts, Copies, AllInPage, Holds;
    DeliveredAreRecords(p.records, at, PageHi(p.m.table, page));
    CopiesSpec(p, Delivered(p, page, at));
    InItsPage(p, h, d);
    PlanTiled(p);
    HolderIsUsed(p.m.table, h, d);
    DeliveredInPage(p, page, at, d);
    HoldsRange(p.m.table, page, d);
    var start := p.m.table.Page(page).start;
    assert (start <= d < start + p.m.table.Page(page).Size()) <==> h == page;
  }

  lemma HoldsRange(t: Table, h: nat, d: Addr)
    requires t.Has(h)
    ensures Holds(t, h, d) <==> t.Page(h).start <= d < t.Page(h).start + t.Page(h).Size()
  {
  }

  lemma DeliveredInPage(p: Plan, page: nat, at: Option<nat>, d: Addr)
    requires Ready(p) && p.m.table.Has(page) && Passed(p, page, at)
    ensures d in Starts(Delivered(p, page, at), p.m.table.base) ==> Holds(p.m.table, page, d)
  {
    hide Ready, Deliver, SearchResult, Disjoint, InPage, Holds, PageLo, PageHi, NonEmpty;
    PageStart(p, page);
    DeliveredAreRecords(p.records, at, PageHi(p.m.table, page));
    if d in Starts(Delivered(p, page, at), p.m.table.base) {
      var r :| r in Delivered(p, page, at) && p.m.table.base + r.dest == d;
      RecordHasSize(p, r);
      InPageHolds(p.m.table, page, r);
    }
  }

  lemma RecordHasSize(p: Plan, r: Record)
    requires Ready(p) && r in p.records
    ensures r.size > 0
  {
    hide Ready, Disjoint;
    PlanSizes(p);
    var i: nat :| i < |p.records| && p.records[i] == r;
  }

  lemma InPageHolds(t: Table, page: nat, r: Record)
    requires t.Has(page) && t.Page(page).start == t.base + PageLo(t, page) && InPage(t, page, r) && r.size > 0
    ensures Holds(t, page, t.base + r.dest)
  {
  }

  lemma FillOne(p: Plan, workDone: seq<bool>, toSpace: Heap, page: nat, at: Option<nat>)
    requires Ready(p) && p.m.table.Has(page) && page < |workDone| && PartlyFilled(p, workDone, toSpace)
    requires !workDone[page] && Passed(p, page, at)
    ensures PartlyFilled(p, workDone[page := true], Filled(p, page, at, toSpace))
  {
    hide Ready, ImageOf, PageImage, Filled, AllInPage, SearchResult, Delivered, Starts;
    var after := Filled(p, page, at, toSpace);
    forall h: nat, d | p.m.table.Has(h) && d in PageImage(p, h)
      ensures d in after <==> if h == page then d in Starts(Delivered(p, page, at), p.m.table.base) else d in toSpace
    {
      FilledAt(p, page, at, toSpace, h, d);
    }
    forall d | d in after ensures d in ImageOf(p) && after[d] == ImageOf(p)[d] {
      FilledValue(p, page, at, toSpace, d);
    }
    assert Brought(p, page, at, after);
    forall h: nat | p.m.table.Has(h) && h < |workDone| && workDone[h] && h != page
      ensures exists a :: Brought(p, h, a, after)
    {
      var a :| Brought(p, h, a, toSpace);
      assert Brought(p, h, a, after);
    }
  }

  lemma FilledValue(p: Plan, page: nat, at: Option<nat>, toSpace: Heap, d: Addr)
    requires Ready(p) && p.m.table.Has(page) && Passed(p, page, at) && d in Filled(p, page, at, toSpace)
    requires forall x :: x in toSpace ==> x in ImageOf(p) && toSpace[x] == ImageOf(p)[x]
    ensures d in ImageOf(p) && Filled(p, page, at, toSpace)[d] == ImageOf(p)[d]
  {
    hide Ready, ImageOf, Deliver, SearchResult, Starts, Copies;
    DeliveredAreRecords(p.records, at, PageHi(p.m.table, page));
    CopiesSpec(p, Delivered(p, page, at));
  }

  // With all pages done, the space is the relocated heap if and only if the destinations came out
  // in increasing order: otherwise an object is lost.
  lemma FilledRightIff(p: Plan, workDone: seq<bool>, toSpace: Heap)
    requires Ready(p) && PartlyFilled(p, workDone, toSpace)
    requires forall h: nat :: p.m.table.Has(h) ==> h < |workDone| && workDone[h]
    ensures toSpace == ImageOf(p) <==> Increasing(p.m.grants)
  {
    hide Ready, ImageOf, PageImage, Increasing, Passed;
    if Increasing(p.m.grants) {
      forall d | d in ImageOf(p) ensures d in toSpace {
        var h := ImageInOnePage(p, d);
        var at :| Brought(p, h, at, toSpace);
        BroughtAll(p, h, at, d);
      }
    } else {
      var h := MissingPage(p);
      var at :| Brought(p, h, at, toSpace);
      var d := Missing(p, h, at);
    }
  }

  lemma BroughtAll(p: Plan, h: nat, at: Option<nat>, d: Addr)
    requires Ready(p) && p.m.table.Has(h) && Passed(p, h, at) && Increasing(p.m.grants) && d in PageImage(p, h)
    ensures d in Starts(Delivered(p, h, at), p.m.table.base)
  {
    hide Ready, ImageOf, PageImage, Increasing, Deliver, Meeting, AllInPage, SearchResult;
    ServedWhenIncreasing(p, h);
    assert Served(p.m.table, p.records, h, at);
    PageImageStarts(p, h);
  }

  // Some page cannot be filled right.
  lemma MissingPage(p: Plan) returns (h: nat)
    requires Ready(p) && !Increasing(p.m.grants)
    ensures p.m.table.Has(h)
    ensures forall at :: Passed(p, h, at) ==> !Complete(p.m.table, p.records, h, Delivered(p, h, at))
  {
    hide Ready, Increasing, Deliver, SearchResult, AllInPage, Complete, Recorded, Good;
    PlanRecorded(p);
    h := OutOfOrderFails(p.m, p.records);
  }

  // A record of the page that was not delivered is an object that is not there.
  lemma Missing(p: Plan, h: nat, at: Option<nat>) returns (d: Addr)
    requires Ready(p) && p.m.table.Has(h) && Passed(p, h, at)
    requires !Complete(p.m.table, p.records, h, Delivered(p, h, at))
    ensures d in PageImage(p, h) && d in ImageOf(p) && d !in Starts(Delivered(p, h, at), p.m.table.base)
  {
    hide Ready, ImageOf, PageImage, Deliver, Meeting, InPage, SearchResult, Disjoint, NonEmpty, Good, Recorded;
    PlanSizes(p);
    PlanRecorded(p);
    DeliveredAreRecords(p.records, at, PageHi(p.m.table, h));
    var r :| r in p.records && InPage(p.m.table, h, r) && r !in Delivered(p, h, at);
    MeetsIffInPage(p.m, p.records, h, r);
    MeetingSpec(Dest, p.records, PageLo(p.m.table, h), PageHi(p.m.table, h));
    RecordInImage(p, h, r);
    d := p.m.table.base + r.dest;
    InItsPage(p, h, d);
    if d in Starts(Delivered(p, h, at), p.m.table.base) {
      var q :| q in Delivered(p, h, at) && p.m.table.base + q.dest == d;
      SameDest(p.records, q, r);
    }
  }

  lemma SameDest(rs: seq<Record>, q: Record, r: Record)
    requires Disjoint(Dest, rs) && NonEmpty(rs) && q in rs && r in rs && q.dest == r.dest
    ensures q == r
  {
    var i: nat :| i < |rs| && rs[i] == q;
    var j: nat :| j < |rs| && rs[j] == r;
    SameIndex(Dest, rs, i, j, q.dest);
  }

  // The placements were at the frontier of the table, one by one.
  ghost predicate InOrder(p: Plan)
    requires Ready(p)
  {
    FrontierRun(p.m.table.base, p.m.table.nrPages, SizesOf(p.h, p.order))
  }

  lemma InOrderIff(p: Plan)
    requires Ready(p)
    ensures InOrder(p) <==> Increasing(p.m.grants)
  {
    IncreasingIff(p.m.table.base, p.m.table.nrPages, SizesOf(p.h, p.order));
  }

  // The copier at work on one relocation. `toSpace` holds what has been moved into place.
  class CopierActive {
    const registry: RelocationRegistry
    const fromSpace: Space
    const pageTable: PageTable
    const zeroPageStart: nat
    const workDone: Bitmap.AtomicBitmap
    var toSpace: Heap

    constructor (registry: RelocationRegistry, fromSpace: Space, pageTable: PageTable)
      ensures this.registry == registry && this.fromSpace == fromSpace && this.pageTable == pageTable
      ensures zeroPageStart == pageTable.currentBasePage
      ensures fresh(workDone) && workDone.Valid() && workDone.len == pageTable.nrPages
      ensures workDone.Bits() == seq(pageTable.nrPages, _ => false) && toSpace == map[]
    {
      this.registry, this.fromSpace, this.pageTable := registry, fromSpace, pageTable;
      zeroPageStart := pageTable.currentBasePage;
      workDone := new Bitmap.AtomicBitmap(pageTable.nrPages);
      toSpace := map[];
    }

    ghost predicate Valid(p: Plan)
      reads this, registry, fromSpace, pageTable, workDone
    {
      && Ready(p)
      && registry.recordsByDest == p.records && registry.recordsBySrc == SortBySrc(p.records)
      && fromSpace.base == p.base && fromSpace.objects == p.h
      && pageTable.State() == p.m.table && zeroPageStart == p.m.table.current
      && workDone.Valid() && workDone.len == p.m.table.nrPages
    }

    lemma ValidShape(p: Plan)
      requires Valid(p)
      ensures Ready(p) && pageTable.State() == p.m.table
      ensures workDone.Valid() && workDone.len == |pageTable.pages| == pageTable.nrPages
    {
      PlanTiled(p);
    }

    lemma ValidFacts(pageId: nat, p: Plan)
      requires Valid(p) && p.m.table.Has(pageId)
      ensures Ready(p) && registry.recordsByDest == p.records && registry.recordsBySrc == SortBySrc(p.records)
      ensures Sorted(Src, SortBySrc(p.records)) && NonEmpty(SortBySrc(p.records)) && NonEmpty(p.records)
      ensures fromSpace.base == p.base && fromSpace.objects == p.h && pageTable.base == p.m.table.base
      ensures pageTable.State() == p.m.table && PageLo(p.m.table, pageId) < PageHi(p.m.table, pageId)
      ensures p.m.table.Page(pageId).start == p.m.table.base + PageLo(p.m.table, pageId)
    {
      hide Ready;
      PageStart(p, pageId);
      PageNotEmpty(p, pageId);
      PlanSorted(p);
      PlanSizes(p);
    }

    // Copies the records a page's query delivers into a buffer and fixes their pointers. `ok` is
    // false when a record is not inside the page, where an assertion fires. The other failure,
    // a pointer without a record, is proved impossible.
    method CopyRecords(pageId: nat, ghost p: Plan)
      returns (ok: bool, buffer: map<nat, Obj>, ghost at: Option<nat>)
      requires Valid(p) && p.m.table.Has(pageId)
      ensures SearchResult(Dest, p.records, PageLo(p.m.table, pageId), at) && (at.Some? ==> at.value < |p.records|)
      ensures var delivered := Deliver(Dest, p.records, at, PageHi(p.m.table, pageId));
        && (ok <==> AllInPage(p.m.table, pageId, delivered))
        && (ok ==> Holding(ImageOf(p), p.m.table.base, delivered, buffer, PageLo(p.m.table, pageId)))
    {
      hide Ready, ImageOf, Sorted, SearchResult, Meeting, Fixed, FieldsAbove, FieldsRecorded, Holding, SortBySrc,
        Tiled, Valid;
      ghost var t := p.m.table;
      ValidFacts(pageId, p);
      var page := pageTable.pages[pageId].value;
      var startOffset := page.start - pageTable.base;
      var endOffset := startOffset + page.Size();
      var delivered;
      delivered, at := IterateInRange(Dest, registry.recordsByDest, startOffset, endOffset);
      buffer := map[];
      HoldNone(ImageOf(p), t.base, startOffset);
      for i := 0 to |delivered|
        invariant AllInPage(t, pageId, delivered[..i])
        invariant Holding(ImageOf(p), t.base, delivered[..i], buffer, startOffset)
      {
        var record := delivered[i];
        assert delivered[..i + 1] == delivered[..i] + [record];
        assert record == p.records[at.value + i];
        assert record in delivered && record.size > 0;
        if !(startOffset <= record.dest < endOffset && startOffset <= record.dest + record.size - 1 < endOffset) {
          return false, buffer, at;
        }
        RecordFixes(p, at.value + i);
        var o := fromSpace.objects[fromSpace.base + record.src];
        var fixed := FixPointers(registry, fromSpace.base, pageTable.base, o);
        FixedIsImage(p, at.value + i, fixed.value);
        HoldOne(ImageOf(p), t.base, delivered[..i], buffer, startOffset, record, fixed.value);
        buffer := buffer[record.dest - startOffset := fixed.value];
      }
      assert delivered[..|delivered|] == delivered;
      ok := true;
    }

    // Fills a page, once: the bit is tested and set first, and a page already done is left alone.
    // `ok` is false when an assertion fires, which is before anything is moved.
    method DoRelocate(pageId: nat, ghost p: Plan) returns (ok: bool, ghost at: Option<nat>)
      requires Valid(p) && p.m.table.Has(pageId) && pageId < workDone.len
      modifies workDone, this`toSpace
      ensures Valid(p) && workDone.Bits() == old(workDone.Bits())[pageId := true]
      ensures old(workDone.Bits()[pageId]) ==> ok
      ensures old(workDone.Bits()[pageId]) || !ok ==> toSpace == old(toSpace)
      ensures !old(workDone.Bits()[pageId]) ==>
        && SearchedAt(p, pageId, at)
        && (ok <==> !Fires(p, pageId, at))
        && (ok ==> toSpace == Put(p, old(toSpace), pageId, at))
    {
      hide Ready, ImageOf, SearchResult, Meeting, Holding, SortBySrc, Tiled, PageImage, Install, Deliver, AllInPage,
        Copies, Outside;
      ok, at := true, None;
      var already := workDone.Set(pageId, true);
      if already.value {
        return;
      }
      ValidFacts(pageId, p);
      var buffer;
      ok, buffer, at := CopyRecords(pageId, p);
      if !ok {
        return;
      }
      DeliveredAreRecords(p.records, at, PageHi(p.m.table, pageId));
      BufferIsCopies(p, pageId, Delivered(p, pageId, at), buffer);
      var page := pageTable.pages[pageId].value;
      MoveMemory(buffer, pageTable.base + (page.start - pageTable.base), page.Size());
    }

    // Replaces a whole range of the space by a buffer.
    method MoveMemory(buffer: map<nat, Obj>, dest: nat, len: nat)
      modifies this`toSpace
      ensures toSpace == Outside(old(toSpace), dest, dest + len) + Install(buffer, dest)
    {
      toSpace := map d | d in toSpace.Keys && !(dest <= d < dest + len) :: toSpace[d];
      toSpace := toSpace + Install(buffer, dest);
    }

    // Beyond the used pages there is nothing to relocate: one base page is zeroed, once.
    method DoZeroPage(pageId: nat)
      requires workDone.Valid() && pageId < workDone.len
      modifies workDone, this`toSpace
      ensures workDone.Valid() && workDone.Bits() == old(workDone.Bits())[pageId := true]
      ensures old(workDone.Bits()[pageId]) ==> toSpace == old(toSpace)
      ensures !old(workDone.Bits()[pageId]) ==>
        var at := pageTable.base + pageId * BASE_PAGE_SIZE;
        toSpace == Outside(old(toSpace), at, at + BASE_PAGE_SIZE)
    {
      var already := workDone.Set(pageId, true);
      if already.value {
        return;
      }
      MoveMemory(map[], pageTable.base + pageId * BASE_PAGE_SIZE, BASE_PAGE_SIZE);
    }

    // A missing address. Below the used end the page lookup always finds the page, so the zero
    // page it would otherwise fall back to never hides a page to relocate.
    method ResolveFault(addr: nat, ghost p: Plan) returns (ok: bool, ghost at: Option<nat>)
      requires Valid(p)
      requires p.m.table.base <= addr < p.m.table.base + p.m.table.nrPages * BASE_PAGE_SIZE
      modifies workDone, this`toSpace
      ensures Valid(p)
      ensures addr >= p.m.table.End() ==>
        var u := (addr - p.m.table.base) / BASE_PAGE_SIZE;
        && ok && u < workDone.len && workDone.Bits() == old(workDone.Bits())[u := true]
        && (old(workDone.Bits())[u] ==> toSpace == old(toSpace))
        && (!old(workDone.Bits())[u] ==> !p.m.table.Has(u) && toSpace == Put(p, old(toSpace), u, None))
      ensures addr < p.m.table.End() ==> exists h: nat :: Holds(p.m.table, h, addr)
      ensures forall h: nat :: Holds(p.m.table, h, addr) ==>
        && h < workDone.len && workDone.Bits() == old(workDone.Bits())[h := true]
        && (old(workDone.Bits())[h] ==> ok)
        && (old(workDone.Bits())[h] || !ok ==> toSpace == old(toSpace))
        && (!old(workDone.Bits())[h] ==> SearchedAt(p, h, at) && (ok <==> !Fires(p, h, at)))
        && (!old(workDone.Bits())[h] && ok ==> toSpace == Put(p, old(toSpace), h, at))
    {
      hide Ready, ImageOf, PageImage, SearchResult, AllInPage, Deliver, SortBySrc, Filled, Outside;
      ok, at := true, None;
      PlanTiled(p);
      var pageId := (addr - pageTable.base) / BASE_PAGE_SIZE;
      if pageId >= zeroPageStart {
        DoZeroPage(pageId);
        NoneHolds(p.m.table, addr);
        return;
      }
      var resolved := pageTable.ResolveToPage(addr);
      assert resolved.Some?;
      HolderIsUsed(p.m.table, resolved.value, addr);
      ok, at := DoRelocate(resolved.value, p);
    }

    // Every page is done: the workers resolve the first address of each, whatever has been filled
    // before by faults. No assertion fires and the whole relocated heap is in place if and only if
    // the marker's placements were at the frontier.
    method Finish(ghost p: Plan) returns (ok: bool)
      requires Valid(p) && PartlyFilled(p, workDone.Bits(), toSpace)
      modifies workDone, this`toSpace
      ensures ok && toSpace == ImageOf(p) <==> InOrder(p)
    {
      hide Ready, ImageOf, PageImage, Increasing, PartlyFilled, Valid, Holds, InOrder, Passed, Filled, Outside;
      ValidShape(p);
      InOrderIff(p);
      for id := 0 to pageTable.nrPages
        invariant Valid(p) && Ready(p) && pageTable.State() == p.m.table
        invariant workDone.Valid() && workDone.len == |pageTable.pages| == pageTable.nrPages
        invariant PartlyFilled(p, workDone.Bits(), toSpace)
        invariant forall h: nat :: h < id && p.m.table.Has(h) ==> workDone.Bits()[h]
      {
        if pageTable.pages[id].Some? {
          var addr := pageTable.pages[id].value.start;
          StartHolds(p, id);
          ghost var wd, ts := workDone.Bits(), toSpace;
          ghost var at;
          ok, at := ResolveFault(addr, p);
          if !ok {
            NotPassed(p, id, at);
            return;
          }
          if !wd[id] { FillOne(p, wd, ts, id, at); } else { assert wd[id := true] == wd; }
          ValidShape(p);
        }
      }
      ok := true;
      FilledRightIff(p, workDone.Bits(), toSpace);
    }
  }
}
