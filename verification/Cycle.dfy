// One cycle with the program stopped, on the collector's own objects: the marker, the registry,
// the copier and the two spaces, put together as the five steps do.
module Cycle {
  import opened Prelude
  import opened Pages
  import opened Placement
  import opened Registry
  import opened Graph
  import opened Marking
  import opened Copier
  import PageRuns
  import ConcurrentMark
  import Collector
  import Mutator

  // A space and its page table.
  class MM {
    const space: Space
    const pageTable: PageTable

    constructor (space: Space, pageTable: PageTable)
      ensures this.space == space && this.pageTable == pageTable
    {
      this.space, this.pageTable := space, pageTable;
    }
  }

  // A heap between cycles: no dangling pointers, objects apart, the roots in it, and every object
  // with the bit that is not the mark of the next cycle.
  ghost predicate Settled(h: Heap, base: nat, roots: seq<Addr>, mark: Bit) {
    && WellFormed(h) && Laid(h, base) && NoOverlap(h)
    && (forall r :: r in roots ==> r in h)
    && (forall a :: a in h ==> h[a].mark == mark)
  }

  // Every object has memory that the table has handed out.
  ghost predicate Housed(h: Heap, t: Table) {
    forall a :: a in h ==> exists page :: PageRuns.Inside(t, Grant(a, h[a].size, page))
  }

  // So whatever is allocated next is clear of all of them, and they stay housed.
  lemma NextGrantClear(h: Heap, t: Table, local: Option<nat>, size: nat)
    requires Housed(h, t) && Tiled(t) && LocalOk(t, local) && size % 8 == 0
    ensures var o := AllocIn(t, local, size);
      Housed(h, o.table) && (o.grant.Some? ==> ClearOf(h, o.grant.value))
  {
    hide AllocIn, Tiled, LocalOk, PageRuns.Inside;
    AllocStep(t, local, size);
    var o := AllocIn(t, local, size);
    forall a | a in h ensures exists page :: PageRuns.Inside(o.table, Grant(a, h[a].size, page))
      ensures o.grant.Some? ==> Grant(a, h[a].size, 0).Apart(o.grant.value)
    {
      var page :| PageRuns.Inside(t, Grant(a, h[a].size, page));
      if o.grant.Some? { PageRuns.NewGrantApart(t, o, Grant(a, h[a].size, page)); }
    }
  }

  ghost predicate ClearOf(h: Heap, g: Grant) {
    forall a :: a in h ==> Grant(a, h[a].size, 0).Apart(g)
  }

  // The relocated objects are where the marker has reserved room for them.
  lemma ImageHoused(p: Plan)
    requires Ready(p)
    ensures Housed(ImageOf(p), p.m.table)
  {
    hide Ready, ImageOf, MapOf;
    PlanRecorded(p);
    forall d | d in ImageOf(p) ensures exists page :: PageRuns.Inside(p.m.table, Grant(d, ImageOf(p)[d].size, page)) {
      var i := ImageOnly(p, d);
      ImageAt(p, i);
      PlanObject(p, i);
      assert PageRuns.Inside(p.m.table, p.m.grants[i]);
      assert p.m.grants[i] == Grant(d, ImageOf(p)[d].size, p.m.grants[i].page);
    }
  }

  function RootSet(roots: seq<Addr>): set<Addr> {
    set r | r in roots
  }

  // The live bytes meet the space bound.
  ghost predicate Roomy(h: Heap, roots: seq<Addr>, nrPages: nat) {
    var live := Live(h, RootSet(roots));
    WeightOf(h, live) + 7 * PageRuns.TEN_MIB <= 7 * (nrPages * BASE_PAGE_SIZE)
  }

  // The copy of what was reachable, along f, and nothing else.
  ghost predicate Relocated(h: Heap, roots: seq<Addr>, f: map<Addr, Addr>, h': Heap, roots': seq<Addr>, mark: Bit) {
    && f.Keys == Live(h, RootSet(roots)) && Injective(f) && h'.Keys == f.Values
    && (forall a :: a in f ==> a in h && Covered(f, h[a]) && h'[f[a]] == MoveObj(f, h[a]).(mark := mark))
    && |roots'| == |roots| && (forall i :: 0 <= i < |roots| ==> roots[i] in f && roots'[i] == f[roots[i]])
  }

  // What marking has left behind is a plan for the copier.
  lemma MarkedIsReady(h0: Heap, h: Heap, base: nat, roots: seq<Addr>, order: seq<Addr>, m: Placed, rs: seq<Record>)
    requires WellFormed(h0) && Laid(h0, base) && NoOverlap(h0) && (forall r :: r in roots ==> r in h0)
    requires SameButMarks(h, h0)
    requires Registered(h0, base, Live(h0, RootSet(roots)), order, m, rs)
    ensures Ready(Plan(h, base, Live(h0, RootSet(roots)), order, m, rs)) && WellFormed(h)
    ensures RootSet(roots) <= Live(h0, RootSet(roots))
  {
    LiveClosed(h0, RootSet(roots));
    ConcurrentMark.MarksKeepWorld(Mutator.World(h0, map[]), h, base, Live(h0, RootSet(roots)));
    hide Registered, Live;
    ConcurrentMark.RegisteredSame(h0, h, base, Live(h0, RootSet(roots)), order, m, rs);
  }

  // The live objects are all small, all medium or all huge.
  ghost predicate SomeClass(h: Heap, roots: seq<Addr>) {
    exists c :: Collector.OneClass(h, Live(h, RootSet(roots)), c)
  }

  // The plan relocates the objects reachable from the roots; marking only set marks.
  ghost predicate PlanFor(p: Plan, h: Heap, roots: seq<Addr>) {
    Ready(p) && p.live == Live(h, RootSet(roots)) && SameButMarks(p.h, h)
  }

  lemma RoomyMeans(h: Heap, roots: seq<Addr>, nrPages: nat)
    ensures Roomy(h, roots, nrPages)
       <==> WeightOf(h, Live(h, RootSet(roots))) + 7 * PageRuns.TEN_MIB <= 7 * (nrPages * BASE_PAGE_SIZE)
  {
  }

  lemma ClassInOrder(h0: Heap, roots: seq<Addr>, p: Plan)
    requires PlanFor(p, h0, roots)
    ensures SomeClass(h0, roots) ==> InOrder(p)
  {
    assert p.live <= p.h.Keys;
    hide Ready, InOrder, Increasing, Live;
    if SomeClass(h0, roots) {
      var c :| Collector.OneClass(h0, Live(h0, RootSet(roots)), c);
      Collector.PlanOneClass(p, c);
      InOrderIff(p);
    }
  }

  // What the copier has filled is the copy, and settled again.
  lemma CopiedIsRelocated(h0: Heap, p: Plan, roots: seq<Addr>, roots': seq<Addr>, mark: Bit)
    requires Ready(p) && WellFormed(p.h) && SameButMarks(p.h, h0)
    requires p.live == Live(h0, RootSet(roots)) == Marked(p.h, mark)
    requires |roots'| == |roots|
    requires forall i :: 0 <= i < |roots| ==> roots[i] in MapOf(p) && roots'[i] == MapOf(p)[roots[i]]
    ensures Relocated(h0, roots, MapOf(p), ImageOf(p), roots', mark)
    ensures Settled(ImageOf(p), p.m.table.base, roots', mark)
  {
    hide Ready, ImageOf, MapOf, Live, Marked, Injective, MoveObj, Covered, WellFormed, Laid, NoOverlap, SameButMarks;
    PlanMoves(p);
    Collector.PlanMarks(p, mark);
    ImageLaid(p);
    RootsMoved(p, roots, roots');
    MarksIgnored(h0, p, mark);
    ImageKeys(p);
  }

  // And only the whole relocated heap is.
  lemma CopiedIsRelocatedIff(h0: Heap, p: Plan, roots: seq<Addr>, roots': seq<Addr>, mark: Bit, h': Heap)
    requires Ready(p) && WellFormed(p.h) && SameButMarks(p.h, h0)
    requires p.live == Live(h0, RootSet(roots)) == Marked(p.h, mark)
    requires |roots'| == |roots|
    requires forall i :: 0 <= i < |roots| ==> roots[i] in MapOf(p) && roots'[i] == MapOf(p)[roots[i]]
    ensures Relocated(h0, roots, MapOf(p), h', roots', mark) <==> h' == ImageOf(p)
    ensures Settled(ImageOf(p), p.m.table.base, roots', mark)
  {
    hide Ready, ImageOf, MapOf, Live, Marked, Injective, MoveObj, Covered, WellFormed, Laid, NoOverlap,
      SameButMarks, Settled;
    CopiedIsRelocated(h0, p, roots, roots', mark);
    if Relocated(h0, roots, MapOf(p), h', roots', mark) {
      var f := MapOf(p);
      forall d | d in h' ensures d in ImageOf(p) && h'[d] == ImageOf(p)[d] {
        var a :| a in f && f[a] == d;
      }
      assert h' == ImageOf(p);
    }
  }

  lemma ImageKeys(p: Plan)
    requires Ready(p)
    ensures ImageOf(p).Keys == MapOf(p).Values
  {
    hide Ready, ImageOf, MapOf;
    ImageOfMoved(p);
  }

  lemma ImageLaid(p: Plan)
    requires Ready(p)
    ensures Laid(ImageOf(p), p.m.table.base) && NoOverlap(ImageOf(p))
  {
    hide Ready, ImageOf, Collector.Granted, PageRuns.Safe;
    Collector.PlanGranted(p);
    Collector.GrantedLaid(PageRuns.System(p.m.table, map[], p.m.grants), ImageOf(p));
  }

  lemma RootsMoved(p: Plan, roots: seq<Addr>, roots': seq<Addr>)
    requires Ready(p) && WellFormed(p.h)
    requires |roots'| == |roots|
    requires forall i :: 0 <= i < |roots| ==> roots[i] in MapOf(p) && roots'[i] == MapOf(p)[roots[i]]
    ensures WellFormed(ImageOf(p)) && forall r :: r in roots' ==> r in ImageOf(p)
  {
    hide Ready, ImageOf, MapOf, Reachable;
    ImageOfMoved(p);
    PlanMoves(p);
    Collector.ReadyClosed(p);
    MovedReachable(p.h, RootSet(roots), MapOf(p), ImageOf(p));
    forall r | r in roots' ensures r in ImageOf(p) {
      var i :| 0 <= i < |roots'| && roots'[i] == r;
      assert MapOf(p)[roots[i]] in MapOf(p).Values;
    }
  }

  lemma MarksIgnored(h0: Heap, p: Plan, mark: Bit)
    requires Ready(p) && SameButMarks(p.h, h0)
    requires forall d :: d in ImageOf(p) ==> ImageOf(p)[d].mark == mark
    ensures forall a :: a in MapOf(p) ==> a in h0 && Covered(MapOf(p), h0[a])
    ensures forall a :: a in MapOf(p) ==>
      MapOf(p)[a] in ImageOf(p) && ImageOf(p)[MapOf(p)[a]] == MoveObj(MapOf(p), h0[a]).(mark := mark)
  {
    hide Ready, ImageOf, MapOf;
    ImageOfMoved(p);
    PlanMoves(p);
    forall a | a in MapOf(p)
      ensures a in h0 && Covered(MapOf(p), h0[a]) && MapOf(p)[a] in ImageOf(p)
      ensures a in h0 && Covered(MapOf(p), h0[a]) ==>
        ImageOf(p)[MapOf(p)[a]] == MoveObj(MapOf(p), h0[a]).(mark := mark)
    {
      assert MapOf(p)[a] in MapOf(p).Values;
      assert MoveObj(MapOf(p), p.h[a]).fields == MoveObj(MapOf(p), h0[a]).fields;
    }
  }

  // What the collector's thread and all contexts share. `roots` are the stored root slots.
  class SharedState {
    var mm: MM
    var secondMm: seq<MM>
    var markTrueBit: Bit
    var roots: seq<Addr>

    constructor (primary: Addr, second: Addr, nrPages: nat)
      ensures Valid() && fresh(Footprint()) && markTrueBit == Bit1 && roots == []
      ensures mm.space.base == primary && mm.space.objects == map[]
      ensures secondMm[0].space.base == second
    {
      hide Tiled, PageRuns.Inside;
      var space1 := new Space(primary, map[]);
      var space2 := new Space(second, map[]);
      var table1 := new PageTable(primary, nrPages);
      var table2 := new PageTable(second, nrPages);
      mm := new MM(space1, table1);
      var spare := new MM(space2, table2);
      secondMm, markTrueBit, roots := [spare], Bit1, [];
    }

    ghost function Footprint(): set<object>
      reads this
    {
      {mm.space, mm.pageTable} + if secondMm == [] then {} else {secondMm[0].space, secondMm[0].pageTable}
    }

    ghost predicate Valid()
      reads this, Footprint()
    {
      && |secondMm| == 1 && secondMm[0].space != mm.space && secondMm[0].pageTable != mm.pageTable
      && mm.space.base == mm.pageTable.base && secondMm[0].space.base == secondMm[0].pageTable.base
      && secondMm[0].space.objects == map[]
      && secondMm[0].pageTable.State() == Cleared(secondMm[0].pageTable.base, secondMm[0].pageTable.nrPages)
      && mm.pageTable.Valid() && Housed(mm.space.objects, mm.pageTable.State())
      && Settled(mm.space.objects, mm.space.base, roots, markTrueBit.Not())
    }

    // An allocation by a context in the space in use. Memory that objects have is never given out
    // again, also not what relocation has filled.
    method AllocPlace(context: Context, size: nat) returns (g: Option<Grant>)
      requires Valid() && LocalOk(mm.pageTable.State(), context.localBufferPage) && size % 8 == 0
      modifies context, mm.pageTable
      ensures Valid() && LocalOk(mm.pageTable.State(), context.localBufferPage)
      ensures g.Some? ==> g.value.size == size && ClearOf(mm.space.objects, g.value)
      ensures Outcome(mm.pageTable.State(), context.localBufferPage, g)
           == AllocIn(old(mm.pageTable.State()), old(context.localBufferPage), size)
    {
      hide AllocIn, Settled, Housed, Tiled, LocalOk, ClearOf;
      NextGrantClear(mm.space.objects, mm.pageTable.State(), context.localBufferPage, size);
      AllocStep(mm.pageTable.State(), context.localBufferPage, size);
      g := context.AllocFromPageTable(mm.pageTable, size);
    }

    // A space with nothing in it and its table cleared.
    ghost predicate Emptied(other: MM)
      reads other.space, other.pageTable
    {
      other.space.objects == map[] && other.pageTable.State() == Cleared(other.pageTable.base, other.pageTable.nrPages)
    }

    // Every stored root through the frozen registry: none is without a record.
    method FixRoots(registry: RelocationRegistry, start: nat, toSpace: nat, ghost p: Plan)
      requires Ready(p) && p.base == start && p.m.table.base == toSpace
      requires registry.recordsBySrc == SortBySrc(p.records)
      requires forall r :: r in roots ==> r in p.live
      modifies this`roots
      ensures |roots| == |old(roots)|
      ensures forall i :: 0 <= i < |roots| ==> old(roots)[i] in MapOf(p) && roots[i] == MapOf(p)[old(roots)[i]]
    {
      hide Ready, MapOf, SortBySrc, Sorted, NonEmpty, MapAddr;
      PlanSorted(p);
      PlanMoves(p);
      for i := 0 to |roots|
        invariant |roots| == |old(roots)| && roots[i..] == old(roots)[i..]
        invariant forall k :: 0 <= k < i ==> old(roots)[k] in MapOf(p) && roots[k] == MapOf(p)[old(roots)[k]]
      {
        assert roots[i] == roots[i..][0] == old(roots)[i];
        LiveMapped(p, roots[i]);
        var mapped := registry.MapSrcToDest(roots[i] - start);
        roots := roots[i := toSpace + mapped.value];
      }
    }

    // Steps 1 and 2: flip the mark bit, take the roots and the spare space, and mark, reserving a
    // destination for each object. `plan` is what is left to the copier.
    method MarkAll(marker: Marker, registry: RelocationRegistry)
      returns (ok: bool, second: MM, ghost plan: Option<Plan>)
      requires Valid() && marker.markStack == [] && registry.recordsBySrc == [] && registry.recordsByDest == []
      modifies this, marker, registry, Footprint()
      ensures mm == old(mm) && roots == old(roots) && second == old(secondMm[0]) && secondMm == []
      ensures markTrueBit == old(markTrueBit).Not()
      ensures Roomy(old(mm.space.objects), roots, second.pageTable.nrPages) ==> ok
      ensures ok <==> plan.Some?
      ensures ok ==> PlanFor(plan.value, old(mm.space.objects), roots) && Prepared(second, registry, plan.value)
      ensures SameButMarks(mm.space.objects, old(mm.space.objects)) && mm.pageTable.State() == old(mm.pageTable.State())
      ensures ok ==> marker.markStack == []
    {
      hide Ready, Live, WellFormed, Laid, NoOverlap, Registered, SameButMarks, Marked, WeightOf, Roomy;
      plan := None;
      ghost var h0 := mm.space.objects;
      var bit := markTrueBit;
      markTrueBit := bit.Not();
      second := secondMm[0];
      secondMm := secondMm[1..];
      RoomyMeans(h0, roots, second.pageTable.nrPages);
      ghost var order, placed;
      ok, order, placed := marker.Start(roots, second.pageTable, registry, mm.space, bit);
      if !ok {
        return;
      }
      ghost var live := Live(h0, RootSet(roots));
      ghost var p := Plan(mm.space.objects, mm.space.base, live, order, placed, registry.recordsByDest);
      MarkedIsReady(h0, p.h, p.base, roots, order, placed, p.records);
      plan := Some(p);
    }

    // What marking hands to the later steps.
    ghost predicate Prepared(second: MM, registry: RelocationRegistry, p: Plan)
      reads this, mm.space, second.pageTable, registry
    {
      && second.space != mm.space && second.pageTable != mm.pageTable
      && mm.space.base == mm.pageTable.base && second.space.base == second.pageTable.base
      && Ready(p) && WellFormed(p.h) && p.h == mm.space.objects && p.base == mm.space.base
      && p.live == Marked(p.h, markTrueBit.Not()) && (forall r :: r in roots ==> r in p.live)
      && p.m.table == second.pageTable.State()
      && registry.recordsBySrc == p.records && registry.recordsByDest == p.records
    }

    // Steps 3 to 5: freeze the registry, rewrite the roots, swap the spaces; relocate; clear the
    // space left behind and queue it.
    method MoveAll(second: MM, registry: RelocationRegistry, ghost p: Plan, ghost h0: Heap) returns (ok: bool)
      requires Prepared(second, registry, p) && secondMm == [] && PlanFor(p, h0, roots)
      modifies this, registry, mm.space, mm.pageTable, second.space
      ensures markTrueBit == old(markTrueBit)
      ensures var moved := Relocated(h0, old(roots), MapOf(p), mm.space.objects, roots, markTrueBit.Not());
        ok && moved <==> InOrder(p)
      ensures InOrder(p) ==>
        && Valid() && registry.recordsBySrc == [] && registry.recordsByDest == []
        && mm == second && secondMm == [old(mm)] && mm.pageTable.State() == p.m.table
      ensures mm == second && mm.pageTable.State() == p.m.table && |roots| == |old(roots)|
      ensures forall i :: 0 <= i < |roots| ==> old(roots)[i] in MapOf(p) && roots[i] == MapOf(p)[old(roots)[i]]
      ensures if ok then secondMm == [old(mm)] && Emptied(old(mm)) else secondMm == []
    {
      hide Ready, MapOf, ImageOf, Live, WellFormed, Laid, NoOverlap, SortBySrc, InOrder, PartlyFilled, Relocated,
        SameButMarks, Marked, Sorted, NonEmpty, Registry.Disjoint, Settled, Housed, Tiled;
      ghost var roots0 := roots;
      PlanSizes(p);
      registry.Freeze();
      FixRoots(registry, mm.space.base, second.space.base, p);
      var from := mm;
      mm := second;
      var copier := new CopierActive(registry, from.space, second.pageTable);
      NothingFilled(p, p.m.table.nrPages);
      ok := copier.Finish(p);
      CopiedIsRelocatedIff(h0, p, roots0, roots, markTrueBit.Not(), copier.toSpace);
      ImageHoused(p);
      PlanTiled(p);
      if !ok {
        return;
      }
      second.space.objects := copier.toSpace;
      registry.Unfreeze();
      from.pageTable.Clear();
      from.space.objects := map[];
      secondMm := secondMm + [from];
    }

    // A whole cycle. `plan` is what marking has left to the copier, or None when it ran out of room.
    // The reachable heap is relocated, and the state settled for the next cycle, if and only if
    // the destinations came out in order; otherwise an assertion fires or an object is lost.
    method DoCycle(marker: Marker, registry: RelocationRegistry) returns (ok: bool, ghost plan: Option<Plan>)
      requires Valid() && marker.markStack == [] && registry.recordsBySrc == [] && registry.recordsByDest == []
      modifies this, marker, registry, Footprint()
      ensures Roomy(old(mm.space.objects), old(roots), old(secondMm[0]).pageTable.nrPages) ==> plan.Some?
      ensures plan.None? ==>
        && !ok && mm == old(mm) && roots == old(roots) && mm.pageTable.State() == old(mm.pageTable.State())
        && SameButMarks(mm.space.objects, old(mm.space.objects))
      ensures plan.Some? ==> PlanFor(plan.value, old(mm.space.objects), old(roots))
      ensures plan.Some? ==>
        var mark, h0 := markTrueBit.Not(), old(mm.space.objects);
        (ok && Relocated(h0, old(roots), MapOf(plan.value), mm.space.objects, roots, mark)) <==> InOrder(plan.value)
      ensures plan.Some? && InOrder(plan.value) ==>
        && Valid() && marker.markStack == [] && registry.recordsBySrc == [] && registry.recordsByDest == []
        && mm == old(secondMm[0]) && secondMm == [old(mm)] && markTrueBit == old(markTrueBit).Not()
      ensures plan.Some? ==>
        && mm == old(secondMm[0]) && mm.pageTable.State() == plan.value.m.table && |roots| == |old(roots)|
        && (forall i :: 0 <= i < |roots| ==>
              old(roots)[i] in MapOf(plan.value) && roots[i] == MapOf(plan.value)[old(roots)[i]])
        && if ok then secondMm == [old(mm)] && Emptied(old(mm)) else secondMm == []
      ensures plan.Some? && SomeClass(old(mm.space.objects), old(roots)) ==> InOrder(plan.value)
    {
      hide MapOf, Live, Settled, PlanFor, Prepared, InOrder, SomeClass, Relocated, Roomy, RootSet, Housed, Tiled;
      ghost var h0 := mm.space.objects;
      var second;
      ok, second, plan := MarkAll(marker, registry);
      if !ok {
        return;
      }
      ClassInOrder(h0, roots, plan.value);
      PlanForReady(plan.value, h0, roots);
      ok := MoveAll(second, registry, plan.value, h0);
    }
  }

  lemma PlanForReady(p: Plan, h0: Heap, roots: seq<Addr>)
    requires PlanFor(p, h0, roots)
    ensures Ready(p)
  {
    hide Ready;
  }
}
