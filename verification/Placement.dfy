// Destinations of the objects the marker places: one context, a cleared table, sizes in the
// order the objects are first reached.
module Placement {
  import opened Prelude
  import opened Pages
  import opened PageRuns

  datatype Placed = Placed(table: Table, local: Option<nat>, grants: seq<Grant>)

  // Object sizes: a header is always present, and sizes are multiples of 8.
  ghost predicate SizesOk(sizes: seq<nat>) {
    forall i :: 0 <= i < |sizes| ==> sizes[i] > 0 && sizes[i] % 8 == 0
  }

  function TotalWeight(sizes: seq<nat>): nat {
    if sizes == [] then 0 else TotalWeight(sizes[..|sizes| - 1]) + Weight(sizes[|sizes| - 1])
  }

  // Where a page's first byte is.
  predicate StartsAt(t: Table, g: Grant) {
    t.Has(g.page) && t.Page(g.page).start == g.addr
  }

  ghost predicate AllInside(t: Table, grants: seq<Grant>) {
    forall i :: 0 <= i < |grants| ==> Inside(t, grants[i]) && grants[i].size > 0
  }

  // Grants are apart, and those of one page come in increasing order.
  ghost predicate Ordered(grants: seq<Grant>) {
    && (forall i, j :: 0 <= i < j < |grants| ==> grants[i].Apart(grants[j]))
    && (forall i, j :: 0 <= i < j < |grants| && grants[i].page == grants[j].page
          ==> grants[i].End() <= grants[j].addr)
  }

  ghost predicate Opened(m: Placed, h: nat) {
    exists i: nat :: i < |m.grants| && m.grants[i].page == h && StartsAt(m.table, m.grants[i])
  }

  // Every FlexPage begins exactly at some grant.
  ghost predicate AllOpened(m: Placed) {
    forall h: nat :: m.table.Has(h) ==> Opened(m, h)
  }

  ghost predicate Good(m: Placed) {
    && Tiled(m.table) && LocalOk(m.table, m.local)
    && AllInside(m.table, m.grants) && Ordered(m.grants) && AllOpened(m)
  }

  function Extend(m: Placed, size: nat): Option<Placed>
    requires Tiled(m.table) && LocalOk(m.table, m.local)
  {
    var o := AllocIn(m.table, m.local, size);
    if o.grant.None? then None else Some(Placed(o.table, o.local, m.grants + [o.grant.value]))
  }

  lemma ExtendOrdered(t: Table, o: Outcome, grants: seq<Grant>)
    requires Tiled(t) && StepOk(t, o) && o.grant.Some? && o.grant.value.size > 0
    requires AllInside(t, grants) && Ordered(grants)
    ensures AllInside(o.table, grants + [o.grant.value]) && Ordered(grants + [o.grant.value])
  {
    var n := o.grant.value;
    forall i | 0 <= i < |grants|
      ensures grants[i].Apart(n) && Inside(o.table, grants[i])
      ensures grants[i].page == n.page ==> grants[i].End() <= n.addr
    {
      NewGrantApart(t, o, grants[i]);
    }
    assert Inside(o.table, n);
  }

  lemma ExtendOpened(m: Placed, o: Outcome)
    requires AllOpened(m) && Tiled(m.table) && StepOk(m.table, o) && o.grant.Some?
    ensures AllOpened(Placed(o.table, o.local, m.grants + [o.grant.value]))
  {
    var m' := Placed(o.table, o.local, m.grants + [o.grant.value]);
    forall h: nat | m'.table.Has(h) ensures Opened(m', h) {
      if m.table.Has(h) {
        var i: nat :| i < |m.grants| && m.grants[i].page == h && StartsAt(m.table, m.grants[i]);
        assert m'.grants[i].page == h && StartsAt(m'.table, m'.grants[i]);
      } else {
        var i := |m.grants|;
        assert m'.grants[i].page == h && StartsAt(m'.table, m'.grants[i]);
      }
    }
  }

  lemma ExtendGood(m: Placed, size: nat)
    requires Good(m) && size > 0 && size % 8 == 0
    ensures var r := Extend(m, size); r.Some? ==>
      && Good(r.value)
      && r.value.table.base == m.table.base && r.value.table.nrPages == m.table.nrPages
      && |r.value.grants| == |m.grants| + 1 && m.grants <= r.value.grants
      && r.value.grants[|m.grants|].size == size
  {
    var o := AllocIn(m.table, m.local, size);
    AllocStep(m.table, m.local, size);
    if o.grant.Some? {
      hide AllocIn;
      ExtendOrdered(m.table, o, m.grants);
      ExtendOpened(m, o);
    }
  }

  // The result of placing all the objects, or None when the table runs out of pages.
  function Place(base: nat, nrPages: nat, sizes: seq<nat>): (r: Option<Placed>)
    requires SizesOk(sizes)
    ensures r.Some? ==> Good(r.value)
  {
    if sizes == [] then Some(Placed(Cleared(base, nrPages), None, [])) else
      var last := |sizes| - 1;
      var m := Place(base, nrPages, sizes[..last]);
      if m.None? then None else
        ExtendGood(m.value, sizes[last]);
        Extend(m.value, sizes[last])
  }

  // One grant for each object, of its size.
  lemma {:induction false} PlaceGrants(base: nat, nrPages: nat, sizes: seq<nat>)
    requires SizesOk(sizes) && Place(base, nrPages, sizes).Some?
    ensures var m := Place(base, nrPages, sizes).value;
      && m.table.base == base && m.table.nrPages == nrPages
      && |m.grants| == |sizes| && forall i :: 0 <= i < |sizes| ==> m.grants[i].size == sizes[i]
  {
    hide AllocIn, Ordered, AllOpened, AllInside, Tiled, LocalOk;
    if sizes != [] {
      var last := |sizes| - 1;
      PlaceGrants(base, nrPages, sizes[..last]);
      ExtendGood(Place(base, nrPages, sizes[..last]).value, sizes[last]);
    }
  }

  // The space bound over a whole run: placement succeeds whenever 8/7 of the small and medium
  // bytes plus twice the huge bytes plus 10 MiB fit in the table.
  lemma {:induction false} PlaceSucceeds(base: nat, nrPages: nat, sizes: seq<nat>)
    requires SizesOk(sizes)
    requires TotalWeight(sizes) + 7 * TEN_MIB <= 7 * (nrPages * BASE_PAGE_SIZE)
    ensures var r := Place(base, nrPages, sizes);
      r.Some? && Dense(r.value.table, r.value.local, TotalWeight(sizes))
  {
    if sizes != [] {
      var last := |sizes| - 1;
      PlaceSucceeds(base, nrPages, sizes[..last]);
      var m := Place(base, nrPages, sizes[..last]).value;
      PlaceGrants(base, nrPages, sizes[..last]);
      WithinBoundSucceeds(m.table, m.local, TotalWeight(sizes[..last]), sizes[last]);
      AllocKeepsDense(m.table, m.local, TotalWeight(sizes[..last]), sizes[last]);
    }
  }

  // And whatever the sizes, a placement that succeeded used no more than the bound.
  lemma {:induction false} PlaceIsCompact(base: nat, nrPages: nat, sizes: seq<nat>)
    requires SizesOk(sizes) && Place(base, nrPages, sizes).Some?
    ensures var m := Place(base, nrPages, sizes).value;
      && Dense(m.table, m.local, TotalWeight(sizes))
      && 7 * (m.table.current * BASE_PAGE_SIZE) <= TotalWeight(sizes) + 7 * TEN_MIB
  {
    if sizes != [] {
      var last := |sizes| - 1;
      PlaceIsCompact(base, nrPages, sizes[..last]);
      var m := Place(base, nrPages, sizes[..last]).value;
      AllocKeepsDense(m.table, m.local, TotalWeight(sizes[..last]), sizes[last]);
    }
    var m := Place(base, nrPages, sizes).value;
    SpaceBound(m.table, m.local, TotalWeight(sizes));
  }

  // ----- When destinations come out in increasing order -----

  ghost predicate Increasing(grants: seq<Grant>) {
    forall i, j :: 0 <= i < j < |grants| ==> grants[i].End() <= grants[j].addr
  }

  function BufferFor(t: Table, local: Option<nat>, size: nat): Option<nat> {
    if size >= MAX_SMALL_OBJECT then t.medium else local
  }

  // The guard: the request opens a new page, or the page that serves it is the last one.
  predicate AtFrontier(t: Table, local: Option<nat>, size: nat)
    requires Tiled(t) && LocalOk(t, local)
  {
    || PagesNeeded(t, local, size) > 0
    || NextSlot(t, BufferFor(t, local, size).value) == t.current
  }

  lemma LastPage(t: Table, h: nat, g: nat)
    requires Tiled(t) && t.Has(h) && t.Has(g) && NextSlot(t, h) == t.current
    ensures g <= h
  {
    assert !Covers(t, h, g) || g == h;
    assert PageOk(t, g);
  }

  // One placement lands above all earlier ones exactly when it is at the frontier.
  lemma FrontierIff(m: Placed, size: nat)
    requires Good(m) && size > 0 && size % 8 == 0 && Extend(m, size).Some?
    ensures var n := AllocIn(m.table, m.local, size).grant.value;
      AtFrontier(m.table, m.local, size) <==> forall i :: 0 <= i < |m.grants| ==> m.grants[i].End() <= n.addr
  {
    var o := AllocIn(m.table, m.local, size);
    var n := o.grant.value;
    AllocStep(m.table, m.local, size);
    if AtFrontier(m.table, m.local, size) {
      forall i | 0 <= i < |m.grants| ensures m.grants[i].End() <= n.addr {
        var g := m.grants[i];
        if PagesNeeded(m.table, m.local, size) == 0 {
          LastPage(m.table, n.page, g.page);
        } else {
          assert PageOk(m.table, g.page);
        }
        if g.page < n.page {
          PagesApart(o.table, g.page, n.page);
        }
      }
    } else {
      var next := NextSlot(m.table, n.page);
      assert m.table.Has(next);
      assert Opened(m, next);
      var i: nat :| i < |m.grants| && m.grants[i].page == next && StartsAt(m.table, m.grants[i]);
      assert m.grants[i].End() > n.addr;
    }
  }

  // The guard at every step of the run.
  ghost predicate FrontierRun(base: nat, nrPages: nat, sizes: seq<nat>)
    requires SizesOk(sizes) && Place(base, nrPages, sizes).Some?
  {
    sizes == [] || (
      var last := |sizes| - 1;
      var m := Place(base, nrPages, sizes[..last]).value;
      FrontierRun(base, nrPages, sizes[..last]) && AtFrontier(m.table, m.local, sizes[last]))
  }

  lemma IncreasingSnoc(grants: seq<Grant>, n: Grant)
    ensures Increasing(grants + [n])
       <==> Increasing(grants) && forall i :: 0 <= i < |grants| ==> grants[i].End() <= n.addr
  {
    var all := grants + [n];
    assert forall i :: 0 <= i < |grants| ==> all[i] == grants[i];
    assert all[|grants|] == n;
    if Increasing(all) {
      assert forall i, j :: 0 <= i < j < |grants| ==> all[i].End() <= all[j].addr;
    }
  }

  // The destinations increase in insertion order if and only if every placement was at the
  // frontier.
  lemma {:induction false} IncreasingIff(base: nat, nrPages: nat, sizes: seq<nat>)
    requires SizesOk(sizes) && Place(base, nrPages, sizes).Some?
    ensures Increasing(Place(base, nrPages, sizes).value.grants) <==> FrontierRun(base, nrPages, sizes)
  {
    if sizes != [] {
      var last := |sizes| - 1;
      IncreasingIff(base, nrPages, sizes[..last]);
      var m := Place(base, nrPages, sizes[..last]).value;
      FrontierIff(m, sizes[last]);
      IncreasingSnoc(m.grants, AllocIn(m.table, m.local, sizes[last]).grant.value);
    }
  }

  datatype Class = SmallClass | MediumClass | HugeClass

  function ClassOf(size: nat): Class {
    if size >= MAX_MEDIUM_OBJECT then HugeClass
    else if size >= MAX_SMALL_OBJECT then MediumClass else SmallClass
  }

  // Only the buffer of the class is ever open, and its page is the last one.
  ghost predicate OneBuffer(t: Table, local: Option<nat>, c: Class)
    requires Tiled(t) && LocalOk(t, local)
  {
    && (local.Some? ==> c == SmallClass && NextSlot(t, local.value) == t.current)
    && (t.medium.Some? ==> c == MediumClass && NextSlot(t, t.medium.value) == t.current)
  }

  lemma OneBufferStep(t: Table, local: Option<nat>, size: nat)
    requires Tiled(t) && LocalOk(t, local) && size % 8 == 0
    requires OneBuffer(t, local, ClassOf(size)) && AllocIn(t, local, size).grant.Some?
    ensures AtFrontier(t, local, size)
    ensures StepOk(t, AllocIn(t, local, size))
    ensures OneBuffer(AllocIn(t, local, size).table, AllocIn(t, local, size).local, ClassOf(size))
  {
    AllocStep(t, local, size);
  }

  // With all objects in one size class every placement is at the frontier.
  lemma {:induction false} OneClassFrontier(base: nat, nrPages: nat, sizes: seq<nat>, c: Class)
    requires SizesOk(sizes) && Place(base, nrPages, sizes).Some?
    requires forall i :: 0 <= i < |sizes| ==> ClassOf(sizes[i]) == c
    ensures FrontierRun(base, nrPages, sizes)
    ensures OneBuffer(Place(base, nrPages, sizes).value.table, Place(base, nrPages, sizes).value.local, c)
  {
    if sizes != [] {
      var last := |sizes| - 1;
      OneClassFrontier(base, nrPages, sizes[..last], c);
      var m := Place(base, nrPages, sizes[..last]).value;
      hide AllocIn, Tiled, LocalOk, OneBuffer;
      OneBufferStep(m.table, m.local, sizes[last]);
    }
  }

  lemma OneClassIncreasing(base: nat, nrPages: nat, sizes: seq<nat>, c: Class)
    requires SizesOk(sizes) && Place(base, nrPages, sizes).Some?
    requires forall i :: 0 <= i < |sizes| ==> ClassOf(sizes[i]) == c
    ensures Increasing(Place(base, nrPages, sizes).value.grants)
  {
    OneClassFrontier(base, nrPages, sizes, c);
    IncreasingIff(base, nrPages, sizes);
  }

  lemma SmallThenHuge(m: Placed, small: nat, huge: nat)
    requires m == Placed(Cleared(m.table.base, m.table.nrPages), None, [])
    requires small > 0 && small % 8 == 0 && small < MAX_SMALL_OBJECT
    requires huge % 8 == 0 && huge >= MAX_MEDIUM_OBJECT
    requires m.table.nrPages >= 1 + DivCeil(huge, BASE_PAGE_SIZE)
    ensures Extend(m, small).Some? && Good(Extend(m, small).value)
    ensures var r := Extend(Extend(m, small).value, huge);
      && r.Some? && Good(r.value)
      && r.value.grants == [Grant(m.table.base, small, 0), Grant(m.table.base + BASE_PAGE_SIZE, huge, 1)]
      && r.value.local == Some(0) && r.value.table.Has(0)
      && r.value.table.Page(0) == FlexPage(Small, m.table.base, small)
  {
    var m1 := Extend(m, small).value;
    ExtendGood(m, small);
    assert m1.table.Page(0) == FlexPage(Small, m.table.base, small);
    ExtendGood(m1, huge);
  }

  lemma ThenSmallAgain(m: Placed, small: nat)
    requires Good(m) && small > 0 && small < MAX_SMALL_OBJECT && m.local == Some(0) && m.table.Has(0)
    requires m.table.Page(0) == FlexPage(Small, m.table.base, small)
    ensures var r := Extend(m, small);
      r.Some? && r.value.grants == m.grants + [Grant(m.table.base + small, small, 0)]
  {
  }

  lemma PairPlaced(base: nat, nrPages: nat, pair: seq<nat>)
    requires |pair| == 2 && SizesOk(pair)
    requires ClassOf(pair[0]) == SmallClass && ClassOf(pair[1]) == HugeClass
    requires nrPages >= 1 + DivCeil(pair[1], BASE_PAGE_SIZE)
    ensures var r := Place(base, nrPages, pair);
      && r.Some? && Good(r.value)
      && r.value.grants == [Grant(base, pair[0], 0), Grant(base + BASE_PAGE_SIZE, pair[1], 1)]
      && r.value.local == Some(0) && r.value.table.Has(0) && r.value.table.base == base
      && r.value.table.Page(0) == FlexPage(Small, base, pair[0])
  {
    var m0 := Placed(Cleared(base, nrPages), None, []);
    SmallThenHuge(m0, pair[0], pair[1]);
    var one := pair[..1];
    assert one[..0] == [];
    assert Place(base, nrPages, one) == Extend(m0, pair[0]);
  }

  // Mixing classes breaks the order, in any table with room: a small object, a huge one, and a
  // small one again, which goes back to the first page.
  lemma MixedClassesOutOfOrder(base: nat, nrPages: nat, sizes: seq<nat>)
    requires |sizes| == 3 && SizesOk(sizes) && sizes[2] == sizes[0]
    requires ClassOf(sizes[0]) == SmallClass && ClassOf(sizes[1]) == HugeClass
    requires nrPages >= 1 + DivCeil(sizes[1], BASE_PAGE_SIZE)
    ensures Place(base, nrPages, sizes).Some?
    ensures Place(base, nrPages, sizes).value.grants ==
      [Grant(base, sizes[0], 0), Grant(base + BASE_PAGE_SIZE, sizes[1], 1), Grant(base + sizes[0], sizes[0], 0)]
    ensures !Increasing(Place(base, nrPages, sizes).value.grants)
  {
    hide Tiled, LocalOk, AllocIn, AllInside, Ordered, AllOpened;
    PairPlaced(base, nrPages, sizes[..2]);
    var m2 := Place(base, nrPages, sizes[..2]).value;
    ThenSmallAgain(m2, sizes[2]);
    var g := m2.grants + [Grant(base + sizes[0], sizes[0], 0)];
    assert g[1].End() > g[2].addr;
  }
}
