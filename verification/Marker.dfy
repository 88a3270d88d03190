// Marking a heap that does not change: the explicit stack, the mark bits, and one relocation
// record with a destination for each object when it is first marked.
module Marking {
  import opened Prelude
  import opened Pages
  import opened PageRuns
  import opened Placement
  import opened Registry
  import opened Graph

  // The space being collected. Mark bits are updated in place.
  class Space {
    const base: nat
    var objects: Heap

    constructor (base: nat, objects: Heap)
      ensures this.base == base && this.objects == objects
    {
      this.base, this.objects := base, objects;
    }
  }

  // Objects lie above the base of their space, with sizes the allocator accepts.
  ghost predicate Laid(h: Heap, base: nat) {
    forall a :: a in h ==> a >= base && h[a].size > 0 && h[a].size % 8 == 0
  }

  // The bytes of different objects do not overlap.
  ghost predicate NoOverlap(h: Heap) {
    forall a, b :: a in h && b in h && a < b ==> a + h[a].size <= b
  }

  // The non-null pointers of an object, in order.
  function Targets(fields: seq<Option<Addr>>): seq<Addr> {
    if fields == [] then []
    else (if fields[0].Some? then [fields[0].value] else []) + Targets(fields[1..])
  }

  lemma {:induction false} TargetsSpec(fields: seq<Option<Addr>>)
    ensures forall b :: b in Targets(fields) <==> Some(b) in fields
  {
    if fields != [] {
      TargetsSpec(fields[1..]);
      assert forall p :: p in fields <==> p == fields[0] || p in fields[1..];
    }
  }

  // It is the list of fields with the nulls left out: this determines it.
  lemma {:induction false} TargetsConcat(a: seq<Option<Addr>>, b: seq<Option<Addr>>, p: Option<Addr>)
    ensures Targets(a + b) == Targets(a) + Targets(b)
    ensures Targets([p]) == if p.Some? then [p.value] else []
  {
    if a == [] {
      assert a + b == b;
    } else {
      assert (a + b)[0] == a[0] && (a + b)[1..] == a[1..] + b;
      TargetsConcat(a[1..], b, p);
    }
  }

  // The order in which objects are first reached from a stack: the last one pushed comes first, and
  // what it points to is pushed in the order of its fields.
  ghost function VisitOrder(h: Heap, marked: set<Addr>, stack: seq<Addr>): seq<Addr>
    decreases h.Keys - marked, |stack|
  {
    if stack == [] then []
    else
      var a, rest := stack[|stack| - 1], stack[..|stack| - 1];
      if a in marked || a !in h then VisitOrder(h, marked, rest)
      else [a] + VisitOrder(h, marked + {a}, rest + Targets(h[a].fields))
  }

  // From each root in turn.
  ghost function RootsOrder(h: Heap, marked: set<Addr>, roots: seq<Addr>): seq<Addr>
    decreases |roots|
  {
    if roots == [] then []
    else
      var first := VisitOrder(h, marked, [roots[0]]);
      first + RootsOrder(h, marked + (set a | a in first), roots[1..])
  }

  lemma OrderStep(h: Heap, marked: set<Addr>, rest: seq<Addr>, a: Addr)
    ensures VisitOrder(h, marked, rest + [a])
         == if a in marked || a !in h then VisitOrder(h, marked, rest)
            else [a] + VisitOrder(h, marked + {a}, rest + Targets(h[a].fields))
  {
    assert (rest + [a])[..|rest|] == rest;
  }

  lemma OrderNone(h: Heap, marked: set<Addr>)
    ensures VisitOrder(h, marked, []) == []
  {
  }

  // Same heap except for mark bits.
  ghost predicate SameButMarks(h: Heap, h0: Heap) {
    && h.Keys == h0.Keys
    && (forall a :: a in h ==> h[a] == h0[a].(mark := h[a].mark))
  }

  function Marked(h: Heap, bit: Bit): set<Addr> {
    set a | a in h.Keys && h[a].mark == bit
  }

  function SizesOf(h: Heap, order: seq<Addr>): seq<nat>
    requires forall a :: a in order ==> a in h
  {
    seq(|order|, i requires 0 <= i < |order| => h[order[i]].size)
  }

  ghost predicate Distinct(order: seq<Addr>) {
    forall i, j :: 0 <= i < j < |order| ==> order[i] != order[j]
  }

  // The destinations are those the allocator gives for these objects in this order.
  ghost predicate PlacedInOrder(h: Heap, order: seq<Addr>, m: Placed)
    requires forall a :: a in order ==> a in h
  {
    && SizesOk(SizesOf(h, order))
    && Place(m.table.base, m.table.nrPages, SizesOf(h, order)) == Some(m)
  }

  // Record i moves object i from its place in the old space to the i-th destination.
  ghost predicate RecordsMove(h: Heap, base: nat, order: seq<Addr>, m: Placed, rs: seq<Record>)
    requires forall a :: a in order ==> a in h
  {
    && |rs| == |order| == |m.grants|
    && (forall i :: 0 <= i < |rs| ==>
          && order[i] == base + rs[i].src
          && m.grants[i].addr == m.table.base + rs[i].dest
          && rs[i].size == h[order[i]].size)
  }

  // `order` lists the objects of `live` once each, and they are recorded and placed.
  ghost predicate Registered(h: Heap, base: nat, live: set<Addr>, order: seq<Addr>, m: Placed, rs: seq<Record>) {
    && Distinct(order) && (forall a :: a in live <==> a in order)
    && live <= h.Keys
    && PlacedInOrder(h, order, m) && RecordsMove(h, base, order, m, rs)
  }

  // The weight of a set of objects, in the units of the space bound.
  ghost function WeightOf(h: Heap, s: set<Addr>): nat
    requires s <= h.Keys
  {
    if s == {} then 0 else
      var a :| a in s;
      Weight(h[a].size) + WeightOf(h, s - {a})
  }

  lemma {:induction false} WeightAdds(h: Heap, s: set<Addr>, a: Addr)
    requires s <= h.Keys && a in s
    ensures WeightOf(h, s) == Weight(h[a].size) + WeightOf(h, s - {a})
  {
    var b :| b in s && WeightOf(h, s) == Weight(h[b].size) + WeightOf(h, s - {b});
    if a != b {
      WeightAdds(h, s - {b}, a);
      WeightAdds(h, s - {a}, b);
      assert s - {a} - {b} == s - {b} - {a};
    }
  }

  lemma {:induction false} WeightMonotone(h: Heap, s: set<Addr>, t: set<Addr>)
    requires s <= t <= h.Keys
    ensures WeightOf(h, s) <= WeightOf(h, t)
  {
    if s != t {
      assert exists a :: a in t && a !in s;
      var a :| a in t && a !in s;
      WeightAdds(h, t, a);
      WeightMonotone(h, s, t - {a});
    }
  }

  lemma {:induction false} WeightOfOrder(h: Heap, s: set<Addr>, order: seq<Addr>)
    requires s <= h.Keys && Distinct(order) && forall a :: a in s <==> a in order
    ensures TotalWeight(SizesOf(h, order)) == WeightOf(h, s)
  {
    if order != [] {
      var n := |order| - 1;
      LastListed(s, order, s - {order[n]}, order[..n]);
      WeightAdds(h, s, order[n]);
      WeightOfOrder(h, s - {order[n]}, order[..n]);
      hide Weight, WeightOf, Distinct;
      assert SizesOf(h, order)[..n] == SizesOf(h, order[..n]);
    } else {
      assert s == {};
    }
  }

  // Without the last one, the list has all but that one.
  lemma LastListed(s: set<Addr>, order: seq<Addr>, less: set<Addr>, init: seq<Addr>)
    requires order != [] && Distinct(order) && forall a :: a in s <==> a in order
    requires less == s - {order[|order| - 1]} && init == order[..|order| - 1]
    ensures order[|order| - 1] in s && Distinct(init) && forall a :: a in less <==> a in init
  {
    var n := |order| - 1;
    assert order[n] in order;
    forall a | a in less ensures a in init {
      var i :| 0 <= i < |order| && order[i] == a;
      assert init[i] == a;
    }
    forall a | a in init ensures a in order && a != order[n] {
      var i :| 0 <= i < n && init[i] == a;
    }
  }

  // Recording one more object.
  lemma RegisterOne(h: Heap, base: nat, live: set<Addr>, order: seq<Addr>, m: Placed, rs: seq<Record>,
                    a: Addr, r: Record)
    requires Registered(h, base, live, order, m, rs) && Laid(h, base) && a in h && a !in live
    requires Extend(m, h[a].size).Some?
    requires var g := AllocIn(m.table, m.local, h[a].size).grant.value;
      r.src == a - base && r.dest + m.table.base == g.addr && r.size == h[a].size
    ensures Registered(h, base, live + {a}, order + [a], Extend(m, h[a].size).value, rs + [r])
  {
    hide AllocIn, Good, Place, PlacedInOrder, RecordsMove, Tiled, LocalOk;
    PlacedIsGood(h, order, m);
    PlaceOne(h, order, m, a);
    RecordOne(h, base, order, m, rs, a, r, Extend(m, h[a].size).value);
    forall x | x in live + {a} ensures x in order + [a] {
      if x != a { assert x in order; }
    }
  }

  lemma RecordOne(h: Heap, base: nat, order: seq<Addr>, m: Placed, rs: seq<Record>, a: Addr, r: Record, m': Placed)
    requires a in h && forall x :: x in order ==> x in h
    requires RecordsMove(h, base, order, m, rs)
    requires m'.table.base == m.table.base && |m'.grants| == |m.grants| + 1 && m.grants <= m'.grants
    requires a == base + r.src && r.dest + m.table.base == m'.grants[|m.grants|].addr && r.size == h[a].size
    ensures RecordsMove(h, base, order + [a], m', rs + [r])
  {
    hide Good;
    var rs' := rs + [r];
    forall i | 0 <= i < |rs'|
      ensures (order + [a])[i] == base + rs'[i].src && rs'[i].size == h[(order + [a])[i]].size
      ensures m'.grants[i].addr == m'.table.base + rs'[i].dest
    {
      if i < |rs| { assert m'.grants[i] == m.grants[i] && order[i] in order; }
    }
  }

  lemma PlaceOne(h: Heap, order: seq<Addr>, m: Placed, a: Addr)
    requires a in h && h[a].size > 0 && h[a].size % 8 == 0
    requires forall x :: x in order ==> x in h
    requires PlacedInOrder(h, order, m) && Extend(m, h[a].size).Some?
    ensures PlacedInOrder(h, order + [a], Extend(m, h[a].size).value)
    ensures Extend(m, h[a].size).value.table.base == m.table.base
    ensures Extend(m, h[a].size).value.grants == m.grants + [AllocIn(m.table, m.local, h[a].size).grant.value]
  {
    hide AllocIn, Good, Tiled, LocalOk, Extend, SizesOk;
    PlacedIsGood(h, order, m);
    ExtendGood(m, h[a].size);
    ExtendShape(m, h[a].size);
    PlaceSnoc(h, order, m, a);
  }

  lemma ExtendShape(m: Placed, size: nat)
    requires Tiled(m.table) && LocalOk(m.table, m.local) && size % 8 == 0 && Extend(m, size).Some?
    ensures Extend(m, size).value.grants == m.grants + [AllocIn(m.table, m.local, size).grant.value]
  {
    hide AllocIn, Tiled, LocalOk;
  }

  lemma PlaceSnoc(h: Heap, order: seq<Addr>, m: Placed, a: Addr)
    requires a in h && h[a].size > 0 && h[a].size % 8 == 0 && forall x :: x in order ==> x in h
    requires Good(m) && PlacedInOrder(h, order, m) && Extend(m, h[a].size).Some?
    requires Extend(m, h[a].size).value.table.base == m.table.base
    requires Extend(m, h[a].size).value.table.nrPages == m.table.nrPages
    ensures PlacedInOrder(h, order + [a], Extend(m, h[a].size).value)
  {
    hide AllocIn, Good, Tiled, LocalOk, Extend;
    var sizes := SizesOf(h, order + [a]);
    assert sizes[..|order|] == SizesOf(h, order);
  }

  lemma PlacedIsGood(h: Heap, order: seq<Addr>, m: Placed)
    requires forall a :: a in order ==> a in h
    requires PlacedInOrder(h, order, m)
    ensures Tiled(m.table) && LocalOk(m.table, m.local) && Good(m)
  {
  }

  lemma GrantAboveBase(t: Table, local: Option<nat>, size: nat)
    requires Tiled(t) && LocalOk(t, local) && size % 8 == 0
    ensures var g := AllocIn(t, local, size).grant; g.Some? ==> g.value.addr >= t.base
  {
    AllocStep(t, local, size);
  }

  lemma RegisterNone(h: Heap, base: nat, toBase: nat, nrPages: nat)
    ensures Registered(h, base, {}, [], Placed(Cleared(toBase, nrPages), None, []), [])
  {
    var none: seq<Addr> := [];
    assert SizesOf(h, none) == [];
  }

  // A refused destination means the live bytes exceed the bound of the table.
  lemma RefusalExceedsBound(h: Heap, base: nat, live: set<Addr>, order: seq<Addr>, m: Placed, rs: seq<Record>,
                            a: Addr, all: set<Addr>)
    requires Registered(h, base, live, order, m, rs) && Laid(h, base) && a in h && a !in live
    requires Extend(m, h[a].size).None?
    requires live + {a} <= all <= h.Keys
    ensures WeightOf(h, all) + 7 * TEN_MIB > 7 * (m.table.nrPages * BASE_PAGE_SIZE)
  {
    hide AllocIn, Good;
    var order' := order + [a];
    var sizes := SizesOf(h, order');
    assert sizes[..|order|] == SizesOf(h, order) && sizes[|order|] == h[a].size;
    assert Place(m.table.base, m.table.nrPages, sizes).None?;
    if TotalWeight(sizes) + 7 * TEN_MIB <= 7 * (m.table.nrPages * BASE_PAGE_SIZE) {
      PlaceSucceeds(m.table.base, m.table.nrPages, sizes);
    }
    forall x | x in live + {a} ensures x in order' {
      if x != a { assert x in order; }
    }
    WeightOfOrder(h, live + {a}, order');
    WeightMonotone(h, live + {a}, all);
  }

  // The records of different objects have disjoint source ranges and disjoint destinations.
  lemma RegisteredDisjoint(h: Heap, base: nat, live: set<Addr>, order: seq<Addr>, m: Placed, rs: seq<Record>)
    requires Registered(h, base, live, order, m, rs) && Laid(h, base) && NoOverlap(h)
    ensures NonEmpty(rs) && Disjoint(Src, rs) && Disjoint(Dest, rs)
  {
    hide Good, Place, NoOverlap, Disjoint;
    SourcesDisjoint(h, base, order, m, rs);
    PlaceGrants(m.table.base, m.table.nrPages, SizesOf(h, order));
    PlacedIsOrdered(h, order, m);
    assert forall i :: 0 <= i < |rs| ==> m.grants[i].size == SizesOf(h, order)[i] == rs[i].size;
    GrantsDisjoint(m.table.base, m.grants, rs);
  }

  lemma SourcesDisjoint(h: Heap, base: nat, order: seq<Addr>, m: Placed, rs: seq<Record>)
    requires (forall a :: a in order ==> a in h) && Distinct(order) && NoOverlap(h)
    requires RecordsMove(h, base, order, m, rs)
    ensures Disjoint(Src, rs)
  {
    forall i, j | 0 <= i < j < |rs|
      ensures End(Src, rs[i]) <= Start(Src, rs[j]) || End(Src, rs[j]) <= Start(Src, rs[i])
    {
      assert order[i] in h && order[j] in h && order[i] != order[j];
    }
  }

  lemma PlacedIsOrdered(h: Heap, order: seq<Addr>, m: Placed)
    requires forall a :: a in order ==> a in h
    requires PlacedInOrder(h, order, m)
    ensures Ordered(m.grants)
  {
    PlacedIsGood(h, order, m);
    hide PlacedInOrder, AllInside, AllOpened, Ordered;
  }

  lemma GrantsDisjoint(base: nat, grants: seq<Grant>, rs: seq<Record>)
    requires Ordered(grants) && |rs| == |grants|
    requires forall i :: 0 <= i < |rs| ==> grants[i].addr == base + rs[i].dest && grants[i].size == rs[i].size
    ensures Disjoint(Dest, rs)
  {
    forall i, j | 0 <= i < j < |rs|
      ensures End(Dest, rs[i]) <= Start(Dest, rs[j]) || End(Dest, rs[j]) <= Start(Dest, rs[i])
    {
      assert grants[i].Apart(grants[j]);
    }
  }

  // ----- The traversal -----

  // The state of the traversal, against the heap as it was at the start.
  ghost predicate Traversing(h0: Heap, roots: set<Addr>, marked: set<Addr>, stack: seq<Addr>) {
    && (forall a :: a in marked || a in stack ==> a in h0 && Reachable(h0, roots, a))
    && (forall a, b :: a in marked && Points(h0[a], b) ==> b in marked || b in stack)
  }

  // With an empty stack and every root visited, exactly the reachable objects are marked.
  lemma TraversalDone(h0: Heap, roots: set<Addr>, marked: set<Addr>)
    requires Traversing(h0, roots, marked, []) && roots <= marked
    ensures marked == Live(h0, roots) && Closed(h0, marked)
  {
    assert Closed(h0, marked);
  }

  lemma VisitNew(h0: Heap, roots: set<Addr>, marked: set<Addr>, stack: seq<Addr>, a: Addr)
    requires WellFormed(h0) && Traversing(h0, roots, marked, stack + [a])
    ensures Traversing(h0, roots, marked + {a}, stack + Targets(h0[a].fields))
  {
    TargetsSpec(h0[a].fields);
    assert a in stack + [a];
    forall b | b in Targets(h0[a].fields) ensures b in h0 && Reachable(h0, roots, b) {
      EdgeReachable(h0, roots, a, b);
    }
    assert forall b :: b in stack + [a] <==> b == a || b in stack;
  }

  // Where the marker stands: the heap has only gained marks, the traversal invariant holds, and
  // the marked objects are exactly those registered.
  ghost predicate Progress(h0: Heap, base: nat, roots: set<Addr>, bit: Bit, h: Heap, stack: seq<Addr>,
                           order: seq<Addr>, m: Placed, rs: seq<Record>)
  {
    && SameButMarks(h, h0)
    && Traversing(h0, roots, Marked(h, bit), stack)
    && Registered(h0, base, Marked(h, bit), order, m, rs)
  }

  lemma ProgressMark(h0: Heap, base: nat, roots: set<Addr>, bit: Bit, h: Heap, stack: seq<Addr>,
                     order: seq<Addr>, m: Placed, rs: seq<Record>, a: Addr, r: Record)
    requires WellFormed(h0) && Laid(h0, base)
    requires Progress(h0, base, roots, bit, h, stack + [a], order, m, rs) && a in h && h[a].mark != bit
    requires Extend(m, h0[a].size).Some?
    requires var g := AllocIn(m.table, m.local, h0[a].size).grant.value;
      r.src == a - base && r.dest + m.table.base == g.addr && r.size == h0[a].size
    ensures Progress(h0, base, roots, bit, h[a := h[a].(mark := bit)], stack + Targets(h0[a].fields),
                     order + [a], Extend(m, h0[a].size).value, rs + [r])
    ensures Marked(h[a := h[a].(mark := bit)], bit) == Marked(h, bit) + {a}
  {
    hide AllocIn, Place, Distinct, PlacedInOrder, RecordsMove, Good, Traversing;
    VisitNew(h0, roots, Marked(h, bit), stack, a);
    RegisterOne(h0, base, Marked(h, bit), order, m, rs, a, r);
    assert Marked(h[a := h[a].(mark := bit)], bit) == Marked(h, bit) + {a};
  }

  lemma ProgressNone(h0: Heap, base: nat, toBase: nat, nrPages: nat, roots: set<Addr>, bit: Bit)
    requires forall a :: a in h0 ==> h0[a].mark != bit
    ensures Progress(h0, base, roots, bit, h0, [], [], Placed(Cleared(toBase, nrPages), None, []), [])
  {
    assert Marked(h0, bit) == {};
    RegisterNone(h0, base, toBase, nrPages);
  }

  lemma ProgressSkip(h0: Heap, base: nat, roots: set<Addr>, bit: Bit, h: Heap, stack: seq<Addr>,
                     order: seq<Addr>, m: Placed, rs: seq<Record>, a: Addr)
    requires Progress(h0, base, roots, bit, h, stack + [a], order, m, rs) && a in h && h[a].mark == bit
    ensures Progress(h0, base, roots, bit, h, stack, order, m, rs)
  {
    assert forall b :: b in stack + [a] <==> b == a || b in stack;
  }

  lemma ProgressRoot(h0: Heap, base: nat, roots: set<Addr>, bit: Bit, h: Heap,
                     order: seq<Addr>, m: Placed, rs: seq<Record>, root: Addr)
    requires Progress(h0, base, roots, bit, h, [], order, m, rs) && root in roots && root in h0
    ensures Progress(h0, base, roots, bit, h, [root], order, m, rs)
    ensures Marked(h, bit) <= h0.Keys
  {
    RootsReachable(h0, roots, root);
  }

  lemma ProgressTop(h0: Heap, base: nat, roots: set<Addr>, bit: Bit, h: Heap, stack: seq<Addr>,
                    order: seq<Addr>, m: Placed, rs: seq<Record>, a: Addr)
    requires Progress(h0, base, roots, bit, h, stack + [a], order, m, rs)
    ensures a in h && a in h0 && (a in Marked(h, bit) <==> h[a].mark == bit)
  {
    assert a in stack + [a];
  }

  lemma ProgressSame(h0: Heap, base: nat, roots: set<Addr>, bit: Bit, h: Heap, stack: seq<Addr>,
                     order: seq<Addr>, m: Placed, rs: seq<Record>)
    requires Progress(h0, base, roots, bit, h, stack, order, m, rs)
    ensures SameButMarks(h, h0)
  {
  }

  lemma ProgressOrder(h0: Heap, base: nat, roots: set<Addr>, bit: Bit, h: Heap, stack: seq<Addr>,
                      order: seq<Addr>, m: Placed, rs: seq<Record>)
    requires Progress(h0, base, roots, bit, h, stack, order, m, rs)
    ensures Marked(h, bit) == set a | a in order
  {
    hide PlacedInOrder, RecordsMove;
  }

  lemma NoneMarked(h: Heap, bit: Bit)
    requires forall a :: a in h ==> h[a].mark != bit
    ensures Marked(h, bit) == {}
  {
  }

  lemma NoRoots(h: Heap, marked: set<Addr>)
    ensures RootsOrder(h, marked, []) == []
  {
  }

  lemma ProgressParts(h0: Heap, base: nat, roots: set<Addr>, bit: Bit, h: Heap,
                      order: seq<Addr>, m: Placed, rs: seq<Record>)
    requires Progress(h0, base, roots, bit, h, [], order, m, rs)
    ensures SameButMarks(h, h0) && Traversing(h0, roots, Marked(h, bit), [])
    ensures Registered(h0, base, Marked(h, bit), order, m, rs)
  {
    hide Traversing, Registered;
  }

  lemma AppendOrder(h: Heap, marked: set<Addr>, order: seq<Addr>, order': seq<Addr>, marked': set<Addr>,
                    roots: seq<Addr>)
    requires roots != [] && order' == order + VisitOrder(h, marked, [roots[0]])
    requires marked == (set a | a in order) && marked' == (set a | a in order')
    ensures order + RootsOrder(h, marked, roots) == order' + RootsOrder(h, marked', roots[1..])
  {
    hide VisitOrder;
    var first := VisitOrder(h, marked, [roots[0]]);
    assert marked' == marked + set a | a in first;
  }

  class Marker {
    var markStack: seq<Addr>

    constructor ()
      ensures markStack == []
    {
      markStack := [];
    }

    // An object popped unmarked: mark it, reserve its destination, record the move, and push
    // what it points to.
    method MarkOne(a: Addr, moveContext: Context, pageTable: PageTable, registry: RelocationRegistry, space: Space,
                   markTrueBit: Bit, ghost h0: Heap, ghost roots: set<Addr>, ghost order: seq<Addr>, ghost m: Placed)
      returns (ok: bool)
      requires WellFormed(h0) && Laid(h0, space.base)
      requires a in space.objects && space.objects[a].mark != markTrueBit
      requires m == Placed(pageTable.State(), moveContext.localBufferPage, m.grants)
      requires registry.recordsBySrc == registry.recordsByDest
      requires Progress(h0, space.base, roots, markTrueBit, space.objects, markStack + [a], order, m,
                        registry.recordsByDest)
      modifies this, moveContext, pageTable, registry, space
      ensures SameButMarks(space.objects, h0)
      ensures Tiled(m.table) && LocalOk(m.table, m.local)
      ensures ok ==> Marked(space.objects, markTrueBit) == Marked(old(space.objects), markTrueBit) + {a}
      ensures ok ==> a in h0 && markStack == old(markStack) + Targets(h0[a].fields)
      ensures ok ==> registry.recordsBySrc == registry.recordsByDest && Extend(m, h0[a].size).Some?
      ensures ok ==>
        var m' := Extend(m, h0[a].size).value; m' == Placed(pageTable.State(), moveContext.localBufferPage, m'.grants)
      ensures ok ==> Progress(h0, space.base, roots, markTrueBit, space.objects, markStack, order + [a],
                              Extend(m, h0[a].size).value, registry.recordsByDest)
      ensures !ok ==> WeightOf(h0, Live(h0, roots)) + 7 * TEN_MIB > 7 * (pageTable.nrPages * BASE_PAGE_SIZE)
    {
      hide AllocIn, Place, RecordsMove, Distinct, PlacedInOrder, Good, Tiled, LocalOk;
      PlacedIsGood(h0, order, m);
      ghost var h, rs, rest := space.objects, registry.recordsByDest, markStack;
      assert a in rest + [a];
      space.objects := space.objects[a := space.objects[a].(mark := markTrueBit)];
      var size := space.objects[a].size;
      var dest := moveContext.AllocFromPageTable(pageTable, size);
      if dest.None? {
        RefusalExceedsBound(h0, space.base, Marked(h, markTrueBit), order, m, rs, a, Live(h0, roots));
        return false;
      }
      GrantAboveBase(m.table, m.local, size);
      var record := Record(a - space.base, dest.value.addr - pageTable.base, size);
      ProgressMark(h0, space.base, roots, markTrueBit, h, rest, order, m, rs, a, record);
      registry.Insert(record);
      markStack := markStack + Targets(space.objects[a].fields);
      ok := true;
    }

    // The visitor of one root: marks everything reachable from it that is not marked yet.
    // `ok` is false when a destination is refused, where the collector gives up.
    method Visit(root: Addr, moveContext: Context, pageTable: PageTable, registry: RelocationRegistry, space: Space,
                 markTrueBit: Bit, ghost h0: Heap, ghost roots: set<Addr>, ghost order: seq<Addr>, ghost placed: Placed)
      returns (ok: bool, ghost order': seq<Addr>, ghost placed': Placed)
      requires markStack == [] && root in roots && root in h0
      requires WellFormed(h0) && Laid(h0, space.base)
      requires placed == Placed(pageTable.State(), moveContext.localBufferPage, placed.grants)
      requires registry.recordsBySrc == registry.recordsByDest
      requires Progress(h0, space.base, roots, markTrueBit, space.objects, [], order, placed, registry.recordsByDest)
      modifies this, moveContext, pageTable, registry, space
      ensures SameButMarks(space.objects, h0)
      ensures ok ==> markStack == [] && root in Marked(space.objects, markTrueBit)
      ensures ok ==> Marked(old(space.objects), markTrueBit) <= Marked(space.objects, markTrueBit)
      ensures ok ==> placed' == Placed(pageTable.State(), moveContext.localBufferPage, placed'.grants)
      ensures ok ==> registry.recordsBySrc == registry.recordsByDest
      ensures ok ==> Progress(h0, space.base, roots, markTrueBit, space.objects, [], order', placed',
                              registry.recordsByDest)
      ensures ok ==> order' == order + VisitOrder(h0, Marked(old(space.objects), markTrueBit), [root])
      ensures !ok ==> WeightOf(h0, Live(h0, roots)) + 7 * TEN_MIB > 7 * (pageTable.nrPages * BASE_PAGE_SIZE)
    {
      hide *;
      order', placed' := order, placed;
      ghost var marked0 := Marked(space.objects, markTrueBit);
      ghost var marked := marked0;
      markStack := markStack + [root];
      ProgressRoot(h0, space.base, roots, markTrueBit, space.objects, order', placed', registry.recordsByDest, root);
      assert markStack == [root];
      while markStack != []
        invariant Progress(h0, space.base, roots, markTrueBit, space.objects, markStack, order', placed',
                           registry.recordsByDest)
        invariant marked == Marked(space.objects, markTrueBit) && marked0 <= marked <= h0.Keys
        invariant root in marked || root in markStack
        invariant order' + VisitOrder(h0, marked, markStack) == order + VisitOrder(h0, marked0, [root])
        invariant placed' == Placed(pageTable.State(), moveContext.localBufferPage, placed'.grants)
        invariant registry.recordsBySrc == registry.recordsByDest
        decreases h0.Keys - marked, |markStack|
      {
        var a := markStack[|markStack| - 1];
        ghost var stack := markStack;
        markStack := markStack[..|markStack| - 1];
        assert stack == markStack + [a];
        ProgressTop(h0, space.base, roots, markTrueBit, space.objects, markStack, order', placed',
                    registry.recordsByDest, a);
        OrderStep(h0, marked, markStack, a);
        if space.objects[a].mark != markTrueBit {
          ok := MarkOne(a, moveContext, pageTable, registry, space, markTrueBit, h0, roots, order', placed');
          if !ok {
            return;
          }
          assert order' + ([a] + VisitOrder(h0, marked + {a}, markStack))
              == order' + [a] + VisitOrder(h0, marked + {a}, markStack);
          order', placed', marked := order' + [a], Extend(placed', h0[a].size).value, marked + {a};
        } else {
          ProgressSkip(h0, space.base, roots, markTrueBit, space.objects, markStack, order', placed',
                       registry.recordsByDest, a);
        }
      }
      ProgressSame(h0, space.base, roots, markTrueBit, space.objects, [], order', placed', registry.recordsByDest);
      OrderNone(h0, marked);
      assert order' + [] == order';
      ok := true;
    }

    // Marks from the snapshot of the roots into a cleared table.
    method Start(rootList: seq<Addr>, pageTable: PageTable, registry: RelocationRegistry, space: Space,
                 markTrueBit: Bit)
      returns (ok: bool, ghost order: seq<Addr>, ghost placed: Placed)
      requires markStack == [] && registry.recordsBySrc == [] && registry.recordsByDest == []
      requires WellFormed(space.objects) && Laid(space.objects, space.base)
      requires forall a :: a in rootList ==> a in space.objects
      requires forall a :: a in space.objects ==> space.objects[a].mark != markTrueBit
      modifies this, pageTable, registry, space
      ensures SameButMarks(space.objects, old(space.objects))
      ensures ok ==> Marked(space.objects, markTrueBit) == Live(old(space.objects), set a | a in rootList)
      ensures ok ==> markStack == [] && placed.table == pageTable.State()
      ensures ok ==> order == RootsOrder(old(space.objects), {}, rootList)
      ensures ok ==> registry.recordsBySrc == registry.recordsByDest
      ensures ok ==> Registered(old(space.objects), space.base, Live(old(space.objects), set a | a in rootList),
                                order, placed, registry.recordsByDest)
      ensures var h0 := old(space.objects);
        WeightOf(h0, Live(h0, set a | a in rootList)) + 7 * TEN_MIB <= 7 * (pageTable.nrPages * BASE_PAGE_SIZE) ==> ok
    {
      hide AllocIn, Place, RecordsMove, Distinct, PlacedInOrder, Good, Tiled, LocalOk, Traversing, VisitOrder,
        RootsOrder, Progress;
      ghost var h0, roots := space.objects, set a | a in rootList;
      pageTable.Clear();
      var moveContext := new Context();
      order, placed := [], Placed(pageTable.State(), None, []);
      ProgressNone(h0, space.base, pageTable.base, pageTable.nrPages, roots, markTrueBit);
      var r := 0;
      NoneMarked(h0, markTrueBit);
      assert rootList[0..] == rootList;
      while r < |rootList|
        invariant r <= |rootList| && markStack == []
        invariant forall i :: 0 <= i < r ==> rootList[i] in Marked(space.objects, markTrueBit)
        invariant placed == Placed(pageTable.State(), moveContext.localBufferPage, placed.grants)
        invariant registry.recordsBySrc == registry.recordsByDest
        invariant Progress(h0, space.base, roots, markTrueBit, space.objects, [], order, placed, registry.recordsByDest)
        invariant order + RootsOrder(h0, Marked(space.objects, markTrueBit), rootList[r..])
               == RootsOrder(h0, {}, rootList)
      {
        ghost var order0, marked0 := order, Marked(space.objects, markTrueBit);
        ProgressOrder(h0, space.base, roots, markTrueBit, space.objects, [], order, placed, registry.recordsByDest);
        ok, order, placed := Visit(rootList[r], moveContext, pageTable, registry, space, markTrueBit,
                                   h0, roots, order, placed);
        if !ok {
          return;
        }
        ProgressOrder(h0, space.base, roots, markTrueBit, space.objects, [], order, placed, registry.recordsByDest);
        assert rootList[r..][0] == rootList[r] && rootList[r..][1..] == rootList[r + 1..];
        AppendOrder(h0, marked0, order0, order, Marked(space.objects, markTrueBit), rootList[r..]);
        r := r + 1;
      }
      assert rootList[r..] == [];
      NoRoots(h0, Marked(space.objects, markTrueBit));
      assert order + [] == order;
      ProgressParts(h0, space.base, roots, markTrueBit, space.objects, order, placed, registry.recordsByDest);
      assert roots <= Marked(space.objects, markTrueBit);
      TraversalDone(h0, roots, Marked(space.objects, markTrueBit));
      ok := true;
    }
  }
}
