// The address map a frozen registry stands for, and the heap it produces.
module Relocation {
  import opened Prelude
  import opened Placement
  import opened Registry
  import opened Graph
  import opened Marking

  // Source space to destination space, through the registry's offsets.
  ghost function RelocationMap(live: set<Addr>, base: nat, toBase: nat, rs: seq<Record>): map<Addr, Addr> {
    map a | a in live && a >= base && MapAddr(rs, a - base).Some? :: toBase + MapAddr(rs, a - base).value
  }

  lemma RecordMaps(h: Heap, base: nat, order: seq<Addr>, m: Placed, rs: seq<Record>, i: nat)
    requires forall a :: a in order ==> a in h
    requires RecordsMove(h, base, order, m, rs) && i < |rs| && NonEmpty(rs) && Disjoint(Src, rs)
    ensures order[i] >= base && MapAddr(rs, order[i] - base) == Some(rs[i].dest)
  {
    assert rs[i] in rs && order[i] == base + rs[i].src && rs[i].size > 0;
    hide RecordsMove, Disjoint, NonEmpty, Find;
    FindUnique(Src, rs, order[i] - base, rs[i]);
  }

  lemma RelocationInjective(live: set<Addr>, base: nat, toBase: nat, rs: seq<Record>)
    requires Disjoint(Dest, rs)
    ensures Injective(RelocationMap(live, base, toBase, rs))
  {
    var f := RelocationMap(live, base, toBase, rs);
    hide Disjoint;
    forall a, b | a in f && b in f && f[a] == f[b] ensures a == b {
      MapAddrInjective(rs, a - base, b - base);
    }
  }

  // Every registered object has a record, each goes exactly to its grant, and no two go to the
  // same place.
  lemma RelocationExact(h: Heap, base: nat, live: set<Addr>, order: seq<Addr>, m: Placed, rs: seq<Record>)
    requires Registered(h, base, live, order, m, rs) && Laid(h, base) && NoOverlap(h)
    ensures var f := RelocationMap(live, base, m.table.base, rs);
      && f.Keys == live && Injective(f)
      && (forall i :: 0 <= i < |order| ==> order[i] in f && f[order[i]] == m.grants[i].addr)
  {
    RegisteredDisjoint(h, base, live, order, m, rs);
    RelocationInjective(live, base, m.table.base, rs);
    forall i: nat | i < |order|
      ensures order[i] >= base && MapAddr(rs, order[i] - base).Some?
      ensures base <= order[i] ==> m.table.base + MapAddr(rs, order[i] - base).value == m.grants[i].addr
    {
      RecordMaps(h, base, order, m, rs, i);
    }
    MapDomain(live, base, m.table.base, rs, order);
  }

  lemma MapDomain(live: set<Addr>, base: nat, toBase: nat, rs: seq<Record>, order: seq<Addr>)
    requires forall a :: a in live <==> a in order
    requires forall i: nat :: i < |order| ==> order[i] >= base && MapAddr(rs, order[i] - base).Some?
    ensures RelocationMap(live, base, toBase, rs).Keys == live
  {
    forall a | a in live ensures a in RelocationMap(live, base, toBase, rs) {
      var i: nat :| i < |order| && order[i] == a;
    }
  }

  // The whole relocated heap.
  ghost function Image(h: Heap, f: map<Addr, Addr>): Heap
    requires Injective(f) && forall a :: a in f ==> a in h && Covered(f, h[a])
  {
    map a | a in f.Keys :: f[a] := MoveObj(f, h[a])
  }

  lemma ImageMoved(h: Heap, f: map<Addr, Addr>)
    requires Injective(f) && Closed(h, f.Keys)
    ensures forall a :: a in f ==> a in h && Covered(f, h[a])
    ensures MovedHeap(h, f, Image(h, f))
  {
    ClosedIsCovered(h, f);
  }

  // One cycle's relocation preserves the object graph: reachability, kind, size, data and
  // every pointer, by one injective map, and no pointer of a live object is left unmapped.
  lemma RelocationIsomorphic(h: Heap, base: nat, roots: set<Addr>, live: set<Addr>, order: seq<Addr>, m: Placed,
                             rs: seq<Record>)
    requires WellFormed(h) && Laid(h, base) && NoOverlap(h)
    requires Registered(h, base, live, order, m, rs) && Closed(h, live) && roots <= live
    ensures var f := RelocationMap(live, base, m.table.base, rs);
      && f.Keys == live && Injective(f)
      && (forall a :: a in f ==> a in h && Covered(f, h[a]))
      && MovedHeap(h, f, Image(h, f))
      && WellFormed(Image(h, f)) && MoveSet(f, roots) <= Image(h, f).Keys
      && (forall a :: a in f ==>
            (Reachable(h, roots, a) <==> Reachable(Image(h, f), MoveSet(f, roots), f[a])))
  {
    RelocationExact(h, base, live, order, m, rs);
    var f := RelocationMap(live, base, m.table.base, rs);
    hide Registered, Laid, NoOverlap, RelocationMap, Reachable;
    ImageMoved(h, f);
    MovedReachable(h, roots, f, Image(h, f));
  }
}
