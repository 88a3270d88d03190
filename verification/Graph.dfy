// Objects, heaps, reachability, and what it means to move a heap along an address map.
module Graph {
  import opened Prelude

  type Addr = nat

  // Neither bit is "true": the collector flips their meaning every cycle.
  datatype Bit = Bit0 | Bit1 {
    function Not(): Bit { if this == Bit0 then Bit1 else Bit0 }
  }

  datatype Payload = PlainOldData(len: nat) | Typed(id: nat)

  // `size` is what the type manager reports for the object, header included; `fields` are
  // its pointer slots in the order the type manager visits them; `data` is everything else.
  datatype Obj = Obj(mark: Bit, payload: Payload, size: nat, fields: seq<Option<Addr>>, data: seq<int>)

  type Heap = map<Addr, Obj>

  predicate Points(o: Obj, b: Addr) { Some(b) in o.fields }

  ghost predicate Closed(h: Heap, s: set<Addr>) {
    && s <= h.Keys
    && (forall a, b :: a in s && Points(h[a], b) ==> b in s)
  }

  // No dangling pointers.
  ghost predicate WellFormed(h: Heap) { Closed(h, h.Keys) }

  // Reachable: in every closed set that holds the roots.
  ghost predicate Reachable(h: Heap, roots: set<Addr>, a: Addr) {
    forall s :: roots <= s && Closed(h, s) ==> a in s
  }

  ghost predicate Path(h: Heap, roots: set<Addr>, p: seq<Addr>) {
    && |p| > 0 && p[0] in roots
    && (forall i :: 0 <= i < |p| ==> p[i] in h)
    && (forall i :: 0 < i < |p| ==> Points(h[p[i - 1]], p[i]))
  }

  ghost predicate HasPath(h: Heap, roots: set<Addr>, a: Addr) {
    exists p :: Path(h, roots, p) && p[|p| - 1] == a
  }

  // It is the same as having a path of pointers from a root.
  lemma ReachableIffPath(h: Heap, roots: set<Addr>, a: Addr)
    requires WellFormed(h) && roots <= h.Keys
    ensures Reachable(h, roots, a) <==> HasPath(h, roots, a)
  {
    if HasPath(h, roots, a) {
      var p :| Path(h, roots, p) && p[|p| - 1] == a;
      forall s | roots <= s && Closed(h, s) ensures a in s {
        PathStays(h, roots, p, s);
      }
    }
    if Reachable(h, roots, a) {
      var s := set x | x in h.Keys && HasPath(h, roots, x);
      forall x | x in roots ensures x in s {
        assert Path(h, roots, [x]) && [x][|[x]| - 1] == x;
      }
      forall x, y | x in s && Points(h[x], y) ensures y in s {
        var p :| Path(h, roots, p) && p[|p| - 1] == x;
        assert Path(h, roots, p + [y]) && (p + [y])[|p|] == y;
      }
      assert Closed(h, s);
    }
  }

  lemma {:induction false} PathStays(h: Heap, roots: set<Addr>, p: seq<Addr>, s: set<Addr>)
    requires Path(h, roots, p) && roots <= s && Closed(h, s)
    ensures p[|p| - 1] in s
  {
    if |p| > 1 {
      PathStays(h, roots, p[..|p| - 1], s);
    }
  }

  lemma RootsReachable(h: Heap, roots: set<Addr>, a: Addr)
    requires a in roots
    ensures Reachable(h, roots, a)
  {
  }

  lemma EdgeReachable(h: Heap, roots: set<Addr>, a: Addr, b: Addr)
    requires Reachable(h, roots, a) && a in h && Points(h[a], b)
    ensures Reachable(h, roots, b)
  {
  }

  ghost function Live(h: Heap, roots: set<Addr>): set<Addr> {
    set a | a in h.Keys && Reachable(h, roots, a)
  }

  lemma LiveClosed(h: Heap, roots: set<Addr>)
    requires WellFormed(h) && roots <= h.Keys
    ensures Closed(h, Live(h, roots)) && roots <= Live(h, roots)
  {
  }

  // ----- Moving a heap -----

  ghost predicate Injective(f: map<Addr, Addr>) {
    forall a, b :: a in f && b in f && f[a] == f[b] ==> a == b
  }

  predicate Covered(f: map<Addr, Addr>, o: Obj) {
    forall i :: 0 <= i < |o.fields| && o.fields[i].Some? ==> o.fields[i].value in f
  }

  function MovePtr(f: map<Addr, Addr>, p: Option<Addr>): Option<Addr>
    requires p.Some? ==> p.value in f
  {
    if p.None? then None else Some(f[p.value])
  }

  // The copy of an object with every pointer mapped and everything else unchanged.
  function MoveObj(f: map<Addr, Addr>, o: Obj): Obj
    requires Covered(f, o)
  {
    o.(fields := seq(|o.fields|, i requires 0 <= i < |o.fields| => MovePtr(f, o.fields[i])))
  }

  lemma ClosedIsCovered(h: Heap, f: map<Addr, Addr>)
    requires Closed(h, f.Keys)
    ensures forall a :: a in f ==> a in h && Covered(f, h[a])
  {
    forall a | a in f ensures Covered(f, h[a]) {
      forall i | 0 <= i < |h[a].fields| && h[a].fields[i].Some? ensures h[a].fields[i].value in f {
        assert Points(h[a], h[a].fields[i].value);
      }
    }
  }

  // h2 is h1 moved along f: one copy per object of f's domain, and nothing else.
  ghost predicate MovedHeap(h1: Heap, f: map<Addr, Addr>, h2: Heap) {
    && Injective(f) && h2.Keys == f.Values
    && (forall a :: a in f ==> a in h1 && Covered(f, h1[a]) && h2[f[a]] == MoveObj(f, h1[a]))
  }

  function MoveSet(f: map<Addr, Addr>, s: set<Addr>): set<Addr>
    requires s <= f.Keys
  {
    set a | a in s :: f[a]
  }

  lemma MovedEdges(h1: Heap, f: map<Addr, Addr>, h2: Heap, a: Addr, d: Addr)
    requires MovedHeap(h1, f, h2) && a in f
    ensures Points(h2[f[a]], d) <==> exists b :: Points(h1[a], b) && b in f && f[b] == d
  {
    var o, m := h1[a], h2[f[a]];
    if Points(m, d) {
      var i :| 0 <= i < |m.fields| && m.fields[i] == Some(d);
      assert Points(o, o.fields[i].value);
    }
    forall b | Points(o, b) && b in f && f[b] == d ensures Points(m, d) {
      var i :| 0 <= i < |o.fields| && o.fields[i] == Some(b);
      assert m.fields[i] == Some(d);
    }
  }

  // The moved heap has no dangling pointers, and an object is reachable there exactly when the
  // object it is a copy of was reachable before.
  lemma MovedReachable(h1: Heap, roots: set<Addr>, f: map<Addr, Addr>, h2: Heap)
    requires WellFormed(h1) && Closed(h1, f.Keys) && roots <= f.Keys && MovedHeap(h1, f, h2)
    ensures WellFormed(h2) && MoveSet(f, roots) <= h2.Keys
    ensures forall a :: a in f ==> (Reachable(h1, roots, a) <==> Reachable(h2, MoveSet(f, roots), f[a]))
  {
    var roots2 := MoveSet(f, roots);
    forall d, e | d in h2.Keys && Points(h2[d], e) ensures e in h2.Keys {
      var a :| a in f && f[a] == d;
      MovedEdges(h1, f, h2, a, e);
    }
    forall a | a in f && Reachable(h1, roots, a) ensures Reachable(h2, roots2, f[a]) {
      forall s2 | roots2 <= s2 && Closed(h2, s2) ensures f[a] in s2 {
        var s1 := set x | x in f && f[x] in s2;
        forall x, y | x in s1 && Points(h1[x], y) ensures y in s1 {
          MovedEdges(h1, f, h2, x, f[y]);
        }
        assert Closed(h1, s1);
      }
    }
    forall a | a in f && Reachable(h2, roots2, f[a]) ensures Reachable(h1, roots, a) {
      var s1 := set x | x in f && Reachable(h1, roots, x);
      var s2 := set x | x in s1 :: f[x];
      forall d, e | d in s2 && Points(h2[d], e) ensures e in s2 {
        var x :| x in s1 && f[x] == d;
        MovedEdges(h1, f, h2, x, e);
      }
      assert Closed(h2, s2);
    }
  }
}
