// What a program can do with the heap, and what it means for a moving heap to stay
// indistinguishable from one that never moves.
module Mutator {
  import opened Prelude
  import opened Graph

  // A program's view: objects, and the handles it holds.
  datatype World = World(heap: Heap, roots: map<nat, Addr>)

  // `at` in New is the address the allocator returned. A store or write goes to the object that a
  // path of fields leads to from the object of a handle; the empty path is that object itself.
  datatype Op =
    | New(slot: nat, at: Addr, payload: Payload, size: nat, nFields: nat, data: seq<int>)
    | Load(slot: nat, from: nat, i: nat)
    | Store(obj: nat, path: seq<nat>, i: nat, value: Option<nat>)
    | Write(obj: nat, path: seq<nat>, k: nat, v: int)
    | Drop(slot: nat)

  ghost predicate Sound(w: World) {
    WellFormed(w.heap) && w.roots.Values <= w.heap.Keys
  }

  // The pointer at the end of a path of fields from object `a`.
  function Follow(h: Heap, a: Addr, path: seq<nat>): (r: Option<Addr>)
    decreases |path|
  {
    if path == [] then Some(a)
    else if a in h && path[0] < |h[a].fields| && h[a].fields[path[0]].Some?
    then Follow(h, h[a].fields[path[0]].value, path[1..])
    else None
  }

  function Target(w: World, obj: nat, path: seq<nat>): Option<Addr> {
    if obj in w.roots then Follow(w.heap, w.roots[obj], path) else None
  }

  // The path leads to an object.
  predicate Leads(w: World, obj: nat, path: seq<nat>) {
    Target(w, obj, path).Some? && Target(w, obj, path).value in w.heap
  }

  ghost predicate Allowed(w: World, op: Op) {
    match op
    case New(s, at, _, _, _, _) => s !in w.roots && at !in w.heap
    case Load(s, from, i) =>
      && s !in w.roots && from in w.roots && w.roots[from] in w.heap
      && i < |w.heap[w.roots[from]].fields| && w.heap[w.roots[from]].fields[i].Some?
    case Store(o, path, i, value) =>
      && Leads(w, o, path) && i < |w.heap[Target(w, o, path).value].fields|
      && (value.Some? ==> value.value in w.roots)
    case Write(o, path, k, _) => Leads(w, o, path) && k < |w.heap[Target(w, o, path).value].data|
    case Drop(s) => s in w.roots
  }

  function Fresh(op: Op, mark: Bit): Obj
    requires op.New?
  {
    Obj(mark, op.payload, op.size, seq(op.nFields, _ => None), op.data)
  }

  ghost function Do(w: World, op: Op, mark: Bit): World
    requires Allowed(w, op)
  {
    match op
    case New(s, at, _, _, _, _) => World(w.heap[at := Fresh(op, mark)], w.roots[s := at])
    case Load(s, from, i) => w.(roots := w.roots[s := w.heap[w.roots[from]].fields[i].value])
    case Store(o, path, i, value) =>
      var a := Target(w, o, path).value;
      var p := if value.Some? then Some(w.roots[value.value]) else None;
      w.(heap := w.heap[a := w.heap[a].(fields := w.heap[a].fields[i := p])])
    case Write(o, path, k, v) =>
      var a := Target(w, o, path).value;
      w.(heap := w.heap[a := w.heap[a].(data := w.heap[a].data[k := v])])
    case Drop(s) => w.(roots := w.roots - {s})
  }

  // ----- What each operation does, seen through handles and paths -----

  // The path goes through field i of object b.
  predicate Crosses(h: Heap, a: Addr, path: seq<nat>, b: Addr, i: nat)
    decreases |path|
  {
    path != [] && (
      || (a == b && path[0] == i)
      || (a in h && path[0] < |h[a].fields| && h[a].fields[path[0]].Some?
          && Crosses(h, h[a].fields[path[0]].value, path[1..], b, i)))
  }

  // The heaps differ at most in that field.
  ghost predicate SameButField(h: Heap, h': Heap, b: Addr, i: nat) {
    && h'.Keys == h.Keys
    && (forall a :: a in h && a != b ==> h'[a] == h[a])
    && (b in h ==> |h'[b].fields| == |h[b].fields| && h'[b] == h[b].(fields := h'[b].fields))
    && (b in h ==> forall j :: 0 <= j < |h[b].fields| && j != i ==> h'[b].fields[j] == h[b].fields[j])
  }

  // A path that does not go through it leads where it led.
  lemma {:induction false} FollowFrame(h: Heap, h': Heap, a: Addr, path: seq<nat>, b: Addr, i: nat)
    requires SameButField(h, h', b, i) && !Crosses(h, a, path, b, i)
    ensures Follow(h', a, path) == Follow(h, a, path)
    decreases |path|
  {
    if path != [] && a in h && path[0] < |h[a].fields| {
      assert h'[a].fields[path[0]] == h[a].fields[path[0]];
      if h[a].fields[path[0]].Some? { FollowFrame(h, h', h[a].fields[path[0]].value, path[1..], b, i); }
    }
  }

  lemma {:induction false} FollowOn(h: Heap, a: Addr, path: seq<nat>, i: nat)
    requires Follow(h, a, path).Some?
    ensures var b := Follow(h, a, path).value;
      Follow(h, a, path + [i]) == if b in h && i < |h[b].fields| then h[b].fields[i] else None
    decreases |path|
  {
    if path == [] {
      assert path + [i] == [i];
    } else {
      assert (path + [i])[0] == path[0] && (path + [i])[1..] == path[1..] + [i];
      FollowOn(h, h[a].fields[path[0]].value, path[1..], i);
    }
  }

  // Read after store: whoever reached the object still does, unless through the field itself, and
  // finds there what the stored handle points to, or null. No path that avoids the field leads
  // anywhere else than before, and no other field, no data and no handle changes.
  lemma StoreReads(w: World, op: Op, mark: Bit, s: nat, q: seq<nat>)
    requires op.Store? && Allowed(w, op) && s in w.roots
    requires !Crosses(w.heap, w.roots[s], q, Target(w, op.obj, op.path).value, op.i)
    ensures var a, w' := Target(w, op.obj, op.path).value, Do(w, op, mark);
      && w'.roots == w.roots && SameButField(w.heap, w'.heap, a, op.i)
      && Target(w', s, q) == Target(w, s, q)
      && (Target(w, s, q) == Some(a) ==>
            Target(w', s, q + [op.i]) == if op.value.Some? then Target(w', op.value.value, []) else None)
  {
    var a, w' := Target(w, op.obj, op.path).value, Do(w, op, mark);
    FollowFrame(w.heap, w'.heap, w.roots[s], q, a, op.i);
    if Target(w, s, q) == Some(a) { FollowOn(w'.heap, w.roots[s], q, op.i); }
  }

  // The handle of the object itself always reaches it.
  lemma HandleReads(w: World, op: Op, mark: Bit, s: nat)
    requires op.Store? && Allowed(w, op) && Target(w, s, []) == Target(w, op.obj, op.path)
    ensures Target(Do(w, op, mark), s, [op.i])
         == if op.value.Some? then Target(w, op.value.value, []) else None
  {
    StoreReads(w, op, mark, s, []);
    assert [] + [op.i] == [op.i];
  }

  // The same fields everywhere: every path leads where it led.
  lemma {:induction false} SameFieldsFollow(h: Heap, h': Heap, a: Addr, path: seq<nat>)
    requires h.Keys <= h'.Keys && forall b :: b in h ==> h'[b].fields == h[b].fields
    requires forall b, c :: b in h && Points(h[b], c) ==> c in h
    ensures a in h ==> Follow(h', a, path) == Follow(h, a, path)
    ensures Follow(h, a, path).Some? && a in h ==> Follow(h, a, path).value in h
    decreases |path|
  {
    if path != [] && a in h && path[0] < |h[a].fields| && h[a].fields[path[0]].Some? {
      assert Points(h[a], h[a].fields[path[0]].value);
      SameFieldsFollow(h, h', h[a].fields[path[0]].value, path[1..]);
    }
  }

  // Read after write: whatever reached the object finds the new datum, and only that one changed.
  lemma WriteReads(w: World, op: Op, mark: Bit, s: nat, q: seq<nat>)
    requires Sound(w) && op.Write? && Allowed(w, op) && s in w.roots
    ensures var a, w' := Target(w, op.obj, op.path).value, Do(w, op, mark);
      && w'.roots == w.roots && w'.heap.Keys == w.heap.Keys && Target(w', s, q) == Target(w, s, q)
      && (forall b :: b in w.heap && b != a ==> w'.heap[b] == w.heap[b])
      && w'.heap[a] == w.heap[a].(data := w'.heap[a].data) && |w'.heap[a].data| == |w.heap[a].data|
      && (forall k :: 0 <= k < |w.heap[a].data| ==> w'.heap[a].data[k] == if k == op.k then op.v else w.heap[a].data[k])
  {
    assert w.roots[s] in w.roots.Values;
    SameFieldsFollow(w.heap, Do(w, op, mark).heap, w.roots[s], q);
  }

  // A new handle leads to an object that no path reached before, as it was asked for and with every
  // field null; every path from another handle leads where it led, to what was there.
  lemma NewReads(w: World, op: Op, mark: Bit, s: nat, q: seq<nat>)
    requires Sound(w) && op.New? && Allowed(w, op) && s in w.roots
    ensures var w' := Do(w, op, mark);
      && w'.roots.Keys == w.roots.Keys + {op.slot} && s != op.slot
      && Target(w', op.slot, []) == Some(op.at) && op.at in w'.heap
      && Target(w', s, q) == Target(w, s, q) != Some(op.at)
      && (forall b :: b in w.heap ==> b in w'.heap && w'.heap[b] == w.heap[b])
      && (var o := w'.heap[op.at];
          && o.payload == op.payload && o.size == op.size && o.data == op.data && |o.fields| == op.nFields
          && o.mark == mark && forall i :: Target(w', op.slot, [i]) == None)
  {
    assert w.roots[s] in w.roots.Values;
    SameFieldsFollow(w.heap, Do(w, op, mark).heap, w.roots[s], q);
  }

  // A loaded handle leads where the field led, a dropped one nowhere; nothing else changes.
  lemma HandleMoves(w: World, op: Op, mark: Bit, s: nat, q: seq<nat>)
    requires (op.Load? || op.Drop?) && Allowed(w, op)
    ensures var w' := Do(w, op, mark);
      && w'.heap == w.heap && (s != op.slot ==> Target(w', s, q) == Target(w, s, q))
      && Target(w', op.slot, q) == if op.Load? then Target(w, op.from, [op.i] + q) else None
  {
    if op.Load? {
      assert ([op.i] + q)[0] == op.i && ([op.i] + q)[1..] == q;
    }
  }

  // The same object, allowing for its address, its mark and the addresses in its fields.
  ghost predicate Twin(loc: map<Addr, Addr>, o: Obj, p: Obj) {
    && Covered(loc, o)
    && p == MoveObj(loc, o).(mark := p.mark)
  }

  // `loc` places the objects of the reference world in the moving one. Its domain holds
  // everything the reference program can reach.
  ghost predicate Mirrors(loc: map<Addr, Addr>, ideal: World, moving: World) {
    && Injective(loc)
    && loc.Keys <= ideal.heap.Keys && loc.Values <= moving.heap.Keys
    && (forall a :: a in loc ==> Twin(loc, ideal.heap[a], moving.heap[loc[a]]))
    && ideal.roots.Keys == moving.roots.Keys
    && (forall s :: s in ideal.roots ==> ideal.roots[s] in loc && loc[ideal.roots[s]] == moving.roots[s])
  }

  // Following the same fields leads to the same object in both worlds, or nowhere in both.
  lemma {:induction false} FollowMirrors(loc: map<Addr, Addr>, ideal: World, moving: World, a: Addr, path: seq<nat>)
    requires Mirrors(loc, ideal, moving) && a in loc
    ensures var r, r' := Follow(ideal.heap, a, path), Follow(moving.heap, loc[a], path);
      if r.Some? then r.value in loc && r' == Some(loc[r.value]) else r'.None?
    decreases |path|
  {
    if path != [] {
      var o, p := ideal.heap[a], moving.heap[loc[a]];
      assert Twin(loc, o, p);
      if path[0] < |o.fields| {
        assert p.fields[path[0]] == MovePtr(loc, o.fields[path[0]]);
        if o.fields[path[0]].Some? {
          FollowMirrors(loc, ideal, moving, o.fields[path[0]].value, path[1..]);
        }
      }
    }
  }

  lemma TargetMirrors(loc: map<Addr, Addr>, ideal: World, moving: World, obj: nat, path: seq<nat>)
    requires Mirrors(loc, ideal, moving)
    ensures var r, r' := Target(ideal, obj, path), Target(moving, obj, path);
      if r.Some? then r.value in loc && r' == Some(loc[r.value]) else r'.None?
    ensures Leads(ideal, obj, path) <==> Leads(moving, obj, path)
  {
    hide Twin, Follow, Injective;
    if obj in ideal.roots { FollowMirrors(loc, ideal, moving, ideal.roots[obj], path); }
  }

  // What the program can observe of an object that it reaches from a handle along any path: sizes,
  // payload, data, which fields are null, and which paths meet. None of it depends on the collector.
  lemma ObservesSame(loc: map<Addr, Addr>, ideal: World, moving: World, s: nat, path: seq<nat>, t: nat, rest: seq<nat>)
    requires Mirrors(loc, ideal, moving)
    ensures Target(moving, s, path).Some? <==> Target(ideal, s, path).Some?
    ensures Target(ideal, s, path).Some? ==>
      var a, d := Target(ideal, s, path).value, Target(moving, s, path).value;
      && a in ideal.heap && d in moving.heap
      && (var o, p := ideal.heap[a], moving.heap[d];
          && p.payload == o.payload && p.size == o.size && p.data == o.data && |p.fields| == |o.fields|
          && (forall i :: 0 <= i < |o.fields| ==> (p.fields[i].Some? <==> o.fields[i].Some?)))
      && (Target(moving, t, rest) == Some(d) <==> Target(ideal, t, rest) == Some(a))
  {
    TargetMirrors(loc, ideal, moving, s, path);
    TargetMirrors(loc, ideal, moving, t, rest);
    hide Target;
    if Target(ideal, s, path).Some? {
      var a := Target(ideal, s, path).value;
      var o, p := ideal.heap[a], moving.heap[loc[a]];
      assert Twin(loc, o, p);
      forall i | 0 <= i < |o.fields| ensures p.fields[i].Some? <==> o.fields[i].Some? {
        assert p.fields[i] == MovePtr(loc, o.fields[i]);
      }
    }
  }

  lemma TwinEdges(loc: map<Addr, Addr>, o: Obj, p: Obj, e: Addr)
    requires Twin(loc, o, p)
    ensures Points(p, e) <==> exists b :: Points(o, b) && b in loc && loc[b] == e
  {
    if Points(p, e) {
      var i :| 0 <= i < |p.fields| && p.fields[i] == Some(e);
      assert p.fields[i] == MovePtr(loc, o.fields[i]) && Points(o, o.fields[i].value);
    }
    forall b | Points(o, b) && b in loc && loc[b] == e ensures Points(p, e) {
      var i :| 0 <= i < |o.fields| && o.fields[i] == Some(b);
      assert p.fields[i] == MovePtr(loc, o.fields[i]);
    }
  }

  // The two worlds have the same graph: what is reachable in one is reachable in the other.
  lemma MirrorsReachable(loc: map<Addr, Addr>, ideal: World, moving: World, a: Addr)
    requires Mirrors(loc, ideal, moving) && a in loc
    ensures Reachable(ideal.heap, ideal.roots.Values, a) <==> Reachable(moving.heap, moving.roots.Values, loc[a])
  {
    if Reachable(ideal.heap, ideal.roots.Values, a) {
      forall s | moving.roots.Values <= s && Closed(moving.heap, s) ensures loc[a] in s {
        ReachableForth(loc, ideal, moving, a, s);
      }
    }
    if Reachable(moving.heap, moving.roots.Values, loc[a]) {
      forall s | ideal.roots.Values <= s && Closed(ideal.heap, s) ensures a in s {
        ReachableBack(loc, ideal, moving, a, s);
      }
    }
  }

  lemma ReachableForth(loc: map<Addr, Addr>, ideal: World, moving: World, a: Addr, s: set<Addr>)
    requires Mirrors(loc, ideal, moving) && Reachable(ideal.heap, ideal.roots.Values, a)
    requires moving.roots.Values <= s && Closed(moving.heap, s)
    ensures a in loc && loc[a] in s
  {
    hide Twin;
    var t := set x | x in loc && loc[x] in s;
    forall x, y | x in t && Points(ideal.heap[x], y) ensures y in t {
      TwinCovers(loc, ideal.heap[x], moving.heap[loc[x]], y);
      TwinEdges(loc, ideal.heap[x], moving.heap[loc[x]], loc[y]);
    }
    forall r | r in ideal.roots.Values ensures r in t {
      var h :| h in ideal.roots && ideal.roots[h] == r;
      assert moving.roots[h] in moving.roots.Values;
    }
    assert Closed(ideal.heap, t);
  }

  lemma ReachableBack(loc: map<Addr, Addr>, ideal: World, moving: World, a: Addr, s: set<Addr>)
    requires Mirrors(loc, ideal, moving) && a in loc && Reachable(moving.heap, moving.roots.Values, loc[a])
    requires ideal.roots.Values <= s && Closed(ideal.heap, s)
    ensures a in s
  {
    hide Twin;
    var t := set x | x in s && x in loc :: loc[x];
    forall d, e | d in t && Points(moving.heap[d], e) ensures e in t {
      var x :| x in s && x in loc && loc[x] == d;
      TwinEdges(loc, ideal.heap[x], moving.heap[d], e);
    }
    forall r | r in moving.roots.Values ensures r in t {
      var h :| h in moving.roots && moving.roots[h] == r;
      assert ideal.roots[h] in ideal.roots.Values && ideal.roots[h] in s;
    }
    assert Closed(moving.heap, t);
  }

  lemma TwinCovers(loc: map<Addr, Addr>, o: Obj, p: Obj, b: Addr)
    requires Twin(loc, o, p) && Points(o, b)
    ensures b in loc
  {
    var i :| 0 <= i < |o.fields| && o.fields[i] == Some(b);
  }

  // And everything reachable has its place.
  lemma ReachablePlaced(loc: map<Addr, Addr>, ideal: World, moving: World, a: Addr)
    requires Mirrors(loc, ideal, moving) && Reachable(ideal.heap, ideal.roots.Values, a)
    ensures a in loc
  {
    hide Twin;
    forall x, y | x in loc && Points(ideal.heap[x], y) ensures y in loc {
      TwinCovers(loc, ideal.heap[x], moving.heap[loc[x]], y);
    }
    assert Closed(ideal.heap, loc.Keys);
  }

  // The reference program's operation, with its own name for a new object.
  function Renamed(op: Op, id: Addr): Op {
    if op.New? then op.(at := id) else op
  }

  lemma TwinExtends(loc: map<Addr, Addr>, id: Addr, at: Addr, o: Obj, p: Obj)
    requires Twin(loc, o, p) && id !in loc
    ensures Twin(loc[id := at], o, p)
  {
    assert MoveObj(loc[id := at], o).fields == MoveObj(loc, o).fields;
  }

  lemma FreshTwin(loc: map<Addr, Addr>, op: Op, mark: Bit)
    requires op.New?
    ensures Twin(loc, Fresh(op, mark), Fresh(op, mark))
  {
    assert MoveObj(loc, Fresh(op, mark)).fields == Fresh(op, mark).fields;
  }

  lemma MirrorNew(loc: map<Addr, Addr>, ideal: World, moving: World, op: Op, id: Addr, mark: Bit)
    requires Mirrors(loc, ideal, moving) && op.New? && Allowed(moving, op) && id !in ideal.heap
    ensures Allowed(ideal, Renamed(op, id))
    ensures Mirrors(loc[id := op.at], Do(ideal, Renamed(op, id), mark), Do(moving, op, mark))
  {
    var loc' := loc[id := op.at];
    var ideal', moving' := Do(ideal, Renamed(op, id), mark), Do(moving, op, mark);
    FreshTwin(loc', op, mark);
    forall a | a in loc' ensures Twin(loc', ideal'.heap[a], moving'.heap[loc'[a]]) {
      if a != id { TwinExtends(loc, id, op.at, ideal.heap[a], moving.heap[loc[a]]); }
    }
    hide Twin;
  }

  lemma MirrorLoad(loc: map<Addr, Addr>, ideal: World, moving: World, op: Op, mark: Bit)
    requires Mirrors(loc, ideal, moving) && op.Load? && Allowed(moving, op)
    ensures Allowed(ideal, op) && Mirrors(loc, Do(ideal, op, mark), Do(moving, op, mark))
  {
    var a := ideal.roots[op.from];
    assert Twin(loc, ideal.heap[a], moving.heap[loc[a]]);
    assert moving.heap[loc[a]].fields[op.i] == MovePtr(loc, ideal.heap[a].fields[op.i]);
  }

  lemma MirrorStore(loc: map<Addr, Addr>, ideal: World, moving: World, op: Op, mark: Bit)
    requires Mirrors(loc, ideal, moving) && op.Store? && Allowed(moving, op)
    ensures Allowed(ideal, op) && Mirrors(loc, Do(ideal, op, mark), Do(moving, op, mark))
  {
    TargetMirrors(loc, ideal, moving, op.obj, op.path);
    hide Target;
    var a := Target(ideal, op.obj, op.path).value;
    assert Twin(loc, ideal.heap[a], moving.heap[loc[a]]);
    var ideal', moving' := Do(ideal, op, mark), Do(moving, op, mark);
    forall b | b in loc ensures Twin(loc, ideal'.heap[b], moving'.heap[loc[b]]) {
      assert Twin(loc, ideal.heap[b], moving.heap[loc[b]]);
      if b == a {
        assert moving'.heap[loc[a]].fields == MoveObj(loc, ideal'.heap[a]).fields;
      }
    }
  }

  lemma MirrorWrite(loc: map<Addr, Addr>, ideal: World, moving: World, op: Op, mark: Bit)
    requires Mirrors(loc, ideal, moving) && op.Write? && Allowed(moving, op)
    ensures Allowed(ideal, op) && Mirrors(loc, Do(ideal, op, mark), Do(moving, op, mark))
  {
    TargetMirrors(loc, ideal, moving, op.obj, op.path);
    hide Target;
    var a := Target(ideal, op.obj, op.path).value;
    assert Twin(loc, ideal.heap[a], moving.heap[loc[a]]);
    var ideal', moving' := Do(ideal, op, mark), Do(moving, op, mark);
    forall b | b in loc ensures Twin(loc, ideal'.heap[b], moving'.heap[loc[b]]) {
      assert Twin(loc, ideal.heap[b], moving.heap[loc[b]]);
    }
  }

  // What can be done to objects in one world can be done in the other.
  lemma AllowedMirrors(loc: map<Addr, Addr>, ideal: World, moving: World, op: Op)
    requires Mirrors(loc, ideal, moving) && !op.New?
    ensures Allowed(ideal, op) <==> Allowed(moving, op)
  {
    match op {
      case Load(_, from, i) =>
        if from in ideal.roots { TwinFields(loc, ideal.heap[ideal.roots[from]], moving.heap[moving.roots[from]]); }
      case Store(o, path, i, _) => TargetsAlike(loc, ideal, moving, o, path);
      case Write(o, path, k, _) => TargetsAlike(loc, ideal, moving, o, path);
      case Drop(_) =>
    }
  }

  lemma TargetsAlike(loc: map<Addr, Addr>, ideal: World, moving: World, obj: nat, path: seq<nat>)
    requires Mirrors(loc, ideal, moving)
    ensures Leads(ideal, obj, path) <==> Leads(moving, obj, path)
    ensures Leads(ideal, obj, path) ==>
      var o, p := ideal.heap[Target(ideal, obj, path).value], moving.heap[Target(moving, obj, path).value];
      |p.fields| == |o.fields| && |p.data| == |o.data|
  {
    TargetMirrors(loc, ideal, moving, obj, path);
    hide Target;
    if Leads(ideal, obj, path) {
      TwinFields(loc, ideal.heap[Target(ideal, obj, path).value], moving.heap[Target(moving, obj, path).value]);
    }
  }

  lemma TwinFields(loc: map<Addr, Addr>, o: Obj, p: Obj)
    requires Twin(loc, o, p)
    ensures |p.fields| == |o.fields| && |p.data| == |o.data|
    ensures forall i :: 0 <= i < |o.fields| ==> (p.fields[i].Some? <==> o.fields[i].Some?)
  {
    forall i | 0 <= i < |o.fields| ensures p.fields[i].Some? <==> o.fields[i].Some? {
      assert p.fields[i] == MovePtr(loc, o.fields[i]);
    }
  }

  // Every operation of the program keeps the two worlds in step.
  lemma MirrorStep(loc: map<Addr, Addr>, ideal: World, moving: World, op: Op, id: Addr, mark: Bit)
    returns (loc': map<Addr, Addr>)
    requires Mirrors(loc, ideal, moving) && Allowed(moving, op) && id !in ideal.heap
    ensures Allowed(ideal, Renamed(op, id))
    ensures Mirrors(loc', Do(ideal, Renamed(op, id), mark), Do(moving, op, mark))
  {
    hide Mirrors, Do;
    loc' := loc;
    match op {
      case New(_, _, _, _, _, _) =>
        MirrorNew(loc, ideal, moving, op, id, mark);
        loc' := loc[id := op.at];
      case Load(_, _, _) => MirrorLoad(loc, ideal, moving, op, mark);
      case Store(_, _, _, _) => MirrorStore(loc, ideal, moving, op, mark);
      case Write(_, _, _, _) => MirrorWrite(loc, ideal, moving, op, mark);
      case Drop(_) => MirrorDrop(loc, ideal, moving, op, mark);
    }
  }

  lemma MirrorDrop(loc: map<Addr, Addr>, ideal: World, moving: World, op: Op, mark: Bit)
    requires Mirrors(loc, ideal, moving) && op.Drop? && Allowed(moving, op)
    ensures Allowed(ideal, op) && Mirrors(loc, Do(ideal, op, mark), Do(moving, op, mark))
  {
  }

  lemma DoSound(w: World, op: Op, mark: Bit)
    requires Sound(w) && Allowed(w, op)
    ensures Sound(Do(w, op, mark))
  {
    hide Target;
    var w' := Do(w, op, mark);
    if op.Store? {
      var a := Target(w, op.obj, op.path).value;
      forall b, c | b in w'.heap && Points(w'.heap[b], c) ensures c in w'.heap {
        var j :| 0 <= j < |w'.heap[b].fields| && w'.heap[b].fields[j] == Some(c);
        if b != a || j != op.i { assert Points(w.heap[b], c); }
      }
    } else if op.Load? {
      assert Points(w.heap[w.roots[op.from]], w.heap[w.roots[op.from]].fields[op.i].value);
    } else if op.New? {
      forall b, c | b in w'.heap && Points(w'.heap[b], c) ensures c in w'.heap {
        if b != op.at { assert Points(w.heap[b], c); }
      }
    }
  }

  // Only mark bits changed.
  lemma MirrorMarks(loc: map<Addr, Addr>, ideal: World, moving: World, heap: Heap)
    requires Mirrors(loc, ideal, moving)
    requires heap.Keys == moving.heap.Keys && forall a :: a in heap ==> heap[a] == moving.heap[a].(mark := heap[a].mark)
    ensures Mirrors(loc, ideal, moving.(heap := heap))
  {
    forall a | a in loc ensures Twin(loc, ideal.heap[a], heap[loc[a]]) {
      assert Twin(loc, ideal.heap[a], moving.heap[loc[a]]);
    }
  }

  // ----- Moving the whole world along a relocation -----

  function MoveRoots(f: map<Addr, Addr>, roots: map<nat, Addr>): map<nat, Addr>
    requires roots.Values <= f.Keys
  {
    map s | s in roots :: f[roots[s]]
  }

  function Compose(f: map<Addr, Addr>, loc: map<Addr, Addr>): map<Addr, Addr> {
    map a | a in loc && loc[a] in f :: f[loc[a]]
  }

  lemma ComposeInjective(f: map<Addr, Addr>, loc: map<Addr, Addr>)
    requires Injective(f) && Injective(loc)
    ensures Injective(Compose(f, loc)) && Compose(f, loc).Values <= f.Values
  {
  }

  // A relocation that covers a closed set holding the roots is invisible to the program.
  lemma MirrorMove(loc: map<Addr, Addr>, ideal: World, moving: World, f: map<Addr, Addr>, heap: Heap)
    requires Mirrors(loc, ideal, moving)
    requires Closed(moving.heap, f.Keys) && moving.roots.Values <= f.Keys && MovedHeap(moving.heap, f, heap)
    ensures Mirrors(Compose(f, loc), ideal, World(heap, MoveRoots(f, moving.roots)))
  {
    hide Twin, Covered, MoveObj, MovedHeap, Injective, Compose, MoveRoots;
    var loc' := Compose(f, loc);
    ComposePlaces(loc, ideal, moving, f, heap);
    forall a | a in loc' ensures Twin(loc', ideal.heap[a], heap[loc'[a]]) {
      TwinMoves(loc, ideal, moving, f, heap, a);
    }
  }

  lemma ComposePlaces(loc: map<Addr, Addr>, ideal: World, moving: World, f: map<Addr, Addr>, heap: Heap)
    requires Mirrors(loc, ideal, moving) && moving.roots.Values <= f.Keys && MovedHeap(moving.heap, f, heap)
    ensures Injective(Compose(f, loc)) && Compose(f, loc).Keys <= loc.Keys && Compose(f, loc).Values <= heap.Keys
    ensures ideal.roots.Keys == MoveRoots(f, moving.roots).Keys
    ensures forall s :: s in ideal.roots ==>
      ideal.roots[s] in Compose(f, loc) && Compose(f, loc)[ideal.roots[s]] == MoveRoots(f, moving.roots)[s]
  {
    hide Twin, Covered, MoveObj;
    ComposeInjective(f, loc);
    forall s | s in ideal.roots
      ensures ideal.roots[s] in Compose(f, loc) && Compose(f, loc)[ideal.roots[s]] == f[moving.roots[s]]
    {
      assert moving.roots[s] in moving.roots.Values;
    }
  }

  lemma TwinMoves(loc: map<Addr, Addr>, ideal: World, moving: World, f: map<Addr, Addr>, heap: Heap, a: Addr)
    requires Mirrors(loc, ideal, moving)
    requires Closed(moving.heap, f.Keys) && MovedHeap(moving.heap, f, heap)
    requires a in Compose(f, loc)
    ensures Twin(Compose(f, loc), ideal.heap[a], heap[Compose(f, loc)[a]])
  {
    var loc' := Compose(f, loc);
    var o, p, q := ideal.heap[a], moving.heap[loc[a]], heap[loc'[a]];
    assert Twin(loc, o, p) && q == MoveObj(f, p);
    forall i | 0 <= i < |o.fields| && o.fields[i].Some?
      ensures o.fields[i].value in loc' && q.fields[i] == Some(loc'[o.fields[i].value])
    {
      assert p.fields[i] == Some(loc[o.fields[i].value]);
      assert Points(p, p.fields[i].value);
    }
    assert q.fields == MoveObj(loc', o).fields;
  }
}
