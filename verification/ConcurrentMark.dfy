// Marking while the program runs. The marker reads one field at a time; between its reads the
// program may store null or a handle's pointer, write data, and drop handles. There is no write
// barrier: completeness rests on every stored pointer coming from a handle, hence from the
// snapshot of the roots.
module ConcurrentMark {
  import opened Prelude
  import opened Pages
  import opened Placement
  import opened Registry
  import opened Graph
  import opened Mutator
  import opened Marking

  // The object whose fields are being read, and the next field.
  datatype Scan = Scan(obj: Addr, next: nat)

  // `snapshot` and `live0` are the roots and the reachable objects at the start.
  datatype MarkState = MarkState(
    bit: Bit,
    snapshot: set<Addr>,
    live0: set<Addr>,
    pending: seq<Addr>,
    stack: seq<Addr>,
    scan: Option<Scan>,
    order: seq<Addr>,
    placed: Placed,
    records: seq<Record>)

  // Visit the next root, pop the stack, or read the next field.
  datatype MarkStep = NextRoot | Pop | ReadField

  function Top(ms: MarkState): Addr
    requires ms.stack != []
  {
    ms.stack[|ms.stack| - 1]
  }

  function Reserve(h: Heap, ms: MarkState): Option<Placed>
    requires ms.stack != [] && Top(ms) in h && Good(ms.placed)
  {
    Extend(ms.placed, h[Top(ms)].size)
  }

  ghost predicate Enabled(h: Heap, ms: MarkState, step: MarkStep) {
    match step
    case NextRoot => ms.pending != [] && ms.stack == [] && ms.scan.None?
    case Pop =>
      && ms.stack != [] && ms.scan.None? && Top(ms) in h && Good(ms.placed)
      && (h[Top(ms)].mark != ms.bit ==> Reserve(h, ms).Some?)
    case ReadField => ms.scan.Some? && ms.scan.value.obj in h && ms.scan.value.next <= |h[ms.scan.value.obj].fields|
  }

  ghost predicate Finished(ms: MarkState) {
    ms.pending == [] && ms.stack == [] && ms.scan.None?
  }

  ghost function MarkHeap(h: Heap, ms: MarkState, step: MarkStep): Heap
    requires Enabled(h, ms, step)
  {
    if step.Pop? then h[Top(ms) := h[Top(ms)].(mark := ms.bit)] else h
  }

  ghost function MarkNext(h: Heap, base: nat, ms: MarkState, step: MarkStep): MarkState
    requires Enabled(h, ms, step) && Laid(h, base)
  {
    match step
    case NextRoot => ms.(pending := ms.pending[1..], stack := [ms.pending[0]])
    case Pop =>
      var a := Top(ms);
      var rest := ms.(stack := ms.stack[..|ms.stack| - 1]);
      if h[a].mark == ms.bit then rest else
        GrantAboveBase(ms.placed.table, ms.placed.local, h[a].size);
        var dest := AllocIn(ms.placed.table, ms.placed.local, h[a].size).grant.value.addr - ms.placed.table.base;
        rest.(scan := Some(Scan(a, 0)), order := ms.order + [a], placed := Reserve(h, ms).value,
              records := ms.records + [Record(a - base, dest, h[a].size)])
    case ReadField =>
      var Scan(a, i) := ms.scan.value;
      if i == |h[a].fields| then ms.(scan := None)
      else ms.(scan := Some(Scan(a, i + 1)),
               stack := if h[a].fields[i].Some? then ms.stack + [h[a].fields[i].value] else ms.stack)
  }

  // ----- The invariant -----

  ghost predicate Seen(h: Heap, ms: MarkState, b: Addr)
    requires b in h
  {
    h[b].mark == ms.bit || b in ms.stack || b in ms.pending
  }

  // Field i of object a has been read already (or a is done).
  ghost predicate PastField(ms: MarkState, a: Addr, i: nat) {
    !(ms.scan.Some? && ms.scan.value.obj == a && i >= ms.scan.value.next)
  }

  // Whatever a marked object points to through a field already read has been seen.
  ghost predicate Tricolor(h: Heap, ms: MarkState)
    requires WellFormed(h)
  {
    forall a, i: nat ::
      a in h && h[a].mark == ms.bit && i < |h[a].fields| && h[a].fields[i].Some? && PastField(ms, a, i) ==>
        Points(h[a], h[a].fields[i].value) && Seen(h, ms, h[a].fields[i].value)
  }

  ghost predicate Scope(w: World, ms: MarkState) {
    && w.roots.Values <= ms.snapshot <= ms.live0
    && Closed(w.heap, ms.live0)
    && Marked(w.heap, ms.bit) <= ms.live0
    && (forall b :: b in ms.stack || b in ms.pending ==> b in ms.live0)
    && (ms.scan.Some? ==>
          && ms.scan.value.obj in Marked(w.heap, ms.bit)
          && ms.scan.value.next <= |w.heap[ms.scan.value.obj].fields|)
  }

  ghost predicate MarkInv(w: World, base: nat, ms: MarkState) {
    && Sound(w) && Laid(w.heap, base) && NoOverlap(w.heap)
    && Scope(w, ms)
    && (forall b :: b in ms.snapshot ==> b in w.heap && Seen(w.heap, ms, b))
    && Tricolor(w.heap, ms)
    && Registered(w.heap, base, Marked(w.heap, ms.bit), ms.order, ms.placed, ms.records)
  }

  ghost function Begin(w: World, bit: Bit, pending: seq<Addr>, toBase: nat, nrPages: nat): MarkState {
    MarkState(bit, w.roots.Values, Live(w.heap, w.roots.Values), pending, [], None,
              [], Placed(Cleared(toBase, nrPages), None, []), [])
  }

  // The snapshot is taken with every object unmarked.
  lemma BeginInv(w: World, base: nat, bit: Bit, pending: seq<Addr>, toBase: nat, nrPages: nat)
    requires Sound(w) && Laid(w.heap, base) && NoOverlap(w.heap)
    requires forall a :: a in w.heap ==> w.heap[a].mark != bit
    requires forall a :: a in pending <==> a in w.roots.Values
    ensures MarkInv(w, base, Begin(w, bit, pending, toBase, nrPages))
  {
    LiveClosed(w.heap, w.roots.Values);
    assert Marked(w.heap, bit) == {};
    RegisterNone(w.heap, base, toBase, nrPages);
    hide Registered;
  }

  lemma RegisteredSame(h: Heap, h': Heap, base: nat, live: set<Addr>, order: seq<Addr>, m: Placed, rs: seq<Record>)
    requires Registered(h, base, live, order, m, rs)
    requires h.Keys == h'.Keys && forall a :: a in h ==> h'[a].size == h[a].size
    ensures Registered(h', base, live, order, m, rs)
  {
    assert SizesOf(h', order) == SizesOf(h, order);
    hide Place, Good, AllocIn;
  }

  // ----- Marker steps -----

  lemma NextRootInv(w: World, base: nat, ms: MarkState)
    requires MarkInv(w, base, ms) && Enabled(w.heap, ms, NextRoot)
    ensures MarkInv(w, base, MarkNext(w.heap, base, ms, NextRoot))
  {
    hide Registered, Closed, Laid, NoOverlap;
    var ms' := MarkNext(w.heap, base, ms, NextRoot);
    assert forall b :: b in ms.pending <==> b == ms.pending[0] || b in ms.pending[1..];
    assert forall b :: b in w.heap && Seen(w.heap, ms, b) ==> Seen(w.heap, ms', b);
  }

  lemma ReadFieldInv(w: World, base: nat, ms: MarkState)
    requires MarkInv(w, base, ms) && Enabled(w.heap, ms, ReadField)
    ensures MarkInv(w, base, MarkNext(w.heap, base, ms, ReadField))
  {
    hide *;
    ReadScope(w, base, ms);
    ReadSeen(w, base, ms);
    ReadTricolor(w, base, ms);
    ReadAssemble(w, base, ms);
  }

  lemma ReadScope(w: World, base: nat, ms: MarkState)
    requires MarkInv(w, base, ms) && Enabled(w.heap, ms, ReadField)
    ensures Scope(w, MarkNext(w.heap, base, ms, ReadField))
  {
    hide Registered, Laid, NoOverlap, Tricolor, WellFormed;
    var Scan(a, i) := ms.scan.value;
    if i < |w.heap[a].fields| && w.heap[a].fields[i].Some? {
      assert Points(w.heap[a], w.heap[a].fields[i].value);
    }
  }

  lemma ReadSeen(w: World, base: nat, ms: MarkState)
    requires MarkInv(w, base, ms) && Enabled(w.heap, ms, ReadField)
    ensures forall b :: b in w.heap && Seen(w.heap, ms, b) ==> Seen(w.heap, MarkNext(w.heap, base, ms, ReadField), b)
  {
    hide Registered, Laid, NoOverlap, Tricolor, WellFormed, Closed, Scope;
    var ms' := MarkNext(w.heap, base, ms, ReadField);
    assert forall b :: b in ms.stack ==> b in ms'.stack;
  }

  lemma ReadAssemble(w: World, base: nat, ms: MarkState)
    requires MarkInv(w, base, ms) && Enabled(w.heap, ms, ReadField)
    requires var ms' := MarkNext(w.heap, base, ms, ReadField);
      && Scope(w, ms') && Tricolor(w.heap, ms')
      && (forall b :: b in w.heap && Seen(w.heap, ms, b) ==> Seen(w.heap, ms', b))
    ensures MarkInv(w, base, MarkNext(w.heap, base, ms, ReadField))
  {
    hide Registered, Laid, NoOverlap, Tricolor, WellFormed, Closed, Scope, Seen, Sound;
  }

  lemma ReadTricolor(w: World, base: nat, ms: MarkState)
    requires MarkInv(w, base, ms) && Enabled(w.heap, ms, ReadField)
    ensures Tricolor(w.heap, MarkNext(w.heap, base, ms, ReadField))
  {
    hide Registered, Laid, NoOverlap, Scope;
    var h, ms' := w.heap, MarkNext(w.heap, base, ms, ReadField);
    var Scan(a, i) := ms.scan.value;
    assert forall b :: b in ms.stack ==> b in ms'.stack;
    forall c, j: nat | c in h && h[c].mark == ms.bit && j < |h[c].fields|
        && h[c].fields[j].Some? && PastField(ms', c, j)
      ensures Points(h[c], h[c].fields[j].value) && Seen(h, ms', h[c].fields[j].value)
    {
      assert Points(h[c], h[c].fields[j].value);
      if c != a || j != i { assert PastField(ms, c, j); }
    }
  }

  lemma PopInv(w: World, base: nat, ms: MarkState)
    requires MarkInv(w, base, ms) && Enabled(w.heap, ms, Pop)
    ensures MarkInv(w.(heap := MarkHeap(w.heap, ms, Pop)), base, MarkNext(w.heap, base, ms, Pop))
  {
    var a := Top(ms);
    assert a in ms.stack;
    if w.heap[a].mark == ms.bit {
      PopSkip(w, base, ms);
    } else {
      PopMark(w, base, ms);
    }
  }

  lemma PopSkip(w: World, base: nat, ms: MarkState)
    requires MarkInv(w, base, ms) && Enabled(w.heap, ms, Pop) && w.heap[Top(ms)].mark == ms.bit
    ensures MarkHeap(w.heap, ms, Pop) == w.heap
    ensures MarkInv(w, base, MarkNext(w.heap, base, ms, Pop))
  {
    hide Registered, Laid, NoOverlap, Good;
    var h, ms' := w.heap, MarkNext(w.heap, base, ms, Pop);
    assert forall b :: b in ms.stack <==> b == Top(ms) || b in ms'.stack;
    assert forall b :: b in h && Seen(h, ms, b) ==> Seen(h, ms', b);
  }

  lemma PopRegistered(w: World, base: nat, ms: MarkState)
    requires MarkInv(w, base, ms) && Enabled(w.heap, ms, Pop) && w.heap[Top(ms)].mark != ms.bit
    ensures var h', ms' := MarkHeap(w.heap, ms, Pop), MarkNext(w.heap, base, ms, Pop);
      && Marked(h', ms.bit) == Marked(w.heap, ms.bit) + {Top(ms)}
      && Registered(h', base, Marked(h', ms.bit), ms'.order, ms'.placed, ms'.records)
  {
    hide Tricolor, Scope, Place, AllocIn, NoOverlap;
    var h, h', a, ms' := w.heap, MarkHeap(w.heap, ms, Pop), Top(ms), MarkNext(w.heap, base, ms, Pop);
    GrantAboveBase(ms.placed.table, ms.placed.local, h[a].size);
    RegisterOne(h, base, Marked(h, ms.bit), ms.order, ms.placed, ms.records, a, ms'.records[|ms.records|]);
    assert Marked(h', ms.bit) == Marked(h, ms.bit) + {a};
    RegisteredSame(h, h', base, Marked(h', ms.bit), ms'.order, ms'.placed, ms'.records);
  }

  lemma PopTricolor(w: World, base: nat, ms: MarkState)
    requires MarkInv(w, base, ms) && Enabled(w.heap, ms, Pop) && w.heap[Top(ms)].mark != ms.bit
    requires WellFormed(MarkHeap(w.heap, ms, Pop))
    ensures var h', ms' := MarkHeap(w.heap, ms, Pop), MarkNext(w.heap, base, ms, Pop);
      && (forall b :: b in w.heap && Seen(w.heap, ms, b) ==> b in h' && Seen(h', ms', b))
      && Tricolor(h', ms')
  {
    hide Registered, Good, AllocIn, Extend, NoOverlap, WellFormed;
    var h, h', a, ms' := w.heap, MarkHeap(w.heap, ms, Pop), Top(ms), MarkNext(w.heap, base, ms, Pop);
    assert forall b :: b in ms.stack <==> b == a || b in ms'.stack;
    assert forall b :: b in h && Seen(h, ms, b) ==> Seen(h', ms', b);
    forall c, j: nat | c in h' && h'[c].mark == ms.bit && j < |h'[c].fields|
        && h'[c].fields[j].Some? && PastField(ms', c, j)
      ensures Points(h'[c], h'[c].fields[j].value) && Seen(h', ms', h'[c].fields[j].value)
    {
      assert c != a && PastField(ms, c, j);
    }
  }

  lemma PopMark(w: World, base: nat, ms: MarkState)
    requires MarkInv(w, base, ms) && Enabled(w.heap, ms, Pop) && w.heap[Top(ms)].mark != ms.bit
    ensures MarkInv(w.(heap := MarkHeap(w.heap, ms, Pop)), base, MarkNext(w.heap, base, ms, Pop))
  {
    hide *;
    PopScope(w, base, ms);
    PopRegistered(w, base, ms);
    PopTricolor(w, base, ms);
    PopAssemble(w, base, ms);
  }

  lemma PopScope(w: World, base: nat, ms: MarkState)
    requires MarkInv(w, base, ms) && Enabled(w.heap, ms, Pop) && w.heap[Top(ms)].mark != ms.bit
    ensures var h', ms' := MarkHeap(w.heap, ms, Pop), MarkNext(w.heap, base, ms, Pop);
      && Sound(w.(heap := h')) && WellFormed(h') && Laid(h', base) && NoOverlap(h') && Scope(w.(heap := h'), ms')
  {
    hide Registered, Good, AllocIn, Extend, Tricolor, Reserve, Seen, Closed, NoOverlap, Laid, WellFormed;
    var h', ms' := MarkHeap(w.heap, ms, Pop), MarkNext(w.heap, base, ms, Pop);
    assert Top(ms) in ms.stack;
    assert forall b :: b in ms'.stack ==> b in ms.stack;
    MarksKeepWorld(w, h', base, ms.live0);
    assert Marked(h', ms.bit) == Marked(w.heap, ms.bit) + {Top(ms)};
  }

  lemma PopAssemble(w: World, base: nat, ms: MarkState)
    requires MarkInv(w, base, ms) && Enabled(w.heap, ms, Pop) && w.heap[Top(ms)].mark != ms.bit
    requires var h', ms' := MarkHeap(w.heap, ms, Pop), MarkNext(w.heap, base, ms, Pop);
      && Sound(w.(heap := h')) && WellFormed(h') && Laid(h', base) && NoOverlap(h') && Scope(w.(heap := h'), ms')
      && (forall b :: b in w.heap && Seen(w.heap, ms, b) ==> b in h' && Seen(h', ms', b))
      && Tricolor(h', ms')
      && Registered(h', base, Marked(h', ms.bit), ms'.order, ms'.placed, ms'.records)
    ensures MarkInv(w.(heap := MarkHeap(w.heap, ms, Pop)), base, MarkNext(w.heap, base, ms, Pop))
  {
    hide Registered, Good, AllocIn, Extend, Tricolor, Reserve, Seen, Scope, Laid, NoOverlap, WellFormed, Closed, Sound;
  }

  lemma MarksKeepWorld(w: World, h': Heap, base: nat, s: set<Addr>)
    requires SameButMarks(h', w.heap) && Sound(w) && Laid(w.heap, base) && NoOverlap(w.heap) && Closed(w.heap, s)
    ensures Sound(w.(heap := h')) && Laid(h', base) && NoOverlap(h') && Closed(h', s)
  {
    forall a, b | a in h' && Points(h'[a], b) ensures Points(w.heap[a], b) {}
  }

  // ----- Program steps during marking -----

  // Handles are only made by allocation, and there is no allocation in this window. Stores and
  // writes go to any object that a path of fields leads to from a handle.
  predicate MarkingOp(op: Op) { op.Store? || op.Write? || op.Drop? }

  lemma MutateInv(w: World, base: nat, ms: MarkState, op: Op)
    requires MarkInv(w, base, ms) && Allowed(w, op) && MarkingOp(op)
    ensures MarkInv(Do(w, op, ms.bit), base, ms)
  {
    hide Place, AllocIn, Good, Tricolor, Registered;
    var h, w' := w.heap, Do(w, op, ms.bit);
    var h' := w'.heap;
    DoSound(w, op, ms.bit);
    assert h'.Keys == h.Keys && forall a :: a in h ==> h'[a].mark == h[a].mark && h'[a].size == h[a].size;
    assert Marked(h', ms.bit) == Marked(h, ms.bit);
    RegisteredSame(h, h', base, Marked(h, ms.bit), ms.order, ms.placed, ms.records);
    MutateShape(w, base, ms, op);
    if op.Store? {
      StoreScope(w, base, ms, op);
    } else {
      FieldsScope(w, base, ms, h');
    }
  }

  // Handles only go away, and no scanned object changes its number of fields.
  lemma MutateShape(w: World, base: nat, ms: MarkState, op: Op)
    requires MarkInv(w, base, ms) && Allowed(w, op) && MarkingOp(op)
    ensures var w' := Do(w, op, ms.bit);
      && w'.roots.Values <= w.roots.Values && Laid(w'.heap, base) && NoOverlap(w'.heap)
      && w'.heap.Keys == w.heap.Keys
      && (forall a :: a in w.heap ==> |w'.heap[a].fields| == |w.heap[a].fields| && w'.heap[a].mark == w.heap[a].mark)
  {
    hide Registered, Tricolor, Scope, WellFormed, Follow, Target;
  }

  lemma FieldsScope(w: World, base: nat, ms: MarkState, h': Heap)
    requires MarkInv(w, base, ms) && WellFormed(h') && h'.Keys == w.heap.Keys
    requires forall a :: a in h' ==> h'[a].fields == w.heap[a].fields && h'[a].mark == w.heap[a].mark
    ensures Closed(h', ms.live0) && Tricolor(h', ms)
  {
    hide Registered, Laid, NoOverlap;
    forall a: Addr, b: Addr | a in ms.live0 && Points(h'[a], b) ensures b in ms.live0 {
      assert Points(w.heap[a], b);
    }
    forall c: Addr, j: nat | c in h' && h'[c].mark == ms.bit && j < |h'[c].fields|
        && h'[c].fields[j].Some? && PastField(ms, c, j)
      ensures Points(h'[c], h'[c].fields[j].value) && Seen(h', ms, h'[c].fields[j].value)
    {
      assert Points(w.heap[c], w.heap[c].fields[j].value);
    }
  }

  lemma StoreScope(w: World, base: nat, ms: MarkState, op: Op)
    requires MarkInv(w, base, ms) && Allowed(w, op) && op.Store?
    requires Sound(Do(w, op, ms.bit))
    ensures Closed(Do(w, op, ms.bit).heap, ms.live0) && Tricolor(Do(w, op, ms.bit).heap, ms)
  {
    hide Registered, Laid, NoOverlap, Target;
    var h, h', a := w.heap, Do(w, op, ms.bit).heap, Target(w, op.obj, op.path).value;
    forall c, j: nat | c in h' && j < |h'[c].fields| && h'[c].fields[j].Some? && (c != a || j != op.i)
      ensures Points(h[c], h'[c].fields[j].value) && h[c].fields[j] == h'[c].fields[j]
    {
    }
    if op.value.Some? {
      assert w.roots[op.value.value] in w.roots.Values;
    }
    forall c, b | c in ms.live0 && Points(h'[c], b) ensures b in ms.live0 {
      var j :| 0 <= j < |h'[c].fields| && h'[c].fields[j] == Some(b);
    }
    forall c, j: nat | c in h' && h'[c].mark == ms.bit && j < |h'[c].fields|
        && h'[c].fields[j].Some? && PastField(ms, c, j)
      ensures Points(h'[c], h'[c].fields[j].value) && Seen(h', ms, h'[c].fields[j].value)
    {
      assert Points(h'[c], h'[c].fields[j].value);
    }
  }

  // Why handles matter: putting a pointer p into a field keeps the tricolour condition exactly
  // when p has been seen, or the object is yet to be marked, or its field is yet to be read.
  // Copying a pointer straight out of another field guarantees none of these.
  lemma RawStoreKeepsIff(h: Heap, ms: MarkState, a: Addr, i: nat, p: Addr)
    requires WellFormed(h) && Tricolor(h, ms) && a in h && i < |h[a].fields| && p in h
    ensures var h' := h[a := h[a].(fields := h[a].fields[i := Some(p)])];
      && WellFormed(h')
      && (Tricolor(h', ms) <==> Seen(h, ms, p) || h[a].mark != ms.bit || !PastField(ms, a, i))
  {
    var h' := h[a := h[a].(fields := h[a].fields[i := Some(p)])];
    forall c, b | c in h' && Points(h'[c], b) ensures b in h' {
      var j :| 0 <= j < |h'[c].fields| && h'[c].fields[j] == Some(b);
      if c != a || j != i { assert Points(h[c], b); }
    }
    assert h'[a].fields[i] == Some(p) && Points(h'[a], p);
    if Seen(h, ms, p) || h[a].mark != ms.bit || !PastField(ms, a, i) {
      forall c, j: nat | c in h' && h'[c].mark == ms.bit && j < |h'[c].fields|
          && h'[c].fields[j].Some? && PastField(ms, c, j)
        ensures Points(h'[c], h'[c].fields[j].value) && Seen(h', ms, h'[c].fields[j].value)
      {
        assert Points(h'[c], h'[c].fields[j].value);
        if c != a || j != i { assert h[c].fields[j] == h'[c].fields[j]; }
      }
    }
  }

  // ----- Whole runs -----

  datatype Event = Marker(step: MarkStep) | Program(op: Op)

  ghost predicate Next(w: World, ms: MarkState, base: nat, e: Event, w': World, ms': MarkState) {
    match e
    case Marker(step) =>
      && Enabled(w.heap, ms, step) && Laid(w.heap, base)
      && w' == w.(heap := MarkHeap(w.heap, ms, step)) && ms' == MarkNext(w.heap, base, ms, step)
    case Program(op) =>
      Allowed(w, op) && MarkingOp(op) && w' == Do(w, op, ms.bit) && ms' == ms
  }

  lemma NextInv(w: World, ms: MarkState, base: nat, e: Event, w': World, ms': MarkState)
    requires MarkInv(w, base, ms) && Next(w, ms, base, e, w', ms')
    ensures MarkInv(w', base, ms')
  {
    hide MarkInv, Enabled, Do, MarkNext;
    match e {
      case Marker(NextRoot) => NextRootInv(w, base, ms);
      case Marker(Pop) => PopInv(w, base, ms);
      case Marker(ReadField) => ReadFieldInv(w, base, ms);
      case Program(op) => MutateInv(w, base, ms, op);
    }
  }

  ghost predicate MarkRun(w: World, ms: MarkState, base: nat, es: seq<Event>, w': World, ms': MarkState)
    decreases |es|
  {
    if es == [] then w' == w && ms' == ms
    else exists w1, ms1 :: Next(w, ms, base, es[0], w1, ms1) && MarkRun(w1, ms1, base, es[1..], w', ms')
  }

  lemma {:induction false} MarkRunInv(w: World, ms: MarkState, base: nat, es: seq<Event>, w': World, ms': MarkState)
    requires MarkInv(w, base, ms) && MarkRun(w, ms, base, es, w', ms')
    ensures MarkInv(w', base, ms')
    ensures ms'.snapshot == ms.snapshot && ms'.live0 == ms.live0 && ms'.bit == ms.bit
    decreases |es|
  {
    hide MarkInv;
    if es != [] {
      var w1, ms1 :| Next(w, ms, base, es[0], w1, ms1) && MarkRun(w1, ms1, base, es[1..], w', ms');
      NextInv(w, ms, base, es[0], w1, ms1);
      MarkRunInv(w1, ms1, base, es[1..], w', ms');
    }
  }

  // ----- Termination -----

  // Unmarked objects, fields still to read, and roots and stack entries still to visit.
  ghost function Measure(h: Heap, ms: MarkState): (nat, nat, nat) {
    (|h.Keys - Marked(h, ms.bit)|,
     if ms.scan.Some? && ms.scan.value.obj in h && ms.scan.value.next <= |h[ms.scan.value.obj].fields|
       then |h[ms.scan.value.obj].fields| - ms.scan.value.next + 1 else 0,
     |ms.stack| + 2 * |ms.pending|)
  }

  ghost predicate Below(p: (nat, nat, nat), q: (nat, nat, nat)) {
    p.0 < q.0 || (p.0 == q.0 && (p.1 < q.1 || (p.1 == q.1 && p.2 < q.2)))
  }

  // Every marker step lowers the measure lexicographically and no program step changes it, so
  // the program cannot keep the marker busy for ever.
  lemma MeasureFalls(w: World, ms: MarkState, base: nat, e: Event, w': World, ms': MarkState)
    requires MarkInv(w, base, ms) && Next(w, ms, base, e, w', ms')
    ensures e.Marker? ==> Below(Measure(w'.heap, ms'), Measure(w.heap, ms))
    ensures e.Program? ==> Measure(w'.heap, ms') == Measure(w.heap, ms)
  {
    match e {
      case Program(op) => ProgramKeepsMeasure(w, base, ms, op);
      case Marker(step) => MarkerLowersMeasure(w, base, ms, step);
    }
  }

  lemma ProgramKeepsMeasure(w: World, base: nat, ms: MarkState, op: Op)
    requires MarkInv(w, base, ms) && Allowed(w, op) && MarkingOp(op)
    ensures Measure(Do(w, op, ms.bit).heap, ms) == Measure(w.heap, ms)
  {
    hide *;
    MutateShape(w, base, ms, op);
    SameShapeSameMeasure(w.heap, Do(w, op, ms.bit).heap, ms);
  }

  lemma SameShapeSameMeasure(h: Heap, h': Heap, ms: MarkState)
    requires h'.Keys == h.Keys
    requires forall a :: a in h ==> |h'[a].fields| == |h[a].fields| && h'[a].mark == h[a].mark
    ensures Measure(h', ms) == Measure(h, ms)
  {
    assert Marked(h', ms.bit) == Marked(h, ms.bit);
  }

  lemma MarkerLowersMeasure(w: World, base: nat, ms: MarkState, step: MarkStep)
    requires MarkInv(w, base, ms) && Enabled(w.heap, ms, step)
    ensures Below(Measure(MarkHeap(w.heap, ms, step), MarkNext(w.heap, base, ms, step)), Measure(w.heap, ms))
  {
    hide MarkInv, Measure, Below, Enabled;
    match step {
      case NextRoot => StackLowers(w, base, ms, step);
      case ReadField => StackLowers(w, base, ms, step);
      case Pop => PopLowers(w, base, ms);
    }
  }

  lemma StackLowers(w: World, base: nat, ms: MarkState, step: MarkStep)
    requires MarkInv(w, base, ms) && Enabled(w.heap, ms, step) && !step.Pop?
    ensures Below(Measure(MarkHeap(w.heap, ms, step), MarkNext(w.heap, base, ms, step)), Measure(w.heap, ms))
  {
    hide Registered, Tricolor, NoOverlap, Good, AllocIn, WellFormed, Closed, Marked;
  }

  lemma PopLowers(w: World, base: nat, ms: MarkState)
    requires MarkInv(w, base, ms) && Enabled(w.heap, ms, Pop)
    ensures Below(Measure(MarkHeap(w.heap, ms, Pop), MarkNext(w.heap, base, ms, Pop)), Measure(w.heap, ms))
  {
    hide Registered, Tricolor, NoOverlap, Good, AllocIn, Extend, WellFormed, Closed;
    var h, h', a := w.heap, MarkHeap(w.heap, ms, Pop), Top(ms);
    assert a in ms.stack;
    if h[a].mark == ms.bit {
      assert h' == h;
    } else {
      assert h'.Keys - Marked(h', ms.bit) == h.Keys - Marked(h, ms.bit) - {a};
    }
  }

  // And while marking is not finished the marker can step, unless the table has no room for
  // the next object.
  lemma MarkerNotStuck(w: World, base: nat, ms: MarkState)
    requires MarkInv(w, base, ms) && !Finished(ms)
    ensures || (exists step :: Enabled(w.heap, ms, step))
            || (ms.stack != [] && Top(ms) in w.heap && Good(ms.placed) && Reserve(w.heap, ms).None?)
  {
    PlacedIsGood(w.heap, ms.order, ms.placed);
    if ms.scan.Some? {
      assert Enabled(w.heap, ms, ReadField);
    } else if ms.stack != [] {
      assert Top(ms) in ms.stack;
      assert Enabled(w.heap, ms, Pop) || Reserve(w.heap, ms).None?;
    } else {
      assert Enabled(w.heap, ms, NextRoot);
    }
  }

  // ----- Completeness -----

  // The marked set at the end: closed, holding the roots, so everything reachable now is
  // marked, and nothing is marked that was not reachable at the snapshot.
  lemma FinishedComplete(w: World, base: nat, ms: MarkState)
    requires MarkInv(w, base, ms) && Finished(ms)
    ensures Closed(w.heap, Marked(w.heap, ms.bit)) && w.roots.Values <= Marked(w.heap, ms.bit)
    ensures Live(w.heap, w.roots.Values) <= Marked(w.heap, ms.bit) <= ms.live0
  {
    hide Registered;
    var m := Marked(w.heap, ms.bit);
    forall a: Addr, b: Addr | a in m && Points(w.heap[a], b) ensures b in m {
      var j :| 0 <= j < |w.heap[a].fields| && w.heap[a].fields[j] == Some(b);
      assert PastField(ms, a, j);
    }
    assert Closed(w.heap, m);
  }

  // Barrier-free marking is complete: over any interleaving of marker reads with the program's
  // stores, writes and drops, every object reachable when marking finishes has a relocation
  // record, and only objects reachable at the snapshot have one.
  lemma ConcurrentMarkingComplete(w: World, base: nat, bit: Bit, pending: seq<Addr>, toBase: nat, nrPages: nat,
                                  es: seq<Event>, w': World, ms': MarkState, a: Addr)
    requires Sound(w) && Laid(w.heap, base) && NoOverlap(w.heap)
    requires forall x :: x in w.heap ==> w.heap[x].mark != bit
    requires forall x :: x in pending <==> x in w.roots.Values
    requires MarkRun(w, Begin(w, bit, pending, toBase, nrPages), base, es, w', ms') && Finished(ms')
    requires a in w'.heap
    ensures Reachable(w'.heap, w'.roots.Values, a)
        ==> exists i :: 0 <= i < |ms'.records| && base + ms'.records[i].src == a
    ensures (exists i :: 0 <= i < |ms'.records| && base + ms'.records[i].src == a)
        ==> a in Live(w.heap, w.roots.Values)
    ensures Disjoint(Src, ms'.records) && Disjoint(Dest, ms'.records)
  {
    var ms := Begin(w, bit, pending, toBase, nrPages);
    BeginInv(w, base, bit, pending, toBase, nrPages);
    MarkRunInv(w, ms, base, es, w', ms');
    FinishedComplete(w', base, ms');
    var m := Marked(w'.heap, bit);
    RegisteredDisjoint(w'.heap, base, m, ms'.order, ms'.placed, ms'.records);
    hide Place, PlacedInOrder, MarkRun, Tricolor;
    if a in m {
      var i :| 0 <= i < |ms'.order| && ms'.order[i] == a;
      assert base + ms'.records[i].src == a;
    }
    forall i | 0 <= i < |ms'.records| && base + ms'.records[i].src == a ensures a in m {
      assert ms'.order[i] == a;
    }
  }

  // ----- The order of visits when the program is idle -----

  // The stack, with the fields still to be read of the object being scanned on top.
  function Ahead(h: Heap, ms: MarkState): seq<Addr> {
    if ms.scan.Some? && ms.scan.value.obj in h && ms.scan.value.next <= |h[ms.scan.value.obj].fields|
    then ms.stack + Targets(h[ms.scan.value.obj].fields[ms.scan.value.next..])
    else ms.stack
  }

  // What is still to be visited, in order.
  ghost function Rest(h: Heap, marked: set<Addr>, ahead: seq<Addr>, pending: seq<Addr>): seq<Addr> {
    var first := VisitOrder(h, marked, ahead);
    first + RootsOrder(h, marked + (set a | a in first), pending)
  }

  lemma RestRoot(h: Heap, marked: set<Addr>, pending: seq<Addr>)
    requires pending != []
    ensures Rest(h, marked, [], pending) == Rest(h, marked, [pending[0]], pending[1..])
  {
    var first := VisitOrder(h, marked, []);
    assert first == [] && marked + (set a | a in first) == marked;
    hide VisitOrder;
  }

  lemma RestPop(h: Heap, marked: set<Addr>, stack: seq<Addr>, a: Addr, pending: seq<Addr>)
    ensures Rest(h, marked, stack + [a], pending)
         == if a in marked || a !in h then Rest(h, marked, stack, pending)
            else [a] + Rest(h, marked + {a}, stack + Targets(h[a].fields), pending)
  {
    hide VisitOrder, RootsOrder, Targets;
    OrderStep(h, marked, stack, a);
    if a !in marked && a in h {
      MarkedMore(marked, a, VisitOrder(h, marked + {a}, stack + Targets(h[a].fields)));
    }
  }

  lemma MarkedMore(marked: set<Addr>, a: Addr, more: seq<Addr>)
    ensures marked + (set b | b in [a] + more) == marked + {a} + set b | b in more
    ensures forall rest: seq<Addr> :: [a] + more + rest == [a] + (more + rest)
  {
    assert forall b :: b in [a] + more <==> b == a || b in more;
  }

  lemma TargetsFrom(fields: seq<Option<Addr>>, i: nat)
    requires i < |fields|
    ensures Targets(fields[i..])
         == (if fields[i].Some? then [fields[i].value] else []) + Targets(fields[i + 1..])
  {
    assert fields[i..][0] == fields[i] && fields[i..][1..] == fields[i + 1..];
  }

  lemma NoTargets(fields: seq<Option<Addr>>)
    ensures Targets(fields[|fields|..]) == []
  {
  }

  lemma AheadRead(h: Heap, ms: MarkState, base: nat)
    requires Enabled(h, ms, ReadField) && Laid(h, base)
    ensures Ahead(h, MarkNext(h, base, ms, ReadField)) == Ahead(h, ms)
  {
    hide Laid, Targets;
    var Scan(a, i) := ms.scan.value;
    if i < |h[a].fields| {
      TargetsFrom(h[a].fields, i);
    } else {
      NoTargets(h[a].fields);
    }
  }

  lemma AheadPop(h: Heap, ms: MarkState, base: nat)
    requires Enabled(h, ms, Pop) && Laid(h, base) && h[Top(ms)].mark != ms.bit
    ensures var h', ms', a := MarkHeap(h, ms, Pop), MarkNext(h, base, ms, Pop), Top(ms);
      && Ahead(h', ms') == ms.stack[..|ms.stack| - 1] + Targets(h[a].fields)
      && ms'.order == ms.order + [a] && ms'.pending == ms.pending
      && Marked(h', ms.bit) == Marked(h, ms.bit) + {a}
  {
    hide Laid, AllocIn, Extend, Good, Targets;
    assert h[Top(ms)].fields[0..] == h[Top(ms)].fields;
    assert MarkHeap(h, ms, Pop)[Top(ms)].fields == h[Top(ms)].fields;
    assert Marked(MarkHeap(h, ms, Pop), ms.bit) == Marked(h, ms.bit) + {Top(ms)};
  }

  lemma AheadSame(h: Heap, h': Heap, ms: MarkState)
    requires SameButMarks(h', h)
    ensures Ahead(h', ms) == Ahead(h, ms)
  {
  }

  // A marker step visits what comes next, or nothing, and changes nothing about what is to come.
  lemma StepOrder(h0: Heap, h: Heap, ms: MarkState, base: nat, step: MarkStep)
    requires Enabled(h, ms, step) && Laid(h, base) && SameButMarks(h, h0)
    ensures var h', ms' := MarkHeap(h, ms, step), MarkNext(h, base, ms, step);
      && SameButMarks(h', h0)
      && ms'.order + Rest(h0, Marked(h', ms.bit), Ahead(h', ms'), ms'.pending)
      == ms.order + Rest(h0, Marked(h, ms.bit), Ahead(h, ms), ms.pending)
  {
    hide Laid, AllocIn, Extend, Good, Rest, Targets, VisitOrder, RootsOrder;
    match step {
      case NextRoot => RestRoot(h0, Marked(h, ms.bit), ms.pending);
      case ReadField => AheadRead(h, ms, base);
      case Pop =>
        var a, rest, marked := Top(ms), ms.stack[..|ms.stack| - 1], Marked(h, ms.bit);
        assert ms.stack == rest + [a];
        RestPop(h0, marked, rest, a, ms.pending);
        if a !in marked {
          AheadPop(h, ms, base);
          var more := Rest(h0, marked + {a}, rest + Targets(h0[a].fields), ms.pending);
          assert ms.order + [a] + more == ms.order + ([a] + more);
        } else {
          assert MarkHeap(h, ms, Pop) == h;
        }
    }
  }

  ghost predicate Alone(es: seq<Event>) {
    forall i :: 0 <= i < |es| ==> es[i].Marker?
  }

  lemma {:induction false} AloneOrder(h0: Heap, w: World, ms: MarkState, base: nat, es: seq<Event>, w': World,
                                      ms': MarkState)
    requires MarkRun(w, ms, base, es, w', ms') && Alone(es) && SameButMarks(w.heap, h0)
    ensures SameButMarks(w'.heap, h0) && ms'.bit == ms.bit
    ensures ms'.order + Rest(h0, Marked(w'.heap, ms.bit), Ahead(w'.heap, ms'), ms'.pending)
         == ms.order + Rest(h0, Marked(w.heap, ms.bit), Ahead(w.heap, ms), ms.pending)
    decreases |es|
  {
    hide Rest, Ahead, Marked, Enabled, MarkHeap, MarkNext, SameButMarks, Laid;
    if es != [] {
      assert forall i :: 0 <= i < |es[1..]| ==> es[1..][i] == es[i + 1];
      var w1, ms1 :| Next(w, ms, base, es[0], w1, ms1) && MarkRun(w1, ms1, base, es[1..], w', ms');
      assert es[0].Marker?;
      StepOrder(h0, w.heap, ms, base, es[0].step);
      StepBit(w.heap, ms, base, es[0].step);
      AloneOrder(h0, w1, ms1, base, es[1..], w', ms');
    }
  }

  lemma StepBit(h: Heap, ms: MarkState, base: nat, step: MarkStep)
    requires Enabled(h, ms, step) && Laid(h, base)
    ensures MarkNext(h, base, ms, step).bit == ms.bit
  {
    hide Laid, AllocIn, Extend, Good;
  }

  // With the program idle the marker that reads one field at a time visits, and so places, the
  // objects in the order of the marker that scans each object at once.
  lemma AloneVisitsInOrder(w: World, base: nat, bit: Bit, pending: seq<Addr>, toBase: nat, nrPages: nat,
                           es: seq<Event>, w': World, ms': MarkState)
    requires forall x :: x in w.heap ==> w.heap[x].mark != bit
    requires MarkRun(w, Begin(w, bit, pending, toBase, nrPages), base, es, w', ms') && Alone(es) && Finished(ms')
    ensures ms'.order == RootsOrder(w.heap, {}, pending)
  {
    hide MarkRun, RootsOrder, VisitOrder, Live;
    var ms := Begin(w, bit, pending, toBase, nrPages);
    NoneMarked(w.heap, bit);
    AloneOrder(w.heap, w, ms, base, es, w', ms');
    RestNone(w.heap, {}, pending);
    RestNone(w.heap, Marked(w'.heap, bit), []);
    NoRoots(w.heap, Marked(w'.heap, bit));
    assert ms.order + RootsOrder(w.heap, {}, pending) == RootsOrder(w.heap, {}, pending);
    assert ms'.order + [] == ms'.order;
  }

  lemma RestNone(h: Heap, marked: set<Addr>, pending: seq<Addr>)
    ensures Rest(h, marked, [], pending) == RootsOrder(h, marked, pending)
  {
    OrderNone(h, marked);
    hide VisitOrder, RootsOrder;
    assert marked + (set a | a in VisitOrder(h, marked, [])) == marked;
  }

  // ----- Why there is no load in this window -----

  lemma RunStep(w: World, ms: MarkState, base: nat, e: Event, w1: World, ms1: MarkState, es: seq<Event>,
                w': World, ms': MarkState)
    requires Next(w, ms, base, e, w1, ms1) && MarkRun(w1, ms1, base, es, w', ms')
    ensures MarkRun(w, ms, base, [e] + es, w', ms')
  {
    hide Next;
    assert ([e] + es)[1..] == es;
  }

  // Marking one root whose only field is null: four steps, one record.
  lemma MarkLoneRoot(w: World, ms: MarkState, base: nat, a: Addr) returns (es: seq<Event>, w': World, ms': MarkState)
    requires Laid(w.heap, base) && a in w.heap && w.heap[a].fields == [None] && w.heap[a].mark != ms.bit
    requires ms.pending == [a] && ms.stack == [] && ms.scan.None? && ms.records == []
    requires Good(ms.placed) && Extend(ms.placed, w.heap[a].size).Some?
    ensures MarkRun(w, ms, base, es, w', ms') && Finished(ms')
    ensures w'.roots == w.roots && w'.heap.Keys == w.heap.Keys
    ensures |ms'.records| == 1 && base + ms'.records[0].src == a
  {
    hide Good, Extend, AllocIn;
    var ms1 := MarkNext(w.heap, base, ms, NextRoot);
    var w2 := w.(heap := MarkHeap(w.heap, ms1, Pop));
    var ms2 := MarkNext(w.heap, base, ms1, Pop);
    var ms3 := MarkNext(w2.heap, base, ms2, ReadField);
    var ms4 := MarkNext(w2.heap, base, ms3, ReadField);
    w', ms' := w2, ms4;
    NoSteps(w2, ms4, base);
    RunStep(w2, ms3, base, Marker(ReadField), w2, ms4, [], w', ms');
    RunStep(w2, ms2, base, Marker(ReadField), w2, ms3, [Marker(ReadField)] + [], w', ms');
    es := [Marker(ReadField)] + ([Marker(ReadField)] + []);
    RunStep(w, ms1, base, Marker(Pop), w2, ms2, es, w', ms');
    RunStep(w, ms, base, Marker(NextRoot), w, ms1, [Marker(Pop)] + es, w', ms');
    es := [Marker(NextRoot)] + ([Marker(Pop)] + es);
  }

  lemma NoSteps(w: World, ms: MarkState, base: nat)
    ensures MarkRun(w, ms, base, [], w, ms)
  {
  }

  // If the program could take a handle to what a field points to and then clear the field, before
  // the marker has read it, marking would finish with a reachable object that has no record: for
  // every snapshot with one root whose one field holds the only pointer to another object.
  lemma LoadLosesObject(w: World, base: nat, bit: Bit, toBase: nat, nrPages: nat, h: nat, g: nat)
    returns (es: seq<Event>, w': World, ms': MarkState)
    requires Sound(w) && Laid(w.heap, base) && NoOverlap(w.heap)
    requires w.roots.Keys == {h} && g != h
    requires |w.heap[w.roots[h]].fields| == 1 && w.heap[w.roots[h]].fields[0].Some?
    requires w.heap[w.roots[h]].fields[0] != Some(w.roots[h]) && w.heap[w.roots[h]].mark != bit
    requires Good(Placed(Cleared(toBase, nrPages), None, []))
    requires Extend(Placed(Cleared(toBase, nrPages), None, []), w.heap[w.roots[h]].size).Some?
    ensures var b, load, store := w.heap[w.roots[h]].fields[0].value, Load(g, h, 0), Store(h, [], 0, None);
      && Allowed(w, load) && Allowed(Do(w, load, bit), store)
      && MarkRun(Do(Do(w, load, bit), store, bit), Begin(w, bit, [w.roots[h]], toBase, nrPages), base, es, w', ms')
      && Finished(ms') && b in w'.heap && Reachable(w'.heap, w'.roots.Values, b)
      && (forall i :: 0 <= i < |ms'.records| ==> base + ms'.records[i].src != b)
  {
    hide Good, Extend, NoOverlap, Live, Reachable, Do, Allowed, WellFormed;
    LoadThenClear(w, base, h, g, bit);
    var a, w2 := w.roots[h], Do(Do(w, Load(g, h, 0), bit), Store(h, [], 0, None), bit);
    es, w', ms' := MarkLoneRoot(w2, Begin(w, bit, [a], toBase, nrPages), base, a);
    assert w'.roots[g] in w'.roots.Values;
    RootsReachable(w'.heap, w'.roots.Values, w'.roots[g]);
  }

  lemma LoadThenClear(w: World, base: nat, h: nat, g: nat, bit: Bit)
    requires Sound(w) && Laid(w.heap, base) && w.roots.Keys == {h} && g != h
    requires |w.heap[w.roots[h]].fields| == 1 && w.heap[w.roots[h]].fields[0].Some?
    ensures w.roots[h] in w.heap && w.heap[w.roots[h]].fields[0].value in w.heap
    ensures var a, load, store := w.roots[h], Load(g, h, 0), Store(h, [], 0, None);
      && Allowed(w, load) && Allowed(Do(w, load, bit), store)
      && var w2 := Do(Do(w, load, bit), store, bit);
         && w2.heap == w.heap[a := w.heap[a].(fields := [None])] && Laid(w2.heap, base)
         && w2.roots == w.roots[g := w.heap[a].fields[0].value]
  {
    var a := w.roots[h];
    assert a in w.roots.Values && Points(w.heap[a], w.heap[a].fields[0].value);
    assert w.heap[a].fields[0 := None] == [None];
  }
}
