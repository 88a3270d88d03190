// The root table of a thread: slots that the collector sees, and handles that own one slot each.
// A handle holds its pointer itself until it is stored into its slot.
module Roots {
  import opened Prelude
  import opened Graph

  // A handle: its slot, and its pointer while loaded.
  datatype Ref = Ref(idx: nat, ptr: Option<Addr>)

  // `refs` are the live handles, named by H.
  datatype Table<H> = Table(slots: seq<Option<Addr>>, used: seq<bool>, stored: int, exist: int, refs: map<H, Ref>)

  datatype Op<H> = Add(h: H, p: Addr) | Store(h: H) | Load(h: H) | Drop(h: H) | Map(f: map<Addr, Addr>)

  ghost function Stored<H>(t: Table<H>): set<H> {
    set h | h in t.refs && t.refs[h].ptr.None?
  }

  ghost predicate Owned<H>(refs: map<H, Ref>, i: nat) {
    exists h :: h in refs && refs[h].idx == i
  }

  // Live handles own distinct slots, and a slot holds a pointer exactly when its handle does not.
  ghost predicate SlotsOk<H>(t: Table<H>) {
    && |t.used| == |t.slots|
    && (forall h :: h in t.refs ==> t.refs[h].idx < |t.slots|)
    && (forall h :: h in t.refs ==> (t.refs[h].ptr.Some? <==> t.slots[t.refs[h].idx].None?))
    && (forall h, k :: h in t.refs && k in t.refs && t.refs[h].idx == t.refs[k].idx ==> h == k)
    && (forall i: nat :: i < |t.used| && !t.used[i] ==> t.slots[i].None?)
  }

  // The slots in use are those owned.
  ghost predicate UsedOk<H>(t: Table<H>) {
    forall i: nat :: i < |t.used| ==> (t.used[i] <==> Owned(t.refs, i))
  }

  ghost predicate Inv<H>(t: Table<H>) {
    SlotsOk(t) && UsedOk(t) && t.exist == |t.refs.Keys| && t.stored == |Stored(t)|
  }

  // The first slot not in use.
  function FirstZero(used: seq<bool>): (r: nat)
    ensures r <= |used| && (r < |used| ==> !used[r]) && forall i :: 0 <= i < r ==> used[i]
  {
    if used == [] || !used[0] then 0 else 1 + FirstZero(used[1..])
  }

  // What the handle points to, wherever the pointer is kept.
  ghost function Denotes<H>(t: Table<H>, h: H): Addr
    requires Inv(t) && h in t.refs
  {
    if t.refs[h].ptr.Some? then t.refs[h].ptr.value else t.slots[t.refs[h].idx].value
  }

  // The pointers the collector sees.
  ghost predicate Seen<H>(t: Table<H>, p: Addr) { Some(p) in t.slots }

  ghost predicate Allowed<H>(t: Table<H>, op: Op<H>) {
    match op
    case Add(h, _) => h !in t.refs
    case Store(h) => h in t.refs && t.refs[h].ptr.Some?
    case Load(h) => h in t.refs && t.refs[h].ptr.None?
    case Drop(h) => h in t.refs
    case Map(f) => forall p :: Seen(t, p) ==> p in f
  }

  function MapSlot(f: map<Addr, Addr>, p: Option<Addr>): Option<Addr> {
    if p.Some? && p.value in f then Some(f[p.value]) else p
  }

  ghost function Step<H>(t: Table<H>, op: Op<H>): Table<H>
    requires Inv(t) && Allowed(t, op)
  {
    match op
    case Add(h, p) =>
      var i := FirstZero(t.used);
      if i < |t.used| then
        t.(used := t.used[i := true], exist := t.exist + 1, refs := t.refs[h := Ref(i, Some(p))])
      else
        t.(slots := t.slots + [None], used := t.used + [true], exist := t.exist + 1,
           refs := t.refs[h := Ref(i, Some(p))])
    case Store(h) =>
      var r := t.refs[h];
      t.(slots := t.slots[r.idx := r.ptr], stored := t.stored + 1, refs := t.refs[h := r.(ptr := None)])
    case Load(h) =>
      var r := t.refs[h];
      t.(slots := t.slots[r.idx := None], stored := t.stored - 1, refs := t.refs[h := r.(ptr := t.slots[r.idx])])
    case Drop(h) =>
      var r := t.refs[h];
      Table(t.slots[r.idx := None], t.used[r.idx := false],
            if r.ptr.None? then t.stored - 1 else t.stored, t.exist - 1, t.refs - {h})
    case Map(f) => t.(slots := seq(|t.slots|, i requires 0 <= i < |t.slots| => MapSlot(f, t.slots[i])))
  }

  function Start<H>(): Table<H> { Table([], [], 0, 0, map[]) }

  // ----- The invariant is kept -----

  lemma AddInv<H>(t: Table<H>, h: H, p: Addr)
    requires Inv(t) && h !in t.refs
    ensures Inv(Step(t, Add(h, p)))
  {
    hide SlotsOk, Owned, Stored, FirstZero;
    var u := Step(t, Add(h, p));
    var i := FirstZero(t.used);
    AddCounts(t, h, p);
    AddSlots(t, h, p);
    OwnerAdded(t.refs, h, Ref(i, Some(p)), u.refs);
    SlotsLength(t);
  }

  lemma SlotsLength<H>(t: Table<H>)
    requires SlotsOk(t)
    ensures |t.used| == |t.slots|
  {
  }

  lemma InvLength<H>(t: Table<H>)
    requires Inv(t)
    ensures |t.used| == |t.slots|
  {
  }

  lemma AddCounts<H>(t: Table<H>, h: H, p: Addr)
    requires Inv(t) && h !in t.refs
    ensures var u := Step(t, Add(h, p));
      u.refs == t.refs[h := Ref(FirstZero(t.used), Some(p))] && u.exist == |u.refs.Keys| && u.stored == |Stored(u)|
  {
    hide SlotsOk, Owned, UsedOk, FirstZero;
    var u := Step(t, Add(h, p));
    assert u.refs.Keys == t.refs.Keys + {h};
    assert Stored(u) == Stored(t);
  }

  lemma AddSlots<H>(t: Table<H>, h: H, p: Addr)
    requires Inv(t) && h !in t.refs
    ensures SlotsOk(Step(t, Add(h, p)))
  {
    hide UsedOk, Stored, Owned;
    FreeSlot(t);
  }

  // The slot found is nobody's.
  lemma FreeSlot<H>(t: Table<H>)
    requires Inv(t)
    ensures forall k :: k in t.refs ==> t.refs[k].idx != FirstZero(t.used)
  {
    forall k | k in t.refs ensures t.refs[k].idx != FirstZero(t.used) {
      assert Owned(t.refs, t.refs[k].idx);
    }
  }

  lemma OwnerAdded<H>(refs: map<H, Ref>, h: H, r: Ref, more: map<H, Ref>)
    requires h !in refs && more == refs[h := r]
    ensures forall j: nat :: Owned(more, j) <==> Owned(refs, j) || j == r.idx
  {
    forall j: nat ensures Owned(more, j) <==> Owned(refs, j) || j == r.idx {
      if j == r.idx { assert more[h].idx == j; }
      if Owned(refs, j) { var k :| k in refs && refs[k].idx == j; assert more[k].idx == j; }
    }
  }

  lemma MoveInv<H>(t: Table<H>, op: Op<H>)
    requires Inv(t) && Allowed(t, op) && (op.Store? || op.Load?)
    ensures Inv(Step(t, op))
  {
    hide SlotsOk, Owned, Stored;
    var u := Step(t, op);
    MoveCounts(t, op);
    SameOwners(t, u);
    MoveSlots(t, op);
  }

  lemma MoveCounts<H>(t: Table<H>, op: Op<H>)
    requires Inv(t) && Allowed(t, op) && (op.Store? || op.Load?)
    ensures var u := Step(t, op); u.exist == |u.refs.Keys| && u.stored == |Stored(u)|
    ensures Step(t, op).refs.Keys == t.refs.Keys
    ensures forall k :: k in t.refs ==> Step(t, op).refs[k].idx == t.refs[k].idx
  {
    hide Owned, UsedOk, SlotsOk;
    SlotOfStored(t, op.h);
    var u, h := Step(t, op), op.h;
    assert u.refs.Keys == t.refs.Keys;
    if op.Store? { assert Stored(u) == Stored(t) + {h}; } else { assert Stored(t) == Stored(u) + {h}; }
  }

  lemma SlotOfStored<H>(t: Table<H>, h: H)
    requires Inv(t) && h in t.refs
    ensures t.refs[h].idx < |t.slots| && (t.refs[h].ptr.Some? <==> t.slots[t.refs[h].idx].None?)
  {
  }

  lemma MoveSlots<H>(t: Table<H>, op: Op<H>)
    requires Inv(t) && Allowed(t, op) && (op.Store? || op.Load?)
    ensures SlotsOk(Step(t, op))
  {
    hide Stored, Owned;
    InUse(t, op.h);
    MoveCounts(t, op);
  }

  lemma InUse<H>(t: Table<H>, h: H)
    requires Inv(t) && h in t.refs
    ensures t.used[t.refs[h].idx]
  {
    assert Owned(t.refs, t.refs[h].idx);
  }

  // Whoever keeps its slot, the slots in use are the same.
  lemma SameOwners<H>(t: Table<H>, u: Table<H>)
    requires u.refs.Keys == t.refs.Keys && forall k :: k in t.refs ==> u.refs[k].idx == t.refs[k].idx
    ensures forall i: nat :: Owned(u.refs, i) <==> Owned(t.refs, i)
  {
    forall i: nat ensures Owned(u.refs, i) <==> Owned(t.refs, i) {
      if Owned(t.refs, i) { var k :| k in t.refs && t.refs[k].idx == i; assert u.refs[k].idx == i; }
    }
  }

  lemma DropInv<H>(t: Table<H>, h: H)
    requires Inv(t) && h in t.refs
    ensures Inv(Step(t, Drop(h)))
  {
    hide SlotsOk, Owned, Stored;
    var u := Step(t, Drop(h));
    DropCounts(t, h);
    DropSlots(t, h);
    OwnerDropped(t, h, u.refs);
    SlotOfStored(t, h);
    OwnerAdded(u.refs, h, t.refs[h], t.refs);
    SlotsLength(t);
  }

  lemma DropCounts<H>(t: Table<H>, h: H)
    requires Inv(t) && h in t.refs
    ensures var u := Step(t, Drop(h)); u.exist == |u.refs.Keys| && u.stored == |Stored(u)|
  {
    hide Owned, UsedOk;
    var u := Step(t, Drop(h));
    assert u.refs.Keys == t.refs.Keys - {h};
    assert Stored(u) == Stored(t) - {h};
  }

  lemma DropSlots<H>(t: Table<H>, h: H)
    requires Inv(t) && h in t.refs
    ensures SlotsOk(Step(t, Drop(h)))
  {
    var u := Step(t, Drop(h));
    assert forall k :: k in u.refs ==> k in t.refs && k != h && u.refs[k] == t.refs[k];
    hide Stored, Owned, UsedOk;
  }

  lemma OwnerDropped<H>(t: Table<H>, h: H, less: map<H, Ref>)
    requires SlotsOk(t) && h in t.refs && less == t.refs - {h}
    ensures !Owned(less, t.refs[h].idx)
    ensures t.refs == less[h := t.refs[h]]
  {
    assert t.refs == less[h := t.refs[h]];
  }

  lemma MapInv<H>(t: Table<H>, f: map<Addr, Addr>)
    requires Inv(t) && Allowed(t, Map(f))
    ensures Inv(Step(t, Map(f)))
  {
    var u := Step(t, Map(f));
    assert Stored(u) == Stored(t);
    SameOwners(t, u);
  }

  lemma StepInv<H>(t: Table<H>, op: Op<H>)
    requires Inv(t) && Allowed(t, op)
    ensures Inv(Step(t, op))
  {
    hide Inv, Allowed, Step;
    match op {
      case Add(h, p) => AddFresh(t, h, p); AddInv(t, h, p);
      case Store(h) => MoveInv(t, op);
      case Load(h) => MoveInv(t, op);
      case Drop(h) => DropLive(t, h); DropInv(t, h);
      case Map(f) => MapInv(t, f);
    }
  }

  lemma AddFresh<H>(t: Table<H>, h: H, p: Addr)
    requires Allowed(t, Add(h, p))
    ensures h !in t.refs
  {
  }

  lemma DropLive<H>(t: Table<H>, h: H)
    requires Allowed(t, Drop(h))
    ensures h in t.refs
  {
  }

  // ----- Safepoints -----

  // The test passes exactly when every live handle is stored.
  lemma SafepointExact<H>(t: Table<H>)
    requires Inv(t)
    ensures t.stored == t.exist <==> forall h :: h in t.refs ==> t.refs[h].ptr.None?
    ensures 0 <= t.stored <= t.exist
  {
    assert Stored(t) <= t.refs.Keys;
    SubsetSize(Stored(t), t.refs.Keys);
    if t.stored == t.exist {
      forall h | h in t.refs ensures t.refs[h].ptr.None? {
        assert h in Stored(t);
      }
    }
    if forall h :: h in t.refs ==> t.refs[h].ptr.None? {
      assert Stored(t) == t.refs.Keys;
    }
  }

  lemma SubsetSize<H>(s: set<H>, u: set<H>)
    requires s <= u
    ensures |s| <= |u| && (|s| == |u| ==> s == u)
  {
    assert u == s + (u - s);
  }

  // And then the collector sees exactly what the live handles point to.
  lemma SafepointShowsAll<H>(t: Table<H>, p: Addr)
    requires Inv(t) && t.stored == t.exist
    ensures Seen(t, p) <==> exists h :: h in t.refs && Denotes(t, h) == p
  {
    SafepointExact(t);
    if Seen(t, p) {
      var i: nat :| i < |t.slots| && t.slots[i] == Some(p);
      assert t.used[i] && Owned(t.refs, i);
      var h :| h in t.refs && t.refs[h].idx == i;
      assert Denotes(t, h) == p;
    }
    forall h | h in t.refs && Denotes(t, h) == p ensures Seen(t, p) {
      assert t.slots[t.refs[h].idx] == Some(p);
    }
  }

  // ----- Whole runs -----

  ghost predicate Run<H>(t: Table<H>, ops: seq<Op<H>>, u: Table<H>)
    decreases |ops|
  {
    if ops == [] then u == t
    else Inv(t) && Allowed(t, ops[0]) && Run(Step(t, ops[0]), ops[1..], u)
  }

  predicate Names<H(==)>(op: Op<H>, h: H) { !op.Map? && op.h == h }

  // All the maps of a run, in order.
  function Mapped<H>(ops: seq<Op<H>>, p: Addr): Addr {
    if ops == [] then p
    else if ops[0].Map? && p in ops[0].f then Mapped(ops[1..], ops[0].f[p])
    else Mapped(ops[1..], p)
  }

  // Storing and loading move the pointer and change nothing about what the handle denotes, and a
  // handle just added denotes the pointer it was given.
  lemma OwnDenotes<H>(t: Table<H>, op: Op<H>)
    requires Inv(t) && Allowed(t, op) && (op.Store? || op.Load? || op.Add?)
    ensures var u := Step(t, op);
      && Inv(u) && op.h in u.refs && (u.refs[op.h].ptr.None? <==> op.Store?)
      && Denotes(u, op.h) == if op.Add? then op.p else Denotes(t, op.h)
  {
    StepInv(t, op);
  }

  // An operation moves a stored pointer only by mapping it, and a loaded one not at all.
  lemma StepDenotes<H>(t: Table<H>, op: Op<H>, h: H)
    requires Inv(t) && Allowed(t, op) && h in t.refs && !Names(op, h)
    ensures var u := Step(t, op);
      && Inv(u) && h in u.refs && u.refs[h].ptr.None? == t.refs[h].ptr.None?
      && (t.refs[h].ptr.Some? ==> Denotes(u, h) == Denotes(t, h))
      && (t.refs[h].ptr.None? && op.Map? ==> Denotes(t, h) in op.f && Denotes(u, h) == op.f[Denotes(t, h)])
      && (t.refs[h].ptr.None? && !op.Map? ==> Denotes(u, h) == Denotes(t, h))
  {
    StepInv(t, op);
    if op.Map? && t.refs[h].ptr.None? {
      assert Seen(t, t.slots[t.refs[h].idx].value);
    }
    if op.Add? && FirstZero(t.used) < |t.used| {
      assert !Owned(t.refs, FirstZero(t.used));
    }
  }

  // A load gives the stored pointer under all the maps applied since, whatever else was done
  // with other handles in between.
  lemma {:induction false} LoadAfterMaps<H>(t: Table<H>, ops: seq<Op<H>>, u: Table<H>, h: H)
    requires Inv(t) && h in t.refs && t.refs[h].ptr.None? && Run(t, ops, u)
    requires forall i :: 0 <= i < |ops| ==> !Names(ops[i], h)
    ensures Inv(u) && Allowed(u, Load(h))
    ensures Step(u, Load(h)).refs[h].ptr == Some(Mapped(ops, Denotes(t, h)))
    decreases |ops|
  {
    hide Inv, Allowed, Step, Denotes;
    if ops == [] {
      LoadGives(t, h);
    } else {
      assert forall i :: 0 <= i < |ops[1..]| ==> ops[1..][i] == ops[i + 1];
      StepDenotes(t, ops[0], h);
      LoadAfterMaps(Step(t, ops[0]), ops[1..], u, h);
    }
  }

  // So a pointer comes back from its slot as all the maps since the store have made of it: what was
  // put into the slot is the pointer the handle had.
  lemma StoredLoads<H>(t: Table<H>, ops: seq<Op<H>>, u: Table<H>, h: H)
    requires Inv(t) && h in t.refs && t.refs[h].ptr.Some? && Run(Step(t, Store(h)), ops, u)
    requires forall i :: 0 <= i < |ops| ==> !Names(ops[i], h)
    ensures Inv(u) && Allowed(u, Load(h))
    ensures Step(u, Load(h)).refs[h].ptr == Some(Mapped(ops, t.refs[h].ptr.value))
  {
    hide Run, Step, Mapped, SlotsOk, UsedOk, Stored;
    OwnDenotes(t, Store(h));
    LoadAfterMaps(Step(t, Store(h)), ops, u, h);
  }

  // A slot is added only when all are in use, so the table never has more slots than there have
  // been handles at one time.
  lemma {:induction false} SlotsBounded<H>(t: Table<H>, ops: seq<Op<H>>, u: Table<H>, n: nat)
    requires Inv(t) && Run(t, ops, u) && |t.slots| <= n && Peak(t, ops) <= n
    ensures |u.slots| <= n
    decreases |ops|
  {
    hide Inv, Allowed, Step;
    if ops != [] {
      StepInv(t, ops[0]);
      StepSlots(t, ops[0]);
      SlotsBounded(Step(t, ops[0]), ops[1..], u, n);
    }
  }

  // The most handles alive at one time.
  ghost function Peak<H>(t: Table<H>, ops: seq<Op<H>>): int
    decreases |ops|
  {
    if ops == [] || !Inv(t) || !Allowed(t, ops[0]) then t.exist
    else if t.exist > Peak(Step(t, ops[0]), ops[1..]) then t.exist
    else Peak(Step(t, ops[0]), ops[1..])
  }

  lemma StepSlots<H>(t: Table<H>, op: Op<H>)
    requires Inv(t) && Allowed(t, op)
    ensures |Step(t, op).slots| == |t.slots| || (op.Add? && |Step(t, op).slots| <= Step(t, op).exist)
  {
    if op.Add? && FirstZero(t.used) == |t.used| { AllOwned(t); }
  }

  // Slots all in use are as many as the handles.
  lemma AllOwned<H>(t: Table<H>)
    requires Inv(t) && FirstZero(t.used) == |t.used|
    ensures |t.slots| <= t.exist
  {
    hide FirstZero, Stored;
    forall i: nat | i < |t.slots| ensures Owned(t.refs, i) {
      assert t.used[i];
    }
    hide SlotsOk, UsedOk;
    OwnersCount(t.refs, |t.slots|);
  }

  lemma {:induction false} OwnersCount<H>(refs: map<H, Ref>, n: nat)
    requires forall i: nat :: i < n ==> Owned(refs, i)
    ensures n <= |refs.Keys|
  {
    if n > 0 {
      assert Owned(refs, n - 1);
      var h :| h in refs && refs[h].idx == n - 1;
      var less := refs - {h};
      forall i: nat | i < n - 1 ensures Owned(less, i) {
        assert Owned(refs, i);
        var k :| k in refs && refs[k].idx == i;
        assert k in less && less[k].idx == i;
      }
      OwnersCount(less, n - 1);
      assert less.Keys == refs.Keys - {h};
    }
  }

  lemma LoadGives<H>(t: Table<H>, h: H)
    requires Inv(t) && h in t.refs && t.refs[h].ptr.None?
    ensures Allowed(t, Load(h)) && Step(t, Load(h)).refs[h].ptr == Some(Denotes(t, h))
  {
  }

  // ----- The table and its handles, updated in place -----

  class RootRef {
    const idx: nat
    var ptr: Option<Addr>

    constructor (idx: nat, ptr: Option<Addr>)
      ensures this.idx == idx && this.ptr == ptr
    {
      this.idx, this.ptr := idx, ptr;
    }
  }

  class Inner {
    var slots: seq<Option<Addr>>
    var usedMap: seq<bool>
    var storedCount: int
    var existCount: int
    ghost var handles: set<RootRef>

    constructor ()
      ensures Now() == Start() && Inv(Now()) && handles == {}
    {
      slots, usedMap, storedCount, existCount, handles := [], [], 0, 0, {};
    }

    ghost function Now(): Table<RootRef>
      reads this, handles
    {
      Table(slots, usedMap, storedCount, existCount, map h | h in handles :: Ref(h.idx, h.ptr))
    }

    method FirstFree() returns (i: nat)
      ensures i == FirstZero(usedMap)
    {
      i := 0;
      while i < |usedMap| && usedMap[i]
        invariant i <= |usedMap| && FirstZero(usedMap) == i + FirstZero(usedMap[i..])
      {
        i := i + 1;
      }
    }

    // The assertion that the free slot is empty never fires.
    method AddPtr(ptr: Addr) returns (h: RootRef)
      requires Inv(Now())
      modifies this
      ensures fresh(h) && handles == old(handles) + {h}
      ensures Inv(Now()) && Now() == Step(old(Now()), Add(h, ptr))
      ensures h.ptr == Some(ptr) && h.idx < |slots| && slots[h.idx] == None && usedMap[h.idx]
    {
      hide SlotsOk, UsedOk, Owned, Stored, Inv, FirstZero;
      ghost var t := Now();
      InvLength(t);
      var freeIndex := FirstFree();
      h := new RootRef(freeIndex, Some(ptr));
      AddInv(t, h, ptr);
      if freeIndex == |usedMap| {
        slots, usedMap := slots + [None], usedMap + [true];
      } else {
        UnusedIsEmpty(t, freeIndex);
        assert slots[freeIndex].None?;
        slots := slots[freeIndex := None];
        assert slots == t.slots;
        usedMap := usedMap[freeIndex := true];
      }
      existCount := existCount + 1;
      handles := handles + {h};
      assert Now().refs == t.refs[h := Ref(freeIndex, Some(ptr))];
      assert Now() == Step(t, Add(h, ptr));
    }

    // Storing a handle that is stored already is refused and changes nothing.
    method Store(h: RootRef) returns (ok: bool)
      requires Inv(Now()) && h in handles
      modifies this, h
      ensures handles == old(handles) && Inv(Now())
      ensures ok <==> old(h.ptr.Some?)
      ensures Now() == if ok then Step(old(Now()), Op.Store(h)) else old(Now())
      ensures ok ==> h.idx < |slots| && slots[h.idx] == old(h.ptr) && h.ptr == None
    {
      hide SlotsOk, UsedOk, Owned, Stored, Inv;
      ghost var t := Now();
      var ptr := h.ptr;
      if ptr.None? {
        return false;
      }
      SlotOfStored(t, h);
      MoveInv(t, Op.Store(h));
      h.ptr := None;
      storedCount := storedCount + 1;
      assert slots[h.idx].None?;
      slots := slots[h.idx := ptr];
      ok := true;
      assert Now().refs == t.refs[h := Ref(h.idx, None)];
    }

    // Loading a handle that is loaded already fails after the count of stored handles has been
    // lowered, so right after it the count is below the number of handles whatever is stored.
    method Load(h: RootRef) returns (ok: bool)
      requires Inv(Now()) && h in handles
      modifies this, h
      ensures handles == old(handles)
      ensures ok <==> old(h.ptr.None?)
      ensures ok ==> Inv(Now()) && Now() == Step(old(Now()), Op.Load(h))
      ensures ok ==> h.idx < |old(slots)| == |slots| && h.ptr == old(slots)[h.idx] && slots[h.idx] == None
      ensures !ok ==> Now() == old(Now()).(stored := old(storedCount) - 1) && storedCount < existCount
    {
      hide SlotsOk, UsedOk, Owned, Stored, Inv;
      ghost var t := Now();
      SafepointExact(t);
      SlotOfStored(t, h);
      storedCount := storedCount - 1;
      if slots[h.idx].None? {
        return false;
      }
      MoveInv(t, Op.Load(h));
      h.ptr := slots[h.idx];
      slots := slots[h.idx := None];
      ok := true;
      assert Now().refs == t.refs[h := Ref(h.idx, h.ptr)];
    }

    method Drop(h: RootRef)
      requires Inv(Now()) && h in handles
      modifies this
      ensures handles == old(handles) - {h}
      ensures Inv(Now()) && Now() == Step(old(Now()), Op.Drop(h))
    {
      hide SlotsOk, UsedOk, Owned, Stored, Inv;
      ghost var t := Now();
      SlotOfStored(t, h);
      InvLength(t);
      DropInv(t, h);
      existCount := existCount - 1;
      if h.ptr.None? {
        storedCount := storedCount - 1;
      }
      slots := slots[h.idx := None];
      usedMap := usedMap[h.idx := false];
      handles := handles - {h};
      assert Now().refs == t.refs - {h};
    }

    // Every stored pointer through the visitor. `ok` is false when one has no image.
    method MapPointers(f: map<Addr, Addr>) returns (ok: bool)
      requires Inv(Now())
      modifies this`slots
      ensures ok <==> Allowed(old(Now()), Op.Map(f))
      ensures ok ==> Inv(Now()) && Now() == Step(old(Now()), Op.Map(f))
    {
      ghost var t := Now();
      hide Inv;
      for i := 0 to |slots|
        invariant |slots| == |t.slots|
        invariant forall k :: 0 <= k < i ==> slots[k] == MapSlot(f, t.slots[k])
        invariant forall k :: 0 <= k < i && t.slots[k].Some? ==> t.slots[k].value in f
        invariant forall k :: i <= k < |slots| ==> slots[k] == t.slots[k]
      {
        if slots[i].Some? {
          if slots[i].value !in f {
            assert Seen(t, t.slots[i].value);
            return false;
          }
          slots := slots[i := Some(f[slots[i].value])];
        }
      }
      ok := true;
      forall p | Seen(t, p) ensures p in f {
        var i :| 0 <= i < |t.slots| && t.slots[i] == Some(p);
      }
      MapInv(t, f);
      assert slots == Step(t, Op.Map(f)).slots;
      assert Now() == Step(t, Op.Map(f));
    }

    // The test before a safepoint.
    method CanStop() returns (ok: bool)
      requires Inv(Now())
      ensures ok <==> forall h :: h in handles ==> h.ptr.None?
      ensures ok ==> forall p :: Some(p) in slots <==> exists h :: h in handles && Denotes(Now(), h) == p
    {
      SafepointExact(Now());
      ok := storedCount == existCount;
      if ok {
        forall p ensures Some(p) in slots <==> exists h :: h in handles && Denotes(Now(), h) == p {
          SafepointShowsAll(Now(), p);
        }
      }
      assert forall h :: h in handles ==> Now().refs[h].ptr == h.ptr;
    }
  }

  lemma UnusedIsEmpty<H>(t: Table<H>, i: nat)
    requires Inv(t) && i < |t.used| && !t.used[i]
    ensures |t.used| == |t.slots| && t.slots[i].None?
  {
  }
}
