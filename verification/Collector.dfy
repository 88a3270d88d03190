// The whole collector: cycles of marking and relocation between two spaces, any number of
// them, with the program and its allocations running in between and during relocation.
module Collector {
  import opened Prelude
  import opened Pages
  import opened Placement
  import opened Graph
  import opened Mutator
  import opened Marking
  import opened Copier
  import PageRuns
  import ConcurrentMark
  import CopyMachine

  // Marking is steps 1 to 3, Copying is step 4 up to the last fill, and in Clearing the old
  // space is taken out of use until step 5 queues it.
  datatype Phase =
    | Idle
    | Marking(ms: ConcurrentMark.MarkState)
    | Copying(plan: Plan, work: CopyMachine.Work)
    | Clearing(second: Addr)

  // `a` and `b` are the bases of the two spaces, `space` the one in use, `spare` the queue of
  // cleared ones. `world` is what the program sees, `alloc` the allocator of the space in use.
  datatype Machine = Machine(
    a: Addr,
    b: Addr,
    nrPages: nat,
    space: Addr,
    spare: seq<Addr>,
    markTrue: Bit,
    world: World,
    alloc: PageRuns.System,
    phase: Phase)

  function Other(m: Machine): Addr {
    if m.space == m.a then m.b else m.a
  }

  ghost predicate InRange(m: Machine, base: Addr, d: Addr) {
    base <= d < base + m.nrPages * BASE_PAGE_SIZE
  }

  function CopyOf(m: Machine): CopyMachine.CopyState
    requires m.phase.Copying?
  {
    CopyMachine.CopyState(m.phase.plan, m.phase.work, m.world)
  }

  // The program's world: what is in place and what is still to come.
  ghost function Whole(m: Machine): World
    requires m.phase.Copying? ==> Ready(m.phase.plan)
  {
    if m.phase.Copying? then CopyMachine.Virtual(CopyOf(m)) else m.world
  }

  // The same if relocation loses nothing.
  ghost function Full(m: Machine): World
    requires m.phase.Copying? ==> Ready(m.phase.plan)
  {
    if m.phase.Copying? then CopyMachine.Full(CopyOf(m)) else m.world
  }

  // ----- The invariant -----

  // Two disjoint spaces with alternating roles, and a spare exactly when no cycle has it.
  ghost predicate SpacesOk(m: Machine) {
    && (m.a + m.nrPages * BASE_PAGE_SIZE <= m.b || m.b + m.nrPages * BASE_PAGE_SIZE <= m.a)
    && m.a != m.b && (m.space == m.a || m.space == m.b)
    && m.spare == (if m.phase.Idle? then [Other(m)] else [])
    && (match m.phase
        case Idle => true
        case Marking(ms) => ms.placed.table.base == Other(m) && ms.placed.table.nrPages == m.nrPages
        case Copying(plan, _) =>
          plan.base == Other(m) && plan.m.table.base == m.space && plan.m.table.nrPages == m.nrPages
        case Clearing(second) => second == Other(m))
  }

  // Each object has memory of its own, granted by the allocator of the space.
  ghost predicate Owns(s: PageRuns.System, a: Addr, size: nat) {
    exists i :: 0 <= i < |s.grants| && s.grants[i].addr == a && s.grants[i].size == size
  }

  ghost predicate Granted(s: PageRuns.System, h: Heap) {
    forall a :: a in h ==> h[a].size > 0 && h[a].size % 8 == 0 && Owns(s, a, h[a].size)
  }

  ghost predicate AllocOk(m: Machine, h: Heap) {
    && PageRuns.Safe(m.alloc) && Granted(m.alloc, h)
    && m.alloc.table.base == m.space && m.alloc.table.nrPages == m.nrPages
  }

  // Outside marking every object carries the bit that is not the mark of the next cycle.
  ghost predicate Polarity(m: Machine, h: Heap) {
    if m.phase.Marking? then m.phase.ms.bit == m.markTrue.Not()
    else forall a :: a in h ==> h[a].mark == m.markTrue.Not()
  }

  ghost predicate PhaseOk(m: Machine) {
    match m.phase
    case Marking(ms) => ConcurrentMark.MarkInv(m.world, m.space, ms) && m.alloc.locals == map[]
    case Copying(_, _) => CopyMachine.WorkInv(CopyOf(m))
    case _ => Sound(m.world)
  }

  // In whatever order the destinations of the current relocation came out.
  ghost predicate Inv(m: Machine) {
    && SpacesOk(m) && PhaseOk(m)
    && (m.phase.Copying? ==> Ready(m.phase.plan))
    && AllocOk(m, Full(m).heap) && Polarity(m, Full(m).heap)
  }

  // A step that leaves the program's world as it was.
  ghost predicate Keeps(m: Machine, m': Machine) {
    Inv(m) && Inv(m') && Full(m') == Full(m)
  }

  // They came out in increasing order.
  ghost predicate OrderOk(m: Machine) {
    m.phase.Copying? ==> Increasing(m.phase.plan.m.grants)
  }

  // And then relocation loses nothing.
  lemma WholeIsFull(m: Machine)
    requires Inv(m) && OrderOk(m)
    ensures (m.phase.Copying? ==> Ready(m.phase.plan)) && Whole(m) == Full(m)
  {
    hide AllocOk, Polarity, SpacesOk, Ready, Increasing, CopyMachine.WorkInv, CopyMachine.Virtual, CopyMachine.Full,
      Sound;
    if m.phase.Copying? { CopyMachine.VirtualIsFull(CopyOf(m)); }
  }

  // Memory that is owned is apart, inside the space and above its base.
  lemma GrantedLaid(s: PageRuns.System, h: Heap)
    requires PageRuns.Safe(s) && Granted(s, h)
    ensures Laid(h, s.table.base) && NoOverlap(h)
    ensures forall d :: d in h ==> d < s.table.base + s.table.nrPages * BASE_PAGE_SIZE
  {
    hide PageRuns.Safe;
    forall d | d in h ensures s.table.base <= d < s.table.base + s.table.nrPages * BASE_PAGE_SIZE {
      var i :| 0 <= i < |s.grants| && s.grants[i].addr == d && s.grants[i].size == h[d].size;
      GrantInSpace(s, i);
    }
    forall d, e | d in h && e in h && d < e ensures d + h[d].size <= e {
      var i :| 0 <= i < |s.grants| && s.grants[i].addr == d && s.grants[i].size == h[d].size;
      var j :| 0 <= j < |s.grants| && s.grants[j].addr == e && s.grants[j].size == h[e].size;
      GrantsApart(s, i, j);
    }
  }

  lemma GrantInSpace(s: PageRuns.System, i: nat)
    requires PageRuns.Safe(s) && i < |s.grants| && s.grants[i].size > 0
    ensures s.table.base <= s.grants[i].addr
    ensures s.grants[i].End() <= s.table.base + s.table.nrPages * BASE_PAGE_SIZE
  {
    var g := s.grants[i];
    assert PageRuns.Inside(s.table, g) && PageOk(s.table, g.page);
  }

  lemma GrantsApart(s: PageRuns.System, i: nat, j: nat)
    requires PageRuns.Safe(s) && i < |s.grants| && j < |s.grants| && s.grants[i].addr < s.grants[j].addr
    requires s.grants[i].size > 0 && s.grants[j].size > 0
    ensures s.grants[i].addr + s.grants[i].size <= s.grants[j].addr
  {
    if i < j { assert s.grants[i].Apart(s.grants[j]); }
    if j < i { assert s.grants[j].Apart(s.grants[i]); }
  }

  // A new grant is not the address of any object, in place or still to be moved in.
  lemma NewIsFresh(s: PageRuns.System, h: Heap, ctx: nat, size: nat, o: Obj)
    requires PageRuns.Safe(s) && Granted(s, h) && size > 0 && size % 8 == 0 && o.size == size
    requires |PageRuns.Step(s, PageRuns.Request(ctx, size)).grants| > |s.grants|
    ensures var s' := PageRuns.Step(s, PageRuns.Request(ctx, size));
      var at := s'.grants[|s.grants|].addr;
      && PageRuns.Safe(s') && s'.table.base == s.table.base && s'.table.nrPages == s.table.nrPages
      && s'.grants[|s.grants|].size == size
      && at !in h && Granted(s', h[at := o])
      && s.table.base <= at && at + size <= s.table.base + s.table.nrPages * BASE_PAGE_SIZE
  {
    hide PageRuns.Step, PageRuns.Safe, PageRuns.Healthy;
    SafeIsHealthy(s);
    var s' := PageRuns.Step(s, PageRuns.Request(ctx, size));
    var n := |s.grants|;
    PageRuns.RequestSafe(s, ctx, size);
    RequestShape(s, ctx, size);
    GrantInSpace(s', n);
    var at := s'.grants[n].addr;
    forall a | a in h ensures a != at && Owns(s', a, h[a].size) {
      var i :| 0 <= i < n && s.grants[i].addr == a && s.grants[i].size == h[a].size;
      assert s'.grants[i] == s.grants[i];
      SameStart(s', i, n);
    }
    assert Owns(s', at, size);
  }

  lemma SafeIsHealthy(s: PageRuns.System)
    requires PageRuns.Safe(s)
    ensures PageRuns.Healthy(s)
  {
  }

  lemma SameStart(s: PageRuns.System, i: nat, j: nat)
    requires PageRuns.Safe(s) && i < j < |s.grants| && s.grants[i].size > 0 && s.grants[j].size > 0
    ensures s.grants[i].addr != s.grants[j].addr
  {
    assert s.grants[i].Apart(s.grants[j]);
  }

  lemma RequestShape(s: PageRuns.System, ctx: nat, size: nat)
    requires PageRuns.Safe(s) && size % 8 == 0
    ensures var s' := PageRuns.Step(s, PageRuns.Request(ctx, size));
      && s'.table.base == s.table.base && s'.table.nrPages == s.table.nrPages
      && (|s'.grants| > |s.grants| ==> |s'.grants| == |s.grants| + 1 && s'.grants[|s.grants|].size == size)
  {
    AllocStep(s.table, PageRuns.LocalOf(s.locals, ctx), size);
    hide AllocIn;
  }

  // ----- Steps -----

  datatype Event =
    | Flush
    | Step1(pending: seq<Addr>)
    | Mark(markStep: ConcurrentMark.MarkStep)
    | Step3
    | Copy(copyStep: CopyMachine.CopyStep)
    | Step4End
    | Step5
    | Program(op: Op, ctx: nat)

  // The relocation that step 3 freezes.
  ghost function PlanOf(m: Machine): Plan
    requires m.phase.Marking?
  {
    var ms := m.phase.ms;
    Plan(m.world.heap, m.space, Marked(m.world.heap, ms.bit), ms.order, ms.placed, ms.records)
  }

  ghost function Heads(t: Table): set<nat> {
    set h | 0 <= h < |t.slots| && t.Has(h)
  }

  // No page taken, no bit set, nothing in place.
  ghost function FreshWork(t: Table): CopyMachine.Work {
    CopyMachine.Work(Heads(t), map[], {}, {}, true)
  }

  function AllocAfter(m: Machine, op: Op, ctx: nat): PageRuns.System
    requires PageRuns.Healthy(m.alloc)
  {
    if op.New? then PageRuns.Step(m.alloc, PageRuns.Request(ctx, op.size)) else m.alloc
  }

  // What the program may do. There is no allocation during marking; an allocation takes the
  // address the allocator gives, and during relocation needs all its pages present, as a path does.
  ghost predicate MayRun(m: Machine, op: Op, ctx: nat) {
    if op.New? then
      && !m.phase.Marking? && op.slot !in m.world.roots && op.size > 0 && op.size % 8 == 0
      && PageRuns.Healthy(m.alloc)
      && |AllocAfter(m, op, ctx).grants| > |m.alloc.grants|
      && AllocAfter(m, op, ctx).grants[|m.alloc.grants|].addr == op.at
      && (m.phase.Copying? ==> CopyMachine.AllPresent(CopyOf(m), op.at, op.size))
    else
      Allowed(m.world, op) && (m.phase.Marking? ==> ConcurrentMark.MarkingOp(op))
  }

  ghost predicate Next(m: Machine, e: Event, m': Machine) {
    match e
    case Flush => m.phase.Idle? && m' == m.(alloc := m.alloc.(locals := map[]))
    case Step1(pending) =>
      && m.phase.Idle? && m.alloc.locals == map[] && m.spare != []
      && (forall x :: x in pending <==> x in m.world.roots.Values)
      && m' == m.(markTrue := m.markTrue.Not(), spare := m.spare[1..],
                  phase := Marking(ConcurrentMark.Begin(m.world, m.markTrue, pending, m.spare[0], m.nrPages)))
    case Mark(step) =>
      && m.phase.Marking? && Laid(m.world.heap, m.space) && ConcurrentMark.Enabled(m.world.heap, m.phase.ms, step)
      && m' == m.(world := m.world.(heap := ConcurrentMark.MarkHeap(m.world.heap, m.phase.ms, step)),
                  phase := Marking(ConcurrentMark.MarkNext(m.world.heap, m.space, m.phase.ms, step)))
    case Step3 =>
      && m.phase.Marking? && ConcurrentMark.Finished(m.phase.ms)
      && m.world.roots.Values <= MapOf(PlanOf(m)).Keys
      && m' == m.(space := Other(m),
                  world := World(map[], MoveRoots(MapOf(PlanOf(m)), m.world.roots)),
                  alloc := PageRuns.System(m.phase.ms.placed.table, map[], m.phase.ms.placed.grants),
                  phase := Copying(PlanOf(m), FreshWork(m.phase.ms.placed.table)))
    case Copy(step) =>
      && m.phase.Copying? && Ready(m.phase.plan) && CopyMachine.Enabled(CopyOf(m), step)
      && var cs := CopyMachine.CopyNext(CopyOf(m), step);
         m' == m.(world := cs.program, phase := Copying(cs.plan, cs.work))
    case Step4End =>
      && m.phase.Copying? && CopyMachine.Done(CopyOf(m)) && CopyMachine.NoneFailed(m.phase.work)
      && m' == m.(phase := Clearing(m.phase.plan.base))
    case Step5 =>
      m.phase.Clearing? && m' == m.(spare := m.spare + [m.phase.second], phase := Idle)
    case Program(op, ctx) =>
      && MayRun(m, op, ctx) && Allowed(m.world, op) && PageRuns.Healthy(m.alloc)
      && m' == m.(world := Do(m.world, op, m.markTrue.Not()), alloc := AllocAfter(m, op, ctx))
  }

  // ----- Step 1: flip, snapshot, take the spare -----

  lemma Step1Inv(m: Machine, pending: seq<Addr>, m': Machine)
    requires Inv(m) && Next(m, Step1(pending), m')
    ensures Keeps(m, m')
  {
    hide ConcurrentMark.MarkInv, Sound, Laid, NoOverlap, PageRuns.Safe, Granted;
    GrantedLaid(m.alloc, m.world.heap);
    ConcurrentMark.BeginInv(m.world, m.space, m.markTrue, pending, m.spare[0], m.nrPages);
    BeginShape(m.world, m.markTrue, pending, m.spare[0], m.nrPages);
  }

  lemma BeginShape(w: World, bit: Bit, pending: seq<Addr>, toBase: nat, nrPages: nat)
    ensures var ms := ConcurrentMark.Begin(w, bit, pending, toBase, nrPages);
      ms.bit == bit && ms.placed.table.base == toBase && ms.placed.table.nrPages == nrPages
  {
    hide Live;
  }

  // ----- Step 2: mark -----

  lemma MarkInv(m: Machine, step: ConcurrentMark.MarkStep, m': Machine)
    requires Inv(m) && Next(m, Mark(step), m')
    ensures Inv(m') && m'.world.roots == m.world.roots && SameButMarks(m'.world.heap, m.world.heap)
  {
    hide ConcurrentMark.MarkInv, ConcurrentMark.Enabled, ConcurrentMark.MarkHeap, ConcurrentMark.MarkNext,
      Laid, PageRuns.Safe, Granted;
    ConcurrentMark.NextInv(m.world, m.phase.ms, m.space, ConcurrentMark.Marker(step), m'.world, m'.phase.ms);
    MarkShape(m.world.heap, m.space, m.phase.ms, step);
    SameGranted(m.alloc, m.world.heap, m'.world.heap);
  }

  lemma MarkShape(h: Heap, base: nat, ms: ConcurrentMark.MarkState, step: ConcurrentMark.MarkStep)
    requires ConcurrentMark.Enabled(h, ms, step) && Laid(h, base)
    ensures SameButMarks(ConcurrentMark.MarkHeap(h, ms, step), h)
    ensures var ms' := ConcurrentMark.MarkNext(h, base, ms, step);
      && ms'.bit == ms.bit
      && ms'.placed.table.base == ms.placed.table.base && ms'.placed.table.nrPages == ms.placed.table.nrPages
  {
    if step.Pop? && h[ConcurrentMark.Top(ms)].mark != ms.bit {
      ExtendGood(ms.placed, h[ConcurrentMark.Top(ms)].size);
    }
    hide Extend, AllocIn, Good;
  }

  lemma SameGranted(s: PageRuns.System, h: Heap, h': Heap)
    requires Granted(s, h) && h'.Keys == h.Keys && forall a :: a in h ==> h'[a].size == h[a].size
    ensures Granted(s, h')
  {
    hide Owns;
  }

  // ----- Program -----

  // The program's operations never trip over the collector: an allocation is never given the
  // memory of an object, and an object in place is never out of reach.
  lemma MayRunAllowed(m: Machine, op: Op, ctx: nat)
    requires Inv(m) && MayRun(m, op, ctx)
    ensures Allowed(m.world, op) && Allowed(Full(m), op)
    ensures m.phase.Copying? ==> CopyMachine.Unblocked(CopyOf(m), op)
    ensures op.New? ==> op.at !in Full(m).heap && forall x :: op.at <= x < op.at + op.size ==> InRange(m, m.space, x)
  {
    hide Ready, ImageOf, CopyMachine.AllPresent, PageRuns.Safe, PageRuns.Step, Granted, Sound, ConcurrentMark.MarkInv;
    if op.New? {
      NewIsFresh(m.alloc, Full(m).heap, ctx, op.size, Fresh(op, m.markTrue.Not()));
    }
    if m.phase.Copying? {
      CopyMachine.DoInside(ImageOf(m.phase.plan), m.world, op, m.markTrue.Not());
    }
  }

  lemma ProgramAlloc(m: Machine, op: Op, ctx: nat, w: World)
    requires AllocOk(m, w.heap) && MayRun(m, op, ctx) && PageRuns.Healthy(m.alloc) && Allowed(w, op)
    ensures AllocOk(m.(alloc := AllocAfter(m, op, ctx)), Do(w, op, m.markTrue.Not()).heap)
  {
    hide PageRuns.Safe, PageRuns.Step, Granted;
    if op.New? {
      NewIsFresh(m.alloc, w.heap, ctx, op.size, Fresh(op, m.markTrue.Not()));
    } else {
      SameGranted(m.alloc, w.heap, Do(w, op, m.markTrue.Not()).heap);
    }
  }

  lemma ProgramMarks(w: World, op: Op, mark: Bit)
    requires Allowed(w, op) && forall a :: a in w.heap ==> w.heap[a].mark == mark
    ensures forall a :: a in Do(w, op, mark).heap ==> Do(w, op, mark).heap[a].mark == mark
  {
  }

  lemma ProgramInv(m: Machine, op: Op, ctx: nat, m': Machine)
    requires Inv(m) && Next(m, Program(op, ctx), m')
    ensures Inv(m') && Allowed(Full(m), op) && Full(m') == Do(Full(m), op, m.markTrue.Not())
  {
    hide Ready, ImageOf, MapOf, Do, Allowed, AllocOk, Granted, Sound, ConcurrentMark.MarkInv, CopyMachine.WorkInv,
      CopyMachine.Unblocked, CopyMachine.Full, PageRuns.Safe, PageRuns.Step;
    MayRunAllowed(m, op, ctx);
    ProgramAlloc(m, op, ctx, Full(m));
    if m.phase.Copying? {
      CopyMachine.ProgramWork(CopyOf(m), op, m.markTrue.Not());
      CopyMachine.ProgramFull(CopyOf(m), op, m.markTrue.Not());
      assert CopyOf(m') == CopyMachine.ProgramNext(CopyOf(m), op, m.markTrue.Not());
    } else if m.phase.Marking? {
      ConcurrentMark.MutateInv(m.world, m.space, m.phase.ms, op);
    } else {
      DoSound(m.world, op, m.markTrue.Not());
    }
    if !m.phase.Marking? {
      ProgramMarks(Full(m), op, m.markTrue.Not());
    }
    AllocFrame(m, m', Full(m').heap);
  }

  lemma AllocFrame(m: Machine, m': Machine, h: Heap)
    requires AllocOk(m.(alloc := m'.alloc), h) && m'.space == m.space && m'.nrPages == m.nrPages
    ensures AllocOk(m', h)
  {
    hide PageRuns.Safe, Granted;
  }

  // ----- Step 3: freeze, rewrite the roots, swap the spaces -----

  lemma PlanReady(m: Machine)
    requires Inv(m) && m.phase.Marking? && ConcurrentMark.Finished(m.phase.ms)
    ensures Ready(PlanOf(m)) && WellFormed(m.world.heap)
    ensures Closed(m.world.heap, PlanOf(m).live) && m.world.roots.Values <= PlanOf(m).live
  {
    hide Registered, Live, ConcurrentMark.Tricolor;
    ConcurrentMark.FinishedComplete(m.world, m.space, m.phase.ms);
  }

  // Every root has a relocation record: rewriting the roots never fails.
  lemma RootsRecorded(m: Machine)
    requires Inv(m) && m.phase.Marking? && ConcurrentMark.Finished(m.phase.ms)
    ensures m.world.roots.Values <= MapOf(PlanOf(m)).Keys
  {
    hide Inv, Ready, MapOf;
    PlanReady(m);
    PlanMoves(PlanOf(m));
  }

  lemma PlanSound(p: Plan, roots: map<nat, Addr>)
    requires Ready(p) && WellFormed(p.h) && roots.Values <= MapOf(p).Keys
    ensures Sound(World(ImageOf(p), MoveRoots(MapOf(p), roots)))
  {
    hide Ready, MapOf, Reachable;
    PlanMoves(p);
    ReadyClosed(p);
    MovedReachable(p.h, roots.Values, MapOf(p), ImageOf(p));
    forall s | s in roots ensures MapOf(p)[roots[s]] in ImageOf(p) {
      assert roots[s] in roots.Values;
      assert MapOf(p)[roots[s]] in MapOf(p).Values;
    }
  }

  lemma ReadyClosed(p: Plan)
    requires Ready(p)
    ensures Closed(p.h, p.live)
  {
  }

  // The destinations are exactly what the allocator of the new space has handed out.
  lemma PlanGranted(p: Plan)
    requires Ready(p)
    ensures PageRuns.Safe(PageRuns.System(p.m.table, map[], p.m.grants))
    ensures Granted(PageRuns.System(p.m.table, map[], p.m.grants), ImageOf(p))
  {
    hide Ready, ImageOf, MapOf, Registry.Disjoint;
    PlanRecorded(p);
    var s := PageRuns.System(p.m.table, map[], p.m.grants);
    forall d | d in ImageOf(p)
      ensures ImageOf(p)[d].size > 0 && ImageOf(p)[d].size % 8 == 0 && Owns(s, d, ImageOf(p)[d].size)
    {
      var i := ImageOnly(p, d);
      ImageAt(p, i);
      PlanObject(p, i);
      assert s.grants[i].addr == d && s.grants[i].size == ImageOf(p)[d].size;
    }
  }

  lemma PlanMarks(p: Plan, mark: Bit)
    requires Ready(p) && p.live == Marked(p.h, mark)
    ensures forall d :: d in ImageOf(p) ==> ImageOf(p)[d].mark == mark
  {
    hide Ready, ImageOf, MapOf;
    PlanMoves(p);
    forall d | d in ImageOf(p) ensures ImageOf(p)[d].mark == mark {
      var i := ImageOnly(p, d);
      ImageAt(p, i);
    }
  }

  lemma Step3Inv(m: Machine, m': Machine)
    requires Inv(m) && Next(m, Step3, m')
    ensures Inv(m') && Full(m') == World(ImageOf(PlanOf(m)), MoveRoots(MapOf(PlanOf(m)), m.world.roots))
    ensures m'.phase == Copying(PlanOf(m), FreshWork(m.phase.ms.placed.table))
  {
    hide Ready, ImageOf, MapOf, Granted, Sound, PageRuns.Safe, ConcurrentMark.MarkInv, Increasing, Tiled;
    var p := PlanOf(m);
    PlanReady(m);
    PlanSound(p, m.world.roots);
    PlanGranted(p);
    PlanMarks(p, m.phase.ms.bit);
    PlanTiled(p);
    HeadsUsed(p.m.table);
    assert ImageOf(p) + map[] == ImageOf(p);
  }

  lemma HeadsUsed(t: Table)
    requires Tiled(t)
    ensures forall h :: h in Heads(t) ==> h < t.nrPages && t.Has(h)
    ensures forall h: nat :: t.Has(h) ==> h in Heads(t)
  {
  }

  // ----- Steps 4 and 5 -----

  lemma CopyInv(m: Machine, step: CopyMachine.CopyStep, m': Machine)
    requires Inv(m) && Next(m, Copy(step), m')
    ensures Keeps(m, m')
  {
    hide Ready, ImageOf, MapOf, Granted, Sound, PageRuns.Safe, CopyMachine.WorkInv, CopyMachine.Enabled,
      CopyMachine.Full, CopyMachine.CopyNext;
    CopyMachine.WorkStep(CopyOf(m), step);
    assert CopyOf(m') == CopyMachine.CopyNext(CopyOf(m), step);
  }

  // Once the jobs are done, with destinations in order, everything is in place.
  lemma EndInv(m: Machine, m': Machine)
    requires Inv(m) && OrderOk(m) && Next(m, Step4End, m')
    ensures Keeps(m, m')
  {
    hide Ready, ImageOf, MapOf, Granted, Sound, PageRuns.Safe, CopyMachine.WorkInv, CopyMachine.Full, Increasing,
      CopyMachine.Virtual, CopyMachine.Done, CopyMachine.NoneFailed;
    CopyMachine.DoneIsWhole(CopyOf(m));
    CopyMachine.CopyInvIs(CopyOf(m));
  }

  lemma IdleInv(m: Machine, e: Event, m': Machine)
    requires Inv(m) && (e.Flush? || e.Step5?) && Next(m, e, m')
    ensures Keeps(m, m')
  {
    if e.Flush? { FlushInv(m, m'); } else { RequeueInv(m, m'); }
  }

  lemma FlushInv(m: Machine, m': Machine)
    requires Inv(m) && Next(m, Flush, m')
    ensures Keeps(m, m')
  {
    hide Sound, Granted, PageRuns.Safe;
    FlushKeeps(m.alloc, m.world.heap);
  }

  lemma RequeueInv(m: Machine, m': Machine)
    requires Inv(m) && Next(m, Step5, m')
    ensures Keeps(m, m')
  {
    hide Sound, Granted, PageRuns.Safe;
  }

  lemma FlushKeeps(s: PageRuns.System, h: Heap)
    requires PageRuns.Safe(s) && Granted(s, h)
    ensures PageRuns.Safe(s.(locals := map[])) && Granted(s.(locals := map[]), h)
  {
    hide Tiled, PageRuns.Inside;
    forall a | a in h ensures Owns(s.(locals := map[]), a, h[a].size) {
      assert Owns(s, a, h[a].size);
    }
  }

  // ----- Whole runs -----

  // Relocation begins with destinations in increasing order.
  ghost predicate InTurn(m: Machine, e: Event) {
    e.Step3? && m.phase.Marking? ==> Increasing(m.phase.ms.placed.grants)
  }

  lemma StaysOrdered(m: Machine, e: Event, m': Machine)
    requires OrderOk(m) && Next(m, e, m') && InTurn(m, e)
    ensures OrderOk(m')
  {
    hide Increasing, Ready, ImageOf, MapOf, Allowed, Do, Laid, CopyMachine.Enabled, CopyMachine.WorkNext,
      Put, ConcurrentMark.Enabled, ConcurrentMark.MarkHeap, ConcurrentMark.MarkNext, CopyMachine.Done;
  }

  // Every step keeps the invariant; only the end of relocation rests on the order.
  lemma NextInv(m: Machine, e: Event, m': Machine)
    requires Inv(m) && Next(m, e, m') && (e.Step4End? ==> OrderOk(m))
    ensures Inv(m') && (OrderOk(m) && InTurn(m, e) ==> OrderOk(m'))
  {
    hide Inv, Next, OrderOk, InTurn;
    match e {
      case Flush => IdleInv(m, e, m');
      case Step1(pending) => Step1Inv(m, pending, m');
      case Mark(step) => MarkInv(m, step, m');
      case Step3 => Step3Inv(m, m');
      case Copy(step) => CopyInv(m, step, m');
      case Step4End => EndInv(m, m');
      case Step5 => IdleInv(m, e, m');
      case Program(op, ctx) => ProgramInv(m, op, ctx, m');
    }
    if OrderOk(m) && InTurn(m, e) { StaysOrdered(m, e, m'); }
  }

  // The program running with no collector: objects never move, and new ones get whatever name
  // is free. Which mark bit they carry is of no concern.
  ghost predicate IdealStep(w: World, op: Op, w': World) {
    exists id, mark :: IdealDo(w, op, id, mark, w')
  }

  ghost predicate IdealDo(w: World, op: Op, id: Addr, mark: Bit, w': World) {
    id !in w.heap && Allowed(w, Renamed(op, id)) && w' == Do(w, Renamed(op, id), mark)
  }

  ghost predicate IdealRun(w: World, ops: seq<Op>, w': World)
    decreases |ops|
  {
    if ops == [] then w' == w
    else exists w1 :: IdealStep(w, ops[0], w1) && IdealRun(w1, ops[1..], w')
  }

  lemma {:induction false} AboveAll(s: set<Addr>) returns (id: Addr)
    ensures forall x :: x in s ==> x < id
  {
    id := 0;
    if x :| x in s {
      var n := AboveAll(s - {x});
      id := if n > x then n else x + 1;
      assert forall y :: y in s ==> y == x || y in s - {x};
    }
  }

  lemma WholeDefined(m: Machine)
    requires Inv(m)
    ensures m.phase.Copying? ==> Ready(m.phase.plan)
  {
  }

  // Where a step of the collector takes the objects: step 3 along its relocation, others nowhere.
  ghost function Carried(m: Machine, e: Event, loc: map<Addr, Addr>): map<Addr, Addr> {
    if e.Step3? && m.phase.Marking? then Compose(MapOf(PlanOf(m)), loc) else loc
  }

  // One step, seen from the program: either nothing, or its own operation. No assertion fires.
  lemma StepMirrors(m: Machine, e: Event, m': Machine, loc: map<Addr, Addr>, ideal: World)
    returns (loc': map<Addr, Addr>, ideal': World)
    requires Inv(m) && OrderOk(m) && Next(m, e, m') && InTurn(m, e) && Mirrors(loc, ideal, Whole(m))
    ensures Inv(m') && OrderOk(m') && NoAssertion(m') && Mirrors(loc', ideal', Whole(m'))
    ensures e.Program? ==> IdealStep(ideal, e.op, ideal')
    ensures !e.Program? ==> ideal' == ideal && loc' == Carried(m, e, loc)
  {
    hide Inv, Next, Mirrors, Whole, Full, OrderOk, InTurn, NoAssertion, IdealStep, Carried;
    NextInv(m, e, m');
    WholeIsFull(m);
    loc', ideal' := FullMirrors(m, e, m', loc, ideal);
    WholeIsFull(m');
    OrderedNoAssertion(m');
  }

  ghost predicate NoAssertion(m: Machine) {
    m.phase.Copying? ==> CopyMachine.NoneFailed(m.phase.work)
  }

  lemma OrderedNoAssertion(m: Machine)
    requires Inv(m) && OrderOk(m)
    ensures NoAssertion(m)
  {
    hide AllocOk, Polarity, SpacesOk, Ready, Increasing, CopyMachine.WorkInv, CopyMachine.NoneFailed, Sound;
    if m.phase.Copying? { CopyMachine.OrderedJobs(CopyOf(m)); }
  }

  lemma FullMirrors(m: Machine, e: Event, m': Machine, loc: map<Addr, Addr>, ideal: World)
    returns (loc': map<Addr, Addr>, ideal': World)
    requires Inv(m) && Next(m, e, m') && (e.Step4End? ==> OrderOk(m)) && Mirrors(loc, ideal, Full(m))
    ensures Inv(m') && Mirrors(loc', ideal', Full(m'))
    ensures e.Program? ==> IdealStep(ideal, e.op, ideal')
    ensures !e.Program? ==> ideal' == ideal && loc' == Carried(m, e, loc)
  {
    hide Inv, Next, Mirrors, Allowed, Do, Full, MapOf, OrderOk;
    WholeDefined(m);
    loc', ideal' := loc, ideal;
    match e {
      case Flush => IdleInv(m, e, m');
      case Step1(pending) => Step1Inv(m, pending, m');
      case Mark(step) => MarkMirrors(m, step, m', loc, ideal);
      case Step3 => loc' := Step3Mirrors(m, m', loc, ideal);
      case Copy(step) => CopyInv(m, step, m');
      case Step4End => EndInv(m, m');
      case Step5 => IdleInv(m, e, m');
      case Program(op, ctx) =>
        var id := AboveAll(ideal.heap.Keys);
        ProgramInv(m, op, ctx, m');
        loc' := MirrorStep(loc, ideal, Full(m), op, id, m.markTrue.Not());
        ideal' := Do(ideal, Renamed(op, id), m.markTrue.Not());
        assert IdealDo(ideal, op, id, m.markTrue.Not(), ideal');
    }
  }

  lemma MarkMirrors(m: Machine, step: ConcurrentMark.MarkStep, m': Machine, loc: map<Addr, Addr>, ideal: World)
    requires Inv(m) && Next(m, Mark(step), m') && Mirrors(loc, ideal, Full(m))
    ensures Inv(m') && Mirrors(loc, ideal, Full(m'))
  {
    hide Inv, ConcurrentMark.Enabled, ConcurrentMark.MarkHeap, ConcurrentMark.MarkNext, Mirrors, Laid;
    MarkInv(m, step, m');
    MirrorMarks(loc, ideal, m.world, m'.world.heap);
  }

  lemma Step3Mirrors(m: Machine, m': Machine, loc: map<Addr, Addr>, ideal: World) returns (loc': map<Addr, Addr>)
    requires Inv(m) && Next(m, Step3, m') && Mirrors(loc, ideal, Full(m))
    ensures Inv(m') && Mirrors(loc', ideal, Full(m')) && loc' == Carried(m, Step3, loc)
  {
    hide Inv, Mirrors, Ready, ImageOf, MapOf, Increasing;
    Step3Inv(m, m');
    PlanReady(m);
    var p := PlanOf(m);
    PlanMoves(p);
    ImageOfMoved(p);
    MirrorMove(loc, ideal, m.world, MapOf(p), ImageOf(p));
    loc' := Compose(MapOf(p), loc);
  }

  lemma NextUnique(m: Machine, e: Event, m1: Machine, m2: Machine)
    requires Next(m, e, m1) && Next(m, e, m2)
    ensures m1 == m2
  {
    hide Ready, ImageOf, MapOf, Allowed, Laid, CopyMachine.Enabled, ConcurrentMark.Enabled, CopyMachine.Done,
      CopyMachine.NoneFailed, ConcurrentMark.Finished, Do, CopyMachine.CopyNext, ConcurrentMark.MarkHeap,
      ConcurrentMark.MarkNext, ConcurrentMark.Begin, MayRun;
  }

  ghost predicate Run(m: Machine, es: seq<Event>, m': Machine)
    decreases |es|
  {
    if es == [] then m' == m
    else exists m1 :: Next(m, es[0], m1) && Run(m1, es[1..], m')
  }

  function ProgramOps(es: seq<Event>): seq<Op> {
    if es == [] then [] else (if es[0].Program? then [es[0].op] else []) + ProgramOps(es[1..])
  }

  // loc' is loc composed with the relocation of each step 3 of the run, in order.
  ghost predicate Composed(m: Machine, es: seq<Event>, loc: map<Addr, Addr>, loc': map<Addr, Addr>)
    decreases |es|
  {
    if es == [] then loc' == loc
    else exists m1 :: Next(m, es[0], m1) && Composed(m1, es[1..], Carried(m, es[0], loc), loc')
  }

  // Every relocation of these steps begins with destinations in increasing order.
  ghost predicate AllInTurn(m: Machine, es: seq<Event>)
    decreases |es|
  {
    es == [] || (InTurn(m, es[0]) && forall m1 :: Next(m, es[0], m1) ==> AllInTurn(m1, es[1..]))
  }

  // Over any run, of any number of cycles in whatever state the last one is, in which each relocation
  // began with destinations in order: no assertion fires, and the program's world is the world it
  // would have without a collector, moved along one injective map that covers everything the
  // program can reach.
  lemma {:induction false} CollectorInvisible(m: Machine, es: seq<Event>, m': Machine, loc: map<Addr, Addr>,
                                              ideal: World)
    returns (loc': map<Addr, Addr>, ideal': World)
    requires Inv(m) && OrderOk(m) && Run(m, es, m') && AllInTurn(m, es) && Mirrors(loc, ideal, Whole(m))
    ensures Inv(m') && OrderOk(m') && NoAssertion(m') && Mirrors(loc', ideal', Whole(m'))
    ensures IdealRun(ideal, ProgramOps(es), ideal')
    decreases |es|
  {
    hide Inv, Next, Mirrors, Whole, IdealStep, OrderOk, InTurn, NoAssertion;
    if es == [] {
      loc', ideal' := loc, ideal;
      OrderedNoAssertion(m);
    } else {
      var m1 :| Next(m, es[0], m1) && Run(m1, es[1..], m');
      var loc1, ideal1 := StepMirrors(m, es[0], m1, loc, ideal);
      loc', ideal' := CollectorInvisible(m1, es[1..], m', loc1, ideal1);
      if es[0].Program? {
        assert ProgramOps(es)[0] == es[0].op && ProgramOps(es)[1..] == ProgramOps(es[1..]);
      } else {
        assert ProgramOps(es) == ProgramOps(es[1..]);
      }
    }
  }

  // The collector starts with nothing allocated, one space in use and one spare.
  function Start(a: Addr, b: Addr, nrPages: nat): Machine {
    Machine(a, b, nrPages, a, [b], Bit1, World(map[], map[]), PageRuns.System(Cleared(a, nrPages), map[], []), Idle)
  }

  lemma StartOk(a: Addr, b: Addr, nrPages: nat)
    requires a != b && (a + nrPages * BASE_PAGE_SIZE <= b || b + nrPages * BASE_PAGE_SIZE <= a)
    ensures Inv(Start(a, b, nrPages)) && OrderOk(Start(a, b, nrPages))
    ensures Mirrors(map[], World(map[], map[]), Whole(Start(a, b, nrPages)))
  {
    PageRuns.FreshTableSafe(a, nrPages);
  }

  // ----- What it means for the program -----

  // Between cycles exactly one cleared space is queued, so taking one never waits, and it is
  // not the space in use.
  lemma OneSpareWhenIdle(m: Machine, es: seq<Event>, m': Machine)
    requires SpacesOk(m) && Run(m, es, m')
    ensures m'.spare == if m'.phase.Idle? then [Other(m')] else []
    ensures forall d, e :: InRange(m', m'.space, d) && InRange(m', Other(m'), e) ==> d != e
  {
    hide SpacesOk, Next;
    RunSpaces(m, es, m');
    SpacesApart(m');
  }

  lemma {:induction false} RunSpaces(m: Machine, es: seq<Event>, m': Machine)
    requires SpacesOk(m) && Run(m, es, m')
    ensures SpacesOk(m')
    decreases |es|
  {
    hide SpacesOk, Next;
    if es != [] {
      var m1 :| Next(m, es[0], m1) && Run(m1, es[1..], m');
      NextSpaces(m, es[0], m1);
      RunSpaces(m1, es[1..], m');
    }
  }

  // The roles of the spaces do not depend on what is in them.
  lemma NextSpaces(m: Machine, e: Event, m': Machine)
    requires SpacesOk(m) && Next(m, e, m')
    ensures SpacesOk(m')
  {
    hide Ready, ImageOf, MapOf, Allowed, Do, Laid, CopyMachine.Enabled, CopyMachine.WorkNext, Marked,
      Put, ConcurrentMark.Enabled, ConcurrentMark.MarkHeap, ConcurrentMark.MarkNext, CopyMachine.Done,
      ConcurrentMark.Begin, CopyMachine.NoneFailed, ConcurrentMark.Finished;
    match e {
      case Step1(pending) => BeginShape(m.world, m.markTrue, pending, m.spare[0], m.nrPages);
      case Mark(step) => MarkShape(m.world.heap, m.space, m.phase.ms, step);
      case _ =>
    }
  }

  lemma SpacesApart(m: Machine)
    requires SpacesOk(m)
    ensures m.spare == if m.phase.Idle? then [Other(m)] else []
    ensures forall d, e :: InRange(m, m.space, d) && InRange(m, Other(m), e) ==> d != e
  {
  }

  // Right after the mark bit is flipped every object reads as unmarked and none was touched.
  // An object made outside marking always carries the bit that will read so in the next cycle.
  lemma FlipUnmarksAll(m: Machine, pending: seq<Addr>, m': Machine)
    requires Inv(m) && Next(m, Step1(pending), m')
    ensures m'.world == m.world && m'.markTrue == m.markTrue.Not()
    ensures forall a :: a in m'.world.heap ==> m'.world.heap[a].mark != m'.phase.ms.bit
    ensures forall a :: a in m'.world.heap ==> m'.world.heap[a].mark == m.markTrue.Not() == m'.markTrue
  {
    hide PhaseOk, AllocOk, SpacesOk, Ready;
    BeginShape(m.world, m.markTrue, pending, m.spare[0], m.nrPages);
    hide ConcurrentMark.Begin;
  }

  // The spaces swap roles once per cycle.
  function Swaps(es: seq<Event>): nat {
    if es == [] then 0 else (if es[0].Step3? then 1 else 0) + Swaps(es[1..])
  }

  lemma {:induction false} SpacesAlternate(m: Machine, es: seq<Event>, m': Machine)
    requires SpacesOk(m) && Run(m, es, m')
    ensures m'.a == m.a && m'.b == m.b && m'.nrPages == m.nrPages
    ensures m'.space == if Swaps(es) % 2 == 0 then m.space else Other(m)
    decreases |es|
  {
    hide SpacesOk, Next;
    if es != [] {
      var m1 :| Next(m, es[0], m1) && Run(m1, es[1..], m');
      NextSpaces(m, es[0], m1);
      TwoSpaces(m);
      StepSpace(m, es[0], m1);
      SpacesAlternate(m1, es[1..], m');
    }
  }

  lemma TwoSpaces(m: Machine)
    requires SpacesOk(m)
    ensures m.a != m.b && (m.space == m.a || m.space == m.b)
  {
  }

  lemma StepSpace(m: Machine, e: Event, m': Machine)
    requires Next(m, e, m')
    ensures m'.a == m.a && m'.b == m.b && m'.nrPages == m.nrPages
    ensures m'.space == if e.Step3? then Other(m) else m.space
  {
    hide Ready, Allowed, Do, MapOf, ImageOf, Increasing, Laid;
  }

  // Everything the program holds or can read is in the space in use: the space being emptied is
  // never written, because the program has no pointer into it. In order, it is there or to come.
  lemma NoPointerLeft(m: Machine, b: Addr)
    requires Inv(m)
    requires b in m.world.roots.Values || exists d :: d in m.world.heap && Points(m.world.heap[d], b)
    ensures InRange(m, m.space, b) && !InRange(m, Other(m), b)
    ensures (m.phase.Copying? ==> Ready(m.phase.plan)) && (OrderOk(m) ==> b in Whole(m).heap)
    ensures forall d :: d in m.world.heap ==> InRange(m, m.space, d) && !InRange(m, Other(m), d)
  {
    WholeSound(m);
    FullInRange(m);
    hide Inv, Whole, Full, OrderOk;
    if d :| d in m.world.heap && Points(m.world.heap[d], b) {
      assert d in Full(m).heap && Points(Full(m).heap[d], b);
    }
    if OrderOk(m) { WholeIsFull(m); }
  }

  lemma FullInRange(m: Machine)
    requires Inv(m)
    ensures m.phase.Copying? ==> Ready(m.phase.plan)
    ensures forall d :: d in Full(m).heap ==> InRange(m, m.space, d) && !InRange(m, Other(m), d)
  {
    hide PageRuns.Safe, Granted, Ready, Polarity, Full, PhaseOk;
    GrantedLaid(m.alloc, Full(m).heap);
  }

  lemma WholeSound(m: Machine)
    requires Inv(m)
    ensures m.phase.Copying? ==> Ready(m.phase.plan)
    ensures Sound(Full(m)) && Full(m).roots == m.world.roots
    ensures CopyMachine.Inside(m.world.heap, Full(m).heap)
  {
    hide AllocOk, Polarity, SpacesOk, Sound, Ready, ImageOf;
  }

  // Whatever the program reaches along objects in place shows it what it would see without a
  // collector, and two paths meet exactly when they would meet then.
  lemma SeesIdeal(m: Machine, loc: map<Addr, Addr>, ideal: World, s: nat, path: seq<nat>, t: nat, rest: seq<nat>)
    requires Inv(m) && Mirrors(loc, ideal, Whole(m))
    requires Leads(m.world, s, path) && Target(m.world, t, rest).Some?
    ensures Leads(ideal, s, path) && Target(ideal, t, rest).Some?
    ensures var a, d := Target(ideal, s, path).value, Target(m.world, s, path).value;
      && (var o, p := ideal.heap[a], m.world.heap[d];
          && p.payload == o.payload && p.size == o.size && p.data == o.data && |p.fields| == |o.fields|
          && (forall i :: 0 <= i < |o.fields| ==> (p.fields[i].Some? <==> o.fields[i].Some?)))
      && (Target(m.world, t, rest) == Some(d) <==> Target(ideal, t, rest) == Some(a))
  {
    hide Inv, Mirrors, Target;
    InPlaceInWhole(m);
    CopyMachine.TargetInside(m.world, Whole(m), s, path);
    CopyMachine.TargetInside(m.world, Whole(m), t, rest);
    ObservesSame(loc, ideal, Whole(m), s, path, t, rest);
    ObservesSame(loc, ideal, Whole(m), t, rest, s, path);
  }

  lemma InPlaceInWhole(m: Machine)
    requires Inv(m)
    ensures m.phase.Copying? ==> Ready(m.phase.plan)
    ensures CopyMachine.Inside(m.world.heap, Whole(m).heap) && Whole(m).roots == m.world.roots
  {
    hide PhaseOk, AllocOk, Polarity, SpacesOk, Ready, ImageOf;
  }

  // These objects are all small, all medium or all huge.
  ghost predicate OneClass(h: Heap, live: set<Addr>, c: Class) {
    forall a :: a in live ==> a in h && ClassOf(h[a].size) == c
  }

  // Step 3 is possible when marking is finished, in whatever order destinations came out: nothing
  // is in its way.
  lemma CanRelocate(m: Machine) returns (m': Machine)
    requires Inv(m) && m.phase.Marking? && ConcurrentMark.Finished(m.phase.ms)
    ensures Next(m, Step3, m') && m'.phase.Copying? && m'.phase.plan == PlanOf(m)
  {
    hide Inv, Ready, MapOf;
    RootsRecorded(m);
    m' := m.(space := Other(m),
             world := World(map[], MoveRoots(MapOf(PlanOf(m)), m.world.roots)),
             alloc := PageRuns.System(m.phase.ms.placed.table, map[], m.phase.ms.placed.grants),
             phase := Copying(PlanOf(m), FreshWork(m.phase.ms.placed.table)));
  }

  // With all live objects in one size class it begins in order.
  lemma OneClassInTurn(m: Machine, c: Class)
    requires Inv(m) && m.phase.Marking? && ConcurrentMark.Finished(m.phase.ms)
    requires OneClass(m.world.heap, PlanOf(m).live, c)
    ensures InTurn(m, Step3)
  {
    hide Inv, Ready, MapOf, Increasing;
    PlanReady(m);
    PlanOneClass(PlanOf(m), c);
  }

  lemma PlanOneClass(p: Plan, c: Class)
    requires Ready(p) && OneClass(p.h, p.live, c)
    ensures Increasing(p.m.grants)
  {
    var sizes := SizesOf(p.h, p.order);
    assert forall i :: 0 <= i < |sizes| ==> p.order[i] in p.live && ClassOf(sizes[i]) == c;
    hide Good, Increasing, RecordsMove, NoOverlap, Closed;
    OneClassIncreasing(p.m.table.base, p.m.table.nrPages, sizes, c);
  }
}