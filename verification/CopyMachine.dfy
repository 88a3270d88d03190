// Relocation while the program runs: workers and fault handlers fill units of the destination
// space in any order, and the program waits only for the units it touches.
module CopyMachine {
  import opened Prelude
  import opened Pages
  import PageRuns
  import opened Placement
  import opened Registry
  import opened Partition
  import opened Graph
  import opened Mutator
  import opened Copier

  // A job of a worker or a handler, for one unit of the space: it has yet to test the unit's bit,
  // it found it clear and is filling a buffer, an assertion stopped it there, or it is over.
  datatype Job = Testing(unit: nat) | Filling(unit: nat) | Failed(unit: nat) | Over

  // `eager` are the pages the workers have not come to yet, `bits` the work-done bitmap, `filled`
  // the units moved into place, and `handling` whether faults are still dispatched.
  datatype Work = Work(eager: set<nat>, jobs: map<nat, Job>, bits: set<nat>, filled: set<nat>, handling: bool)

  // `program` is what the program sees: the objects that are in place, and its handles.
  datatype CopyState = CopyState(plan: Plan, work: Work, program: World)

  // A used page is filled as a whole; beyond the used end every base page is zeroed on its own.
  ghost predicate InUnit(t: Table, u: nat, d: Addr) {
    Holds(t, u, d) || (d >= t.End() && u == (d - t.base) / BASE_PAGE_SIZE)
  }

  ghost predicate InSpace(t: Table, d: Addr) {
    t.base <= d < t.base + t.nrPages * BASE_PAGE_SIZE
  }

  // Every address of the space is in exactly one unit.
  lemma UnitExists(t: Table, d: Addr) returns (u: nat)
    requires Tiled(t) && InSpace(t, d)
    ensures InUnit(t, u, d) && u < t.nrPages
    ensures forall v: nat :: InUnit(t, v, d) ==> v == u
  {
    if d >= t.End() {
      u := (d - t.base) / BASE_PAGE_SIZE;
      NoneHolds(t, d);
    } else {
      var i := (d - t.base) / BASE_PAGE_SIZE;
      TilesExactly(t, i);
      u :| Covers(t, u, i);
      assert PageOk(t, u);
      HolderIsUsed(t, u, d);
    }
  }

  // The page of an address is present.
  ghost predicate Present(cs: CopyState, d: Addr) {
    exists u: nat :: u in cs.work.filled && InUnit(cs.plan.m.table, u, d)
  }

  // All these bytes are in the space, in pages that are present.
  ghost predicate AllPresent(cs: CopyState, d: Addr, size: nat) {
    forall x :: d <= x < d + size ==> InSpace(cs.plan.m.table, x) && Present(cs, x)
  }

  // The relocated objects in pages that are still missing.
  ghost function ToCome(cs: CopyState): Heap
    requires Ready(cs.plan)
  {
    map d | d in ImageOf(cs.plan) && !Present(cs, d) :: ImageOf(cs.plan)[d]
  }

  // What the to-space will hold: what is in place and what is still to come. An object whose page
  // was moved into place without it is in neither.
  ghost function Virtual(cs: CopyState): World
    requires Ready(cs.plan)
  {
    World(ToCome(cs) + cs.program.heap, cs.program.roots)
  }

  // What it would hold if no fill lost an object.
  ghost function Full(cs: CopyState): World
    requires Ready(cs.plan)
  {
    World(ImageOf(cs.plan) + cs.program.heap, cs.program.roots)
  }

  ghost predicate Has(jobs: map<nat, Job>, job: Job) {
    exists j :: j in jobs && jobs[j] == job
  }

  // The job found the unit's bit clear, and no other job can come to the unit after it.
  predicate Takes(job: Job, u: nat) {
    job == Filling(u) || job == Failed(u)
  }

  ghost predicate Taken(jobs: map<nat, Job>, u: nat) {
    exists j :: j in jobs && Takes(jobs[j], u)
  }

  // The bits set are the units filled and those that one job has taken, apart.
  ghost predicate BitsOk(w: Work) {
    && (forall j, k, u :: j in w.jobs && k in w.jobs && Takes(w.jobs[j], u) && Takes(w.jobs[k], u) ==> j == k)
    && (forall j, u :: j in w.jobs && Takes(w.jobs[j], u) ==> u in w.bits && u !in w.filled)
    && (forall u :: u in w.bits ==> u in w.filled || Taken(w.jobs, u))
    && w.filled <= w.bits
  }

  // A used page, or a base page beyond the used end.
  ghost predicate UnitOk(t: Table, u: nat) {
    t.Has(u) || t.current <= u < t.nrPages
  }

  // Every page that holds something is still to be come to, or in a job, or in place.
  ghost predicate PagesOk(t: Table, w: Work) {
    && (forall h :: h in w.eager ==> t.Has(h))
    && (forall h: nat :: t.Has(h) ==> h in w.eager || h in w.bits || Has(w.jobs, Testing(h)))
    && (w.handling || w.eager == {})
    && (forall j :: j in w.jobs && !w.jobs[j].Over? ==> UnitOk(t, w.jobs[j].unit))
    && (forall u :: u in w.filled ==> UnitOk(t, u))
  }

  // The assertions stop a job for this page, wherever else its search might have stopped.
  ghost predicate Refused(p: Plan, u: nat) {
    p.m.table.Has(u) && exists at :: SearchedAt(p, u, at) && !Passed(p, u, at)
  }

  ghost predicate JobsOk(p: Plan, jobs: map<nat, Job>) {
    forall j :: j in jobs && jobs[j].Failed? ==> Refused(p, jobs[j].unit)
  }

  ghost predicate NoneFailed(w: Work) {
    forall j :: j in w.jobs ==> !w.jobs[j].Failed?
  }

  // Every byte of what is in place is in a filled unit, and a filled page has, of its relocated
  // objects, those whose records its query delivered.
  ghost predicate HeapOk(cs: CopyState)
    requires Ready(cs.plan)
  {
    && (forall d :: d in cs.program.heap ==> cs.program.heap[d].size > 0 && AllPresent(cs, d, cs.program.heap[d].size))
    && (forall h: nat :: h in cs.work.filled && cs.plan.m.table.Has(h) ==> BroughtIn(cs.plan, h, cs.program.heap))
  }

  ghost predicate BroughtIn(p: Plan, h: nat, heap: Heap)
    requires Ready(p) && p.m.table.Has(h)
  {
    exists at :: Brought(p, h, at, heap)
  }

  // In whatever order the destinations came out.
  ghost predicate WorkInv(cs: CopyState) {
    && Ready(cs.plan) && BitsOk(cs.work) && PagesOk(cs.plan.m.table, cs.work) && JobsOk(cs.plan, cs.work.jobs)
    && HeapOk(cs) && Sound(Full(cs))
  }

  // And in increasing order.
  ghost predicate CopyInv(cs: CopyState) {
    WorkInv(cs) && Increasing(cs.plan.m.grants)
  }

  // ----- Steps -----

  // A worker takes a page, a fault at an address is dispatched, a job tests and sets its unit's
  // bit, a job runs its page's query, which stops its search at `at`, and moves the buffer into
  // place unless an assertion stops it, or dispatching ends once all pages have been taken.
  datatype CopyStep =
    | Eager(h: nat, j: nat)
    | Fault(addr: Addr, u: nat, j: nat)
    | Test(j: nat)
    | Place(j: nat, u: nat, at: Option<nat>)
    | StopHandling

  // Nothing keeps a job from filling but what it found when it tested.
  ghost predicate Enabled(cs: CopyState, step: CopyStep) {
    var w := cs.work;
    match step
    case Eager(h, j) => h in w.eager && j !in w.jobs
    case Fault(addr, u, j) =>
      w.handling && InSpace(cs.plan.m.table, addr) && InUnit(cs.plan.m.table, u, addr) && j !in w.jobs
    case Test(j) => j in w.jobs && w.jobs[j].Testing?
    case Place(j, u, at) =>
      && j in w.jobs && w.jobs[j] == Filling(u)
      && (cs.plan.m.table.Has(u) ==> SearchedAt(cs.plan, u, at))
    case StopHandling => w.handling && w.eager == {}
  }

  function Tested(w: Work, j: nat): Work
    requires j in w.jobs && w.jobs[j].Testing?
  {
    var u := w.jobs[j].unit;
    if u in w.bits then w.(jobs := w.jobs[j := Over])
    else w.(bits := w.bits + {u}, jobs := w.jobs[j := Filling(u)])
  }

  ghost function WorkNext(cs: CopyState, step: CopyStep): Work
    requires Enabled(cs, step)
  {
    var w := cs.work;
    match step
    case Eager(h, j) => w.(eager := w.eager - {h}, jobs := w.jobs[j := Testing(h)])
    case Fault(_, u, j) => w.(jobs := w.jobs[j := Testing(u)])
    case Test(j) => Tested(w, j)
    case Place(j, u, at) =>
      if Fires(cs.plan, u, at) then w.(jobs := w.jobs[j := Failed(u)])
      else w.(filled := w.filled + {u}, jobs := w.jobs[j := Over])
    case StopHandling => w.(handling := false)
  }

  ghost predicate Fills(cs: CopyState, step: CopyStep)
    requires Enabled(cs, step)
  {
    step.Place? && !Fires(cs.plan, step.u, step.at)
  }

  ghost function CopyNext(cs: CopyState, step: CopyStep): (r: CopyState)
    requires Ready(cs.plan) && Enabled(cs, step)
    ensures r.plan == cs.plan
  {
    CopyState(
      cs.plan,
      WorkNext(cs, step),
      if Fills(cs, step) then cs.program.(heap := Put(cs.plan, cs.program.heap, step.u, step.at)) else cs.program)
  }

  // The program may use an object only where its page is present; everything else blocks. A new
  // object gets memory of its own, and is written to all of it.
  ghost predicate Unblocked(cs: CopyState, op: Op)
    requires Ready(cs.plan)
  {
    && Allowed(cs.program, op)
    && (op.New? ==> op.at !in Full(cs).heap && op.size > 0 && AllPresent(cs, op.at, op.size))
  }

  // ----- The bitmap's work -----

  lemma TestBits(w: Work, j: nat)
    requires BitsOk(w) && j in w.jobs && w.jobs[j].Testing?
    ensures BitsOk(Tested(w, j))
  {
    var w' := Tested(w, j);
    forall u | u in w'.bits ensures u in w'.filled || Taken(w'.jobs, u) {
      if u in w.bits && u !in w.filled {
        TakenKept(w.jobs, w'.jobs, j, u);
      } else if u !in w.bits {
        assert Takes(w'.jobs[j], u);
      }
    }
  }

  lemma TakenKept(jobs: map<nat, Job>, jobs': map<nat, Job>, j: nat, u: nat)
    requires Taken(jobs, u) && forall k :: k in jobs && k != j ==> k in jobs' && jobs'[k] == jobs[k]
    requires j in jobs && Takes(jobs[j], u) ==> j in jobs' && Takes(jobs'[j], u)
    ensures Taken(jobs', u)
  {
    var k :| k in jobs && Takes(jobs[k], u);
    assert Takes(jobs'[k], u);
  }

  lemma PlaceBits(cs: CopyState, j: nat, u: nat, at: Option<nat>)
    requires BitsOk(cs.work) && Enabled(cs, Place(j, u, at))
    ensures BitsOk(WorkNext(cs, Place(j, u, at))) && u !in cs.work.filled && u in cs.work.bits
  {
    hide SearchedAt, Passed;
    var w, w' := cs.work, WorkNext(cs, Place(j, u, at));
    assert Takes(w.jobs[j], u);
    forall v | v in w'.bits ensures v in w'.filled || Taken(w'.jobs, v) {
      if v !in w.filled && v != u {
        TakenKept(w.jobs, w'.jobs, j, v);
      } else if v == u && Fires(cs.plan, u, at) {
        assert Takes(w'.jobs[j], u);
      }
    }
  }

  lemma AddBits(w: Work, j: nat, u: nat)
    requires BitsOk(w) && j !in w.jobs
    ensures BitsOk(w.(jobs := w.jobs[j := Testing(u)]))
  {
    var w' := w.(jobs := w.jobs[j := Testing(u)]);
    forall v | v in w'.bits ensures v in w'.filled || Taken(w'.jobs, v) {
      if v !in w.filled { TakenKept(w.jobs, w'.jobs, j, v); }
    }
  }

  // Every step keeps the bits to the units filled and taken, one job each.
  lemma WorkBits(cs: CopyState, step: CopyStep)
    requires BitsOk(cs.work) && Enabled(cs, step)
    ensures BitsOk(WorkNext(cs, step))
  {
    hide BitsOk, InUnit, InSpace, SearchedAt, Passed;
    match step {
      case Eager(h, j) =>
        AddBits(cs.work, j, h);
        EagerBits(cs.work.(jobs := cs.work.jobs[j := Testing(h)]), h, cs.work.handling);
      case Fault(_, u, j) => AddBits(cs.work, j, u);
      case Test(j) => TestBits(cs.work, j);
      case Place(j, u, at) => PlaceBits(cs, j, u, at);
      case StopHandling => EagerBits(cs.work, 0, false);
    }
  }

  // Only the bits, the jobs and what is filled matter to it.
  lemma EagerBits(w: Work, h: nat, handling: bool)
    requires BitsOk(w)
    ensures BitsOk(w.(eager := w.eager - {h}, handling := handling)) && BitsOk(w.(handling := handling))
  {
  }

  lemma WorkPages(cs: CopyState, step: CopyStep)
    requires Tiled(cs.plan.m.table) && PagesOk(cs.plan.m.table, cs.work) && Enabled(cs, step)
    ensures PagesOk(cs.plan.m.table, WorkNext(cs, step))
  {
    hide SearchedAt, Passed, Tiled;
    var w, w' := cs.work, WorkNext(cs, step);
    forall h: nat | cs.plan.m.table.Has(h) ensures h in w'.eager || h in w'.bits || Has(w'.jobs, Testing(h)) {
      if step.Eager? && step.h == h {
        assert w'.jobs[step.j] == Testing(h);
      } else if h !in w.eager && h !in w.bits {
        var k :| k in w.jobs && w.jobs[k] == Testing(h);
        if !(step.Test? && step.j == k) { assert w'.jobs[k] == Testing(h); }
      }
    }
    if step.Fault? { FaultUnit(cs.plan.m.table, step.u, step.addr); }
  }

  lemma FaultUnit(t: Table, u: nat, d: Addr)
    requires Tiled(t) && InSpace(t, d) && InUnit(t, u, d)
    ensures UnitOk(t, u)
  {
  }

  // A job is stopped only where an assertion fires.
  lemma WorkJobs(cs: CopyState, step: CopyStep)
    requires JobsOk(cs.plan, cs.work.jobs) && Enabled(cs, step)
    ensures JobsOk(cs.plan, WorkNext(cs, step).jobs)
  {
    hide SearchedAt, Passed, InUnit, InSpace;
  }

  // With increasing destinations no assertion fires.
  lemma OrderedPasses(p: Plan, u: nat, at: Option<nat>)
    requires Ready(p) && Increasing(p.m.grants) && p.m.table.Has(u) && SearchedAt(p, u, at)
    ensures Passed(p, u, at)
  {
    hide Ready, Increasing, SearchedAt, Passed;
    if !Passed(p, u, at) { NotPassed(p, u, at); }
  }

  lemma OrderedJobs(cs: CopyState)
    requires CopyInv(cs)
    ensures NoneFailed(cs.work)
  {
    hide Ready, Increasing, SearchedAt, Passed, BitsOk, PagesOk, HeapOk, Sound;
    forall j | j in cs.work.jobs && cs.work.jobs[j].Failed? ensures false {
      var at :| SearchedAt(cs.plan, cs.work.jobs[j].unit, at) && !Passed(cs.plan, cs.work.jobs[j].unit, at);
      OrderedPasses(cs.plan, cs.work.jobs[j].unit, at);
    }
  }

  // A page's share of the relocated heap.
  ghost function Share(p: Plan, u: nat): Heap
    requires Ready(p)
  {
    if p.m.table.Has(u) then PageImage(p, u) else map[]
  }

  // The addresses of a unit are a range.
  function UnitSize(t: Table, u: nat): nat {
    if t.Has(u) then t.Page(u).Size() else BASE_PAGE_SIZE
  }

  lemma UnitRange(t: Table, u: nat, d: Addr)
    requires Tiled(t) && UnitOk(t, u)
    ensures t.Has(u) ==> t.Page(u).start == t.base + u * BASE_PAGE_SIZE
    ensures var lo := t.base + u * BASE_PAGE_SIZE;
      InUnit(t, u, d) <==> lo <= d < lo + UnitSize(t, u)
  {
    if t.Has(u) {
      assert PageOk(t, u);
      if d >= t.End() { NoneHolds(t, d); }
      if Holds(t, u, d) { HolderIsUsed(t, u, d); }
      if InUnit(t, u, d) && !Holds(t, u, d) { BeyondUsed(t, u, d); }
    }
  }

  lemma BeyondUsed(t: Table, u: nat, d: Addr)
    requires Tiled(t) && t.Has(u) && d >= t.End()
    ensures u != (d - t.base) / BASE_PAGE_SIZE
  {
    HolderIsUsed(t, u, t.Page(u).start);
  }

  lemma ShareIs(p: Plan, u: nat, d: Addr)
    requires Ready(p)
    ensures d in Share(p, u) <==> d in ImageOf(p) && Holds(p.m.table, u, d)
    ensures d in Share(p, u) ==> Share(p, u)[d] == ImageOf(p)[d]
  {
    hide Ready, ImageOf, PageImage;
    if p.m.table.Has(u) { InItsPage(p, u, d); }
  }

  lemma ImageInSpace(p: Plan, d: Addr) returns (h: nat)
    requires Ready(p) && d in ImageOf(p)
    ensures Holds(p.m.table, h, d) && InSpace(p.m.table, d)
    ensures forall v: nat :: InUnit(p.m.table, v, d) ==> v == h
  {
    hide Ready, ImageOf;
    h := PageOfImage(p, d);
    PlanTiled(p);
    HolderIsUsed(p.m.table, h, d);
  }

  lemma PresentIff(cs: CopyState, d: Addr, u: nat)
    requires Ready(cs.plan) && InSpace(cs.plan.m.table, d) && InUnit(cs.plan.m.table, u, d)
    ensures Present(cs, d) <==> u in cs.work.filled
  {
    PlanTiled(cs.plan);
    hide Ready, InUnit;
    var v := UnitExists(cs.plan.m.table, d);
  }

  lemma HoldsIsInUnit(t: Table, u: nat, d: Addr)
    requires Holds(t, u, d)
    ensures InUnit(t, u, d)
  {
  }

  lemma NotInPlace(cs: CopyState, d: Addr, u: nat, x: Addr)
    requires WorkInv(cs) && d in cs.program.heap && u !in cs.work.filled
    requires d <= x < d + cs.program.heap[d].size
    ensures !InUnit(cs.plan.m.table, u, x)
  {
    hide Ready, BroughtIn, Sound, PagesOk, BitsOk, JobsOk, InUnit, InSpace, Full;
    if InUnit(cs.plan.m.table, u, x) { PresentIff(cs, x, u); }
  }

  // What a unit's fill brings: the objects of the records its query delivered.
  ghost function Came(p: Plan, u: nat, at: Option<nat>): Heap
    requires Ready(p) && (p.m.table.Has(u) ==> SearchedAt(p, u, at))
  {
    if p.m.table.Has(u) then Copies(p, Delivered(p, u, at)) else map[]
  }

  lemma CameIs(p: Plan, u: nat, at: Option<nat>, d: Addr)
    requires Ready(p) && (p.m.table.Has(u) ==> SearchedAt(p, u, at)) && !Fires(p, u, at)
    ensures d in Came(p, u, at) ==>
      d in ImageOf(p) && Holds(p.m.table, u, d) && Came(p, u, at)[d] == ImageOf(p)[d]
    ensures p.m.table.Has(u) ==> (d in Came(p, u, at) <==> d in Starts(Delivered(p, u, at), p.m.table.base))
  {
    hide Ready, ImageOf, SearchResult, AllInPage, Deliver, Copies, Starts, Holds;
    if p.m.table.Has(u) {
      DeliveredAreRecords(p.records, at, PageHi(p.m.table, u));
      CopiesSpec(p, Delivered(p, u, at));
      DeliveredInPage(p, u, at, d);
    }
  }

  // A relocated object lies inside its page.
  lemma ImageInsidePage(p: Plan, h: nat, d: Addr)
    requires Ready(p) && d in ImageOf(p) && Holds(p.m.table, h, d)
    ensures ImageOf(p)[d].size > 0
    ensures forall x :: d <= x < d + ImageOf(p)[d].size ==> Holds(p.m.table, h, x) && InSpace(p.m.table, x)
  {
    hide Ready, ImageOf, MapOf, Holds, InSpace, Good;
    var i := ImageOnly(p, d);
    ImageAt(p, i);
    PlanRecorded(p);
    PlanObject(p, i);
    GrantInsidePage(p.m, i, h);
  }

  lemma GrantInsidePage(m: Placed, i: nat, h: nat)
    requires Good(m) && i < |m.grants| && m.grants[i].size > 0 && Holds(m.table, h, m.grants[i].addr)
    ensures forall x :: m.grants[i].addr <= x < m.grants[i].End() ==> Holds(m.table, h, x) && InSpace(m.table, x)
  {
    var g := m.grants[i];
    assert PageRuns.Inside(m.table, g) && PageOk(m.table, g.page);
    HolderIsUsed(m.table, g.page, g.addr);
    hide Tiled, Good;
  }

  // No byte of any object in place is in the unit.
  ghost predicate NoByteIn(cs: CopyState, u: nat) {
    && (forall d, x :: d in cs.program.heap && d <= x < d + cs.program.heap[d].size ==>
          !InUnit(cs.plan.m.table, u, x))
    && (forall d :: d in cs.program.heap ==> !InUnit(cs.plan.m.table, u, d))
  }

  // The job can move its unit into place, and no assertion fires.
  ghost predicate Moves(cs: CopyState, j: nat, u: nat, at: Option<nat>) {
    Enabled(cs, Place(j, u, at)) && !Fires(cs.plan, u, at)
  }

  // It puts these objects into place and does nothing else to the heap.
  ghost predicate Adds(cs: CopyState, step: CopyStep, more: Heap) {
    && Ready(cs.plan) && Enabled(cs, step) && more.Keys !! cs.program.heap.Keys
    && CopyNext(cs, step).program == cs.program.(heap := cs.program.heap + more)
  }

  // What the query delivered.
  ghost predicate AddsDelivered(cs: CopyState, j: nat, u: nat, at: Option<nat>) {
    Ready(cs.plan) && Moves(cs, j, u, at) && Adds(cs, Place(j, u, at), Came(cs.plan, u, at))
  }

  // The page's share of the relocated heap.
  ghost predicate AddsShare(cs: CopyState, j: nat, u: nat, at: Option<nat>) {
    Ready(cs.plan) && Moves(cs, j, u, at) && Adds(cs, Place(j, u, at), Share(cs.plan, u))
  }

  ghost predicate KeepsFull(cs: CopyState, step: CopyStep) {
    Ready(cs.plan) && Enabled(cs, step) && Full(CopyNext(cs, step)) == Full(cs)
  }

  ghost predicate KeepsVirtual(cs: CopyState, step: CopyStep) {
    Ready(cs.plan) && Enabled(cs, step) && Virtual(CopyNext(cs, step)) == Virtual(cs)
  }

  ghost predicate LeavesHeapOk(cs: CopyState, step: CopyStep) {
    Ready(cs.plan) && Enabled(cs, step) && HeapOk(CopyNext(cs, step))
  }

  // In whatever order destinations came out, a unit that is moved into place had no byte of any
  // object in it, and brings some of its relocated objects.
  lemma PlaceAdds(cs: CopyState, j: nat, u: nat, at: Option<nat>)
    requires WorkInv(cs) && Moves(cs, j, u, at)
    ensures NoByteIn(cs, u) && AddsDelivered(cs, j, u, at)
  {
    hide Ready, ImageOf, BroughtIn, Sound, JobsOk, BitsOk, InUnit, InSpace, SearchedAt, Passed, Present, Copies, Full,
      Came, Filled, Put, AllPresent, Holds;
    PlaceBits(cs, j, u, at);
    forall d, x | d in cs.program.heap && d <= x < d + cs.program.heap[d].size
      ensures !InUnit(cs.plan.m.table, u, x)
    {
      NotInPlace(cs, d, u, x);
    }
    PutAdds(cs.plan, cs.program.heap, u, at);
    forall d | d in Came(cs.plan, u, at) ensures d !in cs.program.heap {
      CameIs(cs.plan, u, at, d);
      HoldsIsInUnit(cs.plan.m.table, u, d);
    }
  }

  lemma PutAdds(p: Plan, heap: Heap, u: nat, at: Option<nat>)
    requires Ready(p) && UnitOk(p.m.table, u) && (p.m.table.Has(u) ==> SearchedAt(p, u, at))
    requires forall d :: d in heap ==> !InUnit(p.m.table, u, d)
    ensures Put(p, heap, u, at) == heap + Came(p, u, at)
  {
    hide *;
    PlanTiled(p);
    PutIs(p, heap, u, at);
    assert Without(p.m.table, heap, u) == heap by { ClearsNone(p.m.table, heap, u); }
  }

  // A heap without what is in a unit.
  ghost function Without(t: Table, heap: Heap, u: nat): Heap {
    map d | d in heap.Keys && !InUnit(t, u, d) :: heap[d]
  }

  lemma ClearsNone(t: Table, heap: Heap, u: nat)
    requires forall d :: d in heap ==> !InUnit(t, u, d)
    ensures Without(t, heap, u) == heap
  {
    hide InUnit;
  }

  lemma OutsideIs(t: Table, heap: Heap, u: nat)
    requires Tiled(t) && UnitOk(t, u)
    ensures t.Has(u) ==> t.Page(u).start == t.base + u * BASE_PAGE_SIZE
    ensures var lo := t.base + u * BASE_PAGE_SIZE; Outside(heap, lo, lo + UnitSize(t, u)) == Without(t, heap, u)
  {
    hide InUnit, Tiled, UnitSize, UnitOk;
    var lo := t.base + u * BASE_PAGE_SIZE;
    UnitRange(t, u, lo);
    forall d | d in heap ensures InUnit(t, u, d) <==> lo <= d < lo + UnitSize(t, u) {
      UnitRange(t, u, d);
    }
  }

  // All of the unit is replaced.
  lemma PutIs(p: Plan, heap: Heap, u: nat, at: Option<nat>)
    requires Ready(p) && UnitOk(p.m.table, u) && (p.m.table.Has(u) ==> SearchedAt(p, u, at))
    ensures Put(p, heap, u, at) == Without(p.m.table, heap, u) + Came(p, u, at)
  {
    hide Ready, ImageOf, SearchResult, Copies, InUnit, Without, Outside, Tiled, UnitOk, Delivered;
    PlanTiled(p);
    OutsideIs(p.m.table, heap, u);
  }

  lemma PlaceKeepsFull(cs: CopyState, j: nat, u: nat, at: Option<nat>)
    requires WorkInv(cs) && Moves(cs, j, u, at)
    ensures KeepsFull(cs, Place(j, u, at))
  {
    hide Ready, ImageOf, BroughtIn, Sound, JobsOk, BitsOk, InUnit, InSpace, SearchedAt, Passed, Present, Came, HeapOk,
      Put, Holds;
    PlaceAdds(cs, j, u, at);
    forall d | d in Came(cs.plan, u, at)
      ensures d in ImageOf(cs.plan) && d !in cs.program.heap && Came(cs.plan, u, at)[d] == ImageOf(cs.plan)[d]
    {
      CameIs(cs.plan, u, at, d);
      HoldsIsInUnit(cs.plan.m.table, u, d);
    }
    assert Full(CopyNext(cs, Place(j, u, at))).heap == Full(cs).heap;
  }

  lemma PlaceKeepsHeapOk(cs: CopyState, j: nat, u: nat, at: Option<nat>)
    requires WorkInv(cs) && Moves(cs, j, u, at)
    ensures LeavesHeapOk(cs, Place(j, u, at))
  {
    hide Ready, ImageOf, BroughtIn, Sound, JobsOk, BitsOk, InUnit, InSpace, SearchedAt, Passed, Came, Put, Full, Holds;
    PlaceAdds(cs, j, u, at);
    var cs' := CopyNext(cs, Place(j, u, at));
    assert forall x :: Present(cs, x) ==> Present(cs', x);
    forall d | d in cs'.program.heap
      ensures cs'.program.heap[d].size > 0 && AllPresent(cs', d, cs'.program.heap[d].size)
    {
      if d in Came(cs.plan, u, at) {
        CameIs(cs.plan, u, at, d);
        ImageInsidePage(cs.plan, u, d);
        forall x | d <= x < d + ImageOf(cs.plan)[d].size ensures Present(cs', x) {
          HoldsIsInUnit(cs.plan.m.table, u, x);
        }
      }
    }
    forall h: nat | h in cs'.work.filled && cs.plan.m.table.Has(h) ensures BroughtIn(cs.plan, h, cs'.program.heap) {
      FillBrings(cs, u, at, h);
    }
  }

  lemma FillBrings(cs: CopyState, u: nat, at: Option<nat>, h: nat)
    requires Ready(cs.plan) && cs.plan.m.table.Has(h)
    requires (cs.plan.m.table.Has(u) ==> SearchedAt(cs.plan, u, at)) && !Fires(cs.plan, u, at)
    requires forall d :: d in cs.program.heap ==> !InUnit(cs.plan.m.table, u, d)
    requires h != u ==> BroughtIn(cs.plan, h, cs.program.heap)
    ensures BroughtIn(cs.plan, h, cs.program.heap + Came(cs.plan, u, at))
  {
    hide Ready, ImageOf, SearchResult, Came, PageImage, InUnit, Holds, Starts, Delivered, AllInPage;
    var heap, heap' := cs.program.heap, cs.program.heap + Came(cs.plan, u, at);
    PlanTiled(cs.plan);
    forall d | d in PageImage(cs.plan, h)
      ensures h != u ==> (d in heap' <==> d in heap)
      ensures h == u ==> (d in heap' <==> d in Starts(Delivered(cs.plan, u, at), cs.plan.m.table.base))
    {
      InItsPage(cs.plan, h, d);
      CameIs(cs.plan, u, at, d);
      HoldsIsInUnit(cs.plan.m.table, h, d);
      HolderIsUsed(cs.plan.m.table, h, d);
    }
    if h == u {
      assert Brought(cs.plan, h, at, heap');
    } else {
      var a :| Brought(cs.plan, h, a, heap);
      assert Brought(cs.plan, h, a, heap');
    }
  }

  lemma FilledKept(cs: CopyState, step: CopyStep)
    requires Enabled(cs, step) && !Fills(cs, step)
    ensures WorkNext(cs, step).filled == cs.work.filled
  {
    hide InUnit, InSpace, SearchedAt, Passed;
  }

  // Every step keeps the invariant, and everything but for its order.
  lemma WorkStep(cs: CopyState, step: CopyStep)
    requires WorkInv(cs) && Enabled(cs, step)
    ensures WorkInv(CopyNext(cs, step)) && Full(CopyNext(cs, step)) == Full(cs)
  {
    PlanTiled(cs.plan);
    hide *;
    WorkParts(cs);
    WorkBits(cs, step);
    WorkPages(cs, step);
    WorkJobs(cs, step);
    HeapStep(cs, step);
    NextShape(cs, step);
    WorkWhole(CopyNext(cs, step));
  }

  lemma WorkParts(cs: CopyState)
    requires WorkInv(cs)
    ensures Ready(cs.plan) && BitsOk(cs.work) && PagesOk(cs.plan.m.table, cs.work) && JobsOk(cs.plan, cs.work.jobs)
    ensures HeapOk(cs) && Sound(Full(cs))
  {
    hide Ready, BitsOk, PagesOk, JobsOk, HeapOk, Sound, Full;
  }

  lemma WorkWhole(cs: CopyState)
    requires Ready(cs.plan) && BitsOk(cs.work) && PagesOk(cs.plan.m.table, cs.work) && JobsOk(cs.plan, cs.work.jobs)
    requires HeapOk(cs) && Sound(Full(cs))
    ensures WorkInv(cs)
  {
    hide Ready, BitsOk, PagesOk, JobsOk, HeapOk, Sound, Full;
  }

  lemma NextShape(cs: CopyState, step: CopyStep)
    requires Ready(cs.plan) && Enabled(cs, step)
    ensures CopyNext(cs, step).plan == cs.plan && CopyNext(cs, step).work == WorkNext(cs, step)
  {
    hide Ready, Enabled, WorkNext, Put, Fills;
  }

  lemma HeapStep(cs: CopyState, step: CopyStep)
    requires WorkInv(cs) && Enabled(cs, step)
    ensures HeapOk(CopyNext(cs, step)) && Full(CopyNext(cs, step)) == Full(cs)
  {
    hide Ready, ImageOf, Put, BroughtIn, Sound, InUnit, BitsOk, PagesOk, JobsOk, InSpace, Fires, WorkNext;
    if Fills(cs, step) {
      PlaceKeepsFull(cs, step.j, step.u, step.at);
      PlaceKeepsHeapOk(cs, step.j, step.u, step.at);
    } else {
      FilledKept(cs, step);
      assert forall d :: Present(CopyNext(cs, step), d) <==> Present(cs, d);
    }
  }

  // ----- In order -----

  // What a page's query brings is the page's share, because destinations increase: its search may
  // stop anywhere, but then the record before is of an earlier page and the run ends with the page.
  lemma CameIsShare(p: Plan, u: nat, at: Option<nat>)
    requires Ready(p) && Increasing(p.m.grants) && (p.m.table.Has(u) ==> SearchedAt(p, u, at))
    ensures !Fires(p, u, at) && Came(p, u, at) == Share(p, u)
  {
    hide Ready, ImageOf, PageImage, Increasing, SearchResult, Served, Copies, AllInPage, Deliver;
    if p.m.table.Has(u) {
      ServedWhenIncreasing(p, u);
      assert Served(p.m.table, p.records, u, at);
      ServedCopies(p, u, at);
    }
  }

  // So a present page has all its objects.
  lemma PresentIsThere(cs: CopyState, d: Addr)
    requires CopyInv(cs) && d in ImageOf(cs.plan) && Present(cs, d)
    ensures d in cs.program.heap
  {
    hide Ready, ImageOf, PageImage, Increasing, Sound, JobsOk, PagesOk, BitsOk, InUnit, Passed, Starts, Delivered, Full;
    var h := ImageInSpace(cs.plan, d);
    InItsPage(cs.plan, h, d);
    var at :| Brought(cs.plan, h, at, cs.program.heap);
    BroughtAll(cs.plan, h, at, d);
  }

  // And nothing is lost: what is in place and still to come is everything.
  lemma VirtualIsFull(cs: CopyState)
    requires CopyInv(cs)
    ensures Virtual(cs) == Full(cs)
  {
    hide Ready, ImageOf, Increasing, Sound, JobsOk, PagesOk, BitsOk, HeapOk, Present;
    forall d | d in ImageOf(cs.plan) && Present(cs, d) ensures d in cs.program.heap {
      PresentIsThere(cs, d);
    }
    assert Virtual(cs).heap == Full(cs).heap;
  }

  // With increasing destinations a job that fills a unit meets no assertion and changes nothing
  // the program could have seen: no byte of any object was in the unit, the unit's share of the
  // relocated heap is put there, and the space as a whole is what it was going to be.
  lemma PlaceKeepsVirtual(cs: CopyState, j: nat, u: nat, at: Option<nat>)
    requires CopyInv(cs) && Enabled(cs, Place(j, u, at))
    ensures NoByteIn(cs, u) && AddsShare(cs, j, u, at) && KeepsVirtual(cs, Place(j, u, at))
  {
    hide Ready, ImageOf, Share, Came, Increasing, Sound, PagesOk, BitsOk, JobsOk, HeapOk, InUnit, InSpace, SearchedAt,
      Passed, Put, Full, Virtual, Fires, Holds;
    CameIsShare(cs.plan, u, at);
    PlaceAdds(cs, j, u, at);
    WorkStep(cs, Place(j, u, at));
    VirtualIsFull(cs);
    VirtualIsFull(CopyNext(cs, Place(j, u, at)));
  }

  // Every step keeps the invariant, the order of the destinations and what the space will be.
  lemma CopyStepInv(cs: CopyState, step: CopyStep)
    requires CopyInv(cs) && Enabled(cs, step)
    ensures CopyInv(CopyNext(cs, step)) && Virtual(CopyNext(cs, step)) == Virtual(cs)
  {
    hide Ready, WorkInv, Virtual, Full, Enabled, Fills, WorkNext, Increasing;
    CopyInvIs(cs);
    WorkStep(cs, step);
    VirtualIsFull(cs);
    VirtualIsFull(CopyNext(cs, step));
  }

  lemma CopyInvIs(cs: CopyState)
    requires WorkInv(cs)
    ensures Ready(cs.plan) && Sound(Full(cs))
  {
  }

  ghost predicate SameIn(t: Table, u: nat, heap: Heap, share: Heap) {
    forall d :: d in heap && InUnit(t, u, d) ==> d in share && heap[d] == share[d]
  }

  ghost function Refilled(cs: CopyState, u: nat, at: Option<nat>): CopyState
    requires Ready(cs.plan) && (cs.plan.m.table.Has(u) ==> SearchedAt(cs.plan, u, at))
  {
    cs.(program := cs.program.(heap := Put(cs.plan, cs.program.heap, u, at)))
  }

  // What the bit guards against: moving a unit into place leaves the space what it was going to be
  // if and only if nothing in that unit is new or changed since it was filled.
  lemma RefillHarmlessIff(cs: CopyState, u: nat, at: Option<nat>)
    requires CopyInv(cs) && UnitOk(cs.plan.m.table, u)
    requires cs.plan.m.table.Has(u) ==> SearchedAt(cs.plan, u, at)
    ensures Virtual(Refilled(cs, u, at)) == Virtual(cs)
       <==> SameIn(cs.plan.m.table, u, cs.program.heap, Share(cs.plan, u))
  {
    CopyInvIs(cs);
    hide Ready, ImageOf, Share, Increasing, WorkInv, InUnit, SearchedAt, Put, Full, Present, Came;
    var cs' := Refilled(cs, u, at);
    PutIs(cs.plan, cs.program.heap, u, at);
    CameIsShare(cs.plan, u, at);
    SameToCome(cs, cs');
    forall d | d in cs.program.heap && d in ToCome(cs) ensures false { ToComeIsNotThere(cs, d); }
    forall d: Addr
      ensures d in Share(cs.plan, u) ==> d in Virtual(cs).heap && InUnit(cs.plan.m.table, u, d)
      ensures d in Share(cs.plan, u) && d !in cs.program.heap ==> d in ToCome(cs)
      ensures InUnit(cs.plan.m.table, u, d) && d in ToCome(cs) ==>
        d in Share(cs.plan, u) && Share(cs.plan, u)[d] == ToCome(cs)[d]
    {
      SharedUnit(cs, u, d);
    }
    RefillsSame(cs.plan.m.table, u, ToCome(cs), cs.program.heap, Share(cs.plan, u));
  }

  // Putting a share where some of it is in place and the rest to come.
  lemma RefillsSame(t: Table, u: nat, rest: Heap, heap: Heap, share: Heap)
    requires rest.Keys !! heap.Keys
    requires forall d :: d in share ==> InUnit(t, u, d) && (d in heap || d in rest)
    requires forall d :: d in rest && InUnit(t, u, d) ==> d in share && share[d] == rest[d]
    ensures rest + (Without(t, heap, u) + share) == rest + heap <==> SameIn(t, u, heap, share)
  {
    hide InUnit;
    var v, v' := rest + heap, rest + (Without(t, heap, u) + share);
    if v == v' {
      forall d | d in heap && InUnit(t, u, d) ensures d in share && heap[d] == share[d] {
        assert d in v && d in v' && v[d] == v'[d];
      }
    }
    if SameIn(t, u, heap, share) {
      forall d: Addr ensures d in v <==> d in v' ensures d in v && d in v' ==> v[d] == v'[d] {
      }
    }
  }

  lemma ToComeIsNotThere(cs: CopyState, d: Addr)
    requires WorkInv(cs) && d in ToCome(cs)
    ensures d !in cs.program.heap
  {
    hide Ready, ImageOf, BitsOk, PagesOk, JobsOk, BroughtIn, Sound, Full, Present;
  }

  lemma SameToCome(cs: CopyState, cs': CopyState)
    requires Ready(cs.plan) && cs'.plan == cs.plan && cs'.work == cs.work
    ensures ToCome(cs') == ToCome(cs)
  {
    hide Ready, ImageOf, InUnit;
    assert forall d :: Present(cs', d) <==> Present(cs, d);
  }

  // In a unit, what is in place or to come includes its share, and what is to come is of its share.
  lemma SharedUnit(cs: CopyState, u: nat, d: Addr)
    requires CopyInv(cs)
    ensures d in Share(cs.plan, u) ==> d in Virtual(cs).heap && InUnit(cs.plan.m.table, u, d)
    ensures d in Share(cs.plan, u) && d !in cs.program.heap ==> d in ToCome(cs)
    ensures InUnit(cs.plan.m.table, u, d) && d in ToCome(cs) ==>
      d in Share(cs.plan, u) && Share(cs.plan, u)[d] == ToCome(cs)[d]
  {
    hide Ready, ImageOf, Share, Increasing, Sound, PagesOk, BitsOk, JobsOk, HeapOk, InUnit, InSpace, Present, Full;
    ShareIs(cs.plan, u, d);
    if d in Share(cs.plan, u) {
      HoldsIsInUnit(cs.plan.m.table, u, d);
      if Present(cs, d) { PresentIsThere(cs, d); }
    }
    if InUnit(cs.plan.m.table, u, d) && d in ToCome(cs) {
      var h := ImageInSpace(cs.plan, d);
    }
  }

  // ----- Program steps -----

  ghost function ProgramNext(cs: CopyState, op: Op, mark: Bit): CopyState
    requires Allowed(cs.program, op)
  {
    cs.(program := Do(cs.program, op, mark))
  }

  // A path that can be followed in part of a heap leads to the same place in all of it.
  lemma {:induction false} FollowInside(h: Heap, v: Heap, a: Addr, path: seq<nat>)
    requires Inside(h, v) && Follow(h, a, path).Some?
    ensures Follow(v, a, path) == Follow(h, a, path)
    decreases |path|
  {
    if path != [] { FollowInside(h, v, h[a].fields[path[0]].value, path[1..]); }
  }

  ghost predicate Inside(h: Heap, v: Heap) {
    forall d :: d in h ==> d in v && v[d] == h[d]
  }

  lemma TargetInside(w: World, v: World, obj: nat, path: seq<nat>)
    requires Inside(w.heap, v.heap) && v.roots == w.roots && Target(w, obj, path).Some?
    ensures Target(v, obj, path) == Target(w, obj, path)
  {
    FollowInside(w.heap, v.heap, w.roots[obj], path);
  }

  lemma DoInside(img: Heap, w: World, op: Op, mark: Bit)
    requires Allowed(w, op) && (op.New? ==> op.at !in img)
    ensures var v := World(img + w.heap, w.roots);
      Allowed(v, op) && Do(v, op, mark) == World(img + Do(w, op, mark).heap, Do(w, op, mark).roots)
  {
    var v := World(img + w.heap, w.roots);
    if op.Store? || op.Write? {
      TargetInside(w, v, op.obj, op.path);
      var a := Target(w, op.obj, op.path).value;
      UpdateInside(img, w.heap, a, Do(w, op, mark).heap[a]);
      hide Target, Inside;
    } else if op.New? {
      UpdateInside(img, w.heap, op.at, Fresh(op, mark));
    }
  }

  lemma UpdateInside(img: Heap, h: Heap, a: Addr, o: Obj)
    ensures (img + h)[a := o] == img + h[a := o]
  {
  }

  lemma DoKeys(w: World, op: Op, mark: Bit)
    requires Allowed(w, op)
    ensures Do(w, op, mark).heap.Keys == w.heap.Keys + if op.New? then {op.at} else {}
    ensures forall a :: a in w.heap ==> (op.New? && a == op.at) || Do(w, op, mark).heap[a].size == w.heap[a].size
    ensures op.New? ==> Do(w, op, mark).heap[op.at].size == op.size
  {
  }

  // What the program does to the objects in place is what it would have done to everything.
  lemma ProgramFull(cs: CopyState, op: Op, mark: Bit)
    requires WorkInv(cs) && Unblocked(cs, op)
    ensures Allowed(Full(cs), op) && Full(ProgramNext(cs, op, mark)) == Do(Full(cs), op, mark)
  {
    hide Ready, ImageOf, HeapOk, Sound, BitsOk, PagesOk, JobsOk, AllPresent, Do;
    DoInside(ImageOf(cs.plan), cs.program, op, mark);
  }

  lemma ProgramWork(cs: CopyState, op: Op, mark: Bit)
    requires WorkInv(cs) && Unblocked(cs, op)
    ensures WorkInv(ProgramNext(cs, op, mark))
  {
    ProgramFull(cs, op, mark);
    DoSound(Full(cs), op, mark);
    ProgramHeap(cs, op, mark);
    hide Ready, ImageOf, Sound, HeapOk, Do, Allowed, Full;
  }

  lemma ProgramHeap(cs: CopyState, op: Op, mark: Bit)
    requires WorkInv(cs) && Unblocked(cs, op)
    ensures HeapOk(ProgramNext(cs, op, mark))
  {
    hide Ready, ImageOf, Sound, InUnit, InSpace, Allowed, Do, BitsOk, PagesOk, JobsOk, Passed, PageImage, Starts,
      Delivered;
    var heap, cs' := cs.program.heap, ProgramNext(cs, op, mark);
    DoKeys(cs.program, op, mark);
    assert forall d :: Present(cs', d) <==> Present(cs, d);
    hide Present;
    forall h: nat | h in cs.work.filled && cs.plan.m.table.Has(h) ensures BroughtIn(cs.plan, h, cs'.program.heap) {
      var at :| Brought(cs.plan, h, at, heap);
      forall d | d in PageImage(cs.plan, h) ensures d in cs'.program.heap <==> d in heap {
        InItsPage(cs.plan, h, d);
      }
      assert Brought(cs.plan, h, at, cs'.program.heap);
    }
  }

  // In order, that is what it would have done to the world that is in place and to come.
  lemma ProgramVirtual(cs: CopyState, op: Op, mark: Bit)
    requires CopyInv(cs) && Unblocked(cs, op)
    ensures CopyInv(ProgramNext(cs, op, mark))
    ensures Allowed(Virtual(cs), op)
    ensures Virtual(ProgramNext(cs, op, mark)) == Do(Virtual(cs), op, mark)
  {
    assert Allowed(cs.program, op);
    hide Virtual, Full, WorkInv, Unblocked, Increasing, Ready, Do, Allowed;
    CopyInvIs(cs);
    ProgramFull(cs, op, mark);
    ProgramWork(cs, op, mark);
    CopyInvIs(ProgramNext(cs, op, mark));
    VirtualIsFull(cs);
    VirtualIsFull(ProgramNext(cs, op, mark));
  }

  // The objects read on the way along a path, up to the one at its end.
  function Trail(h: Heap, a: Addr, path: seq<nat>): (r: seq<Addr>)
    ensures |r| <= |path| + 1
    decreases |path|
  {
    [a] + (if path != [] && a in h && path[0] < |h[a].fields| && h[a].fields[path[0]].Some?
           then Trail(h, h[a].fields[path[0]].value, path[1..]) else [])
  }

  // One address in each base page that these bytes meet.
  function Bases(base: Addr, at: Addr, size: nat): seq<Addr>
    requires at >= base && size > 0
  {
    var first, last := (at - base) / BASE_PAGE_SIZE, (at + size - 1 - base) / BASE_PAGE_SIZE;
    seq(last - first + 1, k requires k >= 0 => base + (first + k) * BASE_PAGE_SIZE)
  }

  // The addresses an operation touches: every page of a new object, and every object on a path.
  ghost function Touched(base: Addr, w: World, op: Op): seq<Addr>
    requires Allowed(w, op) && (op.New? ==> op.at >= base && op.size > 0)
  {
    match op
    case New(_, at, _, size, _, _) => Bases(base, at, size)
    case Load(_, from, _) => [w.roots[from]]
    case Store(o, path, _, _) => Trail(w.heap, w.roots[o], path)
    case Write(o, path, _, _) => Trail(w.heap, w.roots[o], path)
    case Drop(_) => []
  }

  // Addresses of one base page are in the same unit.
  lemma SamePage(t: Table, u: nat, x: Addr, y: Addr)
    requires Tiled(t) && x >= t.base && y >= t.base
    requires (x - t.base) / BASE_PAGE_SIZE == (y - t.base) / BASE_PAGE_SIZE
    ensures InUnit(t, u, x) <==> InUnit(t, u, y)
  {
    if t.Has(u) { assert PageOk(t, u); }
    assert BASE_PAGE_SIZE > 0;
  }

  lemma PagePresent(cs: CopyState, x: Addr, y: Addr)
    requires Tiled(cs.plan.m.table) && x >= cs.plan.m.table.base && y >= cs.plan.m.table.base
    requires (x - cs.plan.m.table.base) / BASE_PAGE_SIZE == (y - cs.plan.m.table.base) / BASE_PAGE_SIZE
    ensures Present(cs, x) <==> Present(cs, y)
  {
    hide Tiled, InUnit;
    forall u: nat ensures InUnit(cs.plan.m.table, u, x) <==> InUnit(cs.plan.m.table, u, y) {
      SamePage(cs.plan.m.table, u, x, y);
    }
  }

  lemma BaseOfByte(base: Addr, at: Addr, size: nat, x: Addr) returns (d: Addr)
    requires at >= base && at <= x < at + size
    ensures d in Bases(base, at, size) && d >= base && (d - base) / BASE_PAGE_SIZE == (x - base) / BASE_PAGE_SIZE
  {
    var first, i := (at - base) / BASE_PAGE_SIZE, (x - base) / BASE_PAGE_SIZE;
    d := base + i * BASE_PAGE_SIZE;
    assert first <= i <= (at + size - 1 - base) / BASE_PAGE_SIZE;
    assert Bases(base, at, size)[i - first] == d;
  }

  lemma ByteOfBase(base: Addr, at: Addr, size: nat, d: Addr) returns (x: Addr)
    requires at >= base && size > 0 && d in Bases(base, at, size)
    ensures at <= x < at + size && d >= base && (d - base) / BASE_PAGE_SIZE == (x - base) / BASE_PAGE_SIZE
  {
    var first := (at - base) / BASE_PAGE_SIZE;
    var k: nat :| k < |Bases(base, at, size)| && Bases(base, at, size)[k] == d;
    assert d == base + (first + k) * BASE_PAGE_SIZE;
    x := if k == 0 then at else d;
  }

  lemma BasesPresent(cs: CopyState, at: Addr, size: nat)
    requires Tiled(cs.plan.m.table) && at >= cs.plan.m.table.base && size > 0
    requires forall x :: at <= x < at + size ==> InSpace(cs.plan.m.table, x)
    ensures AllPresent(cs, at, size) <==> forall d :: d in Bases(cs.plan.m.table.base, at, size) ==> Present(cs, d)
  {
    hide Tiled, Present, Bases, InSpace;
    var base := cs.plan.m.table.base;
    if AllPresent(cs, at, size) {
      forall d | d in Bases(base, at, size) ensures Present(cs, d) {
        var x := ByteOfBase(base, at, size, d);
        PagePresent(cs, x, d);
      }
    }
    if forall d :: d in Bases(base, at, size) ==> Present(cs, d) {
      forall x | at <= x < at + size ensures Present(cs, x) {
        var d := BaseOfByte(base, at, size, x);
        PagePresent(cs, x, d);
      }
    }
  }

  // In part of a heap a path leads to an object exactly when everything on its trail is there.
  lemma {:induction false} TrailInside(h: Heap, v: Heap, a: Addr, path: seq<nat>)
    requires Inside(h, v) && Follow(v, a, path).Some? && Follow(v, a, path).value in v
    ensures forall d :: d in Trail(v, a, path) ==> d in v
    ensures (forall d :: d in Trail(v, a, path) ==> d in h)
       <==> Follow(h, a, path) == Follow(v, a, path) && Follow(v, a, path).value in h
    decreases |path|
  {
    assert Trail(v, a, path)[0] == a;
    if path != [] {
      var b := v[a].fields[path[0]].value;
      TrailInside(h, v, b, path[1..]);
      assert forall d :: d in Trail(v, a, path) <==> d == a || d in Trail(v, b, path[1..]);
    }
  }

  lemma InPlaceIff(cs: CopyState, d: Addr)
    requires WorkInv(cs) && d in Virtual(cs).heap
    ensures InSpace(cs.plan.m.table, d)
    ensures Present(cs, d) <==> d in cs.program.heap
  {
    hide Ready, ImageOf, Sound, BitsOk, PagesOk, JobsOk, BroughtIn, InUnit, Full;
    if d !in cs.program.heap { var h := ImageInSpace(cs.plan, d); }
  }

  lemma TouchedInside(base: Addr, w: World, v: World, op: Op)
    requires Inside(w.heap, v.heap) && w.roots == v.roots && Allowed(v, op) && !op.New?
    ensures Allowed(w, op) <==> forall d :: d in Touched(base, v, op) ==> d in w.heap
    ensures forall d :: d in Touched(base, v, op) ==> d in v.heap
  {
    if op.Store? || op.Write? {
      TrailInside(w.heap, v.heap, w.roots[op.obj], op.path);
      if Target(w, op.obj, op.path).Some? { TargetInside(w, v, op.obj, op.path); }
      hide Follow, Trail;
    } else if op.Load? {
      assert v.roots[op.from] in Touched(base, v, op);
    }
  }

  // The bytes of a new object lie in the space.
  ghost predicate Fitting(t: Table, op: Op) {
    op.New? ==> op.size > 0 && forall x :: op.at <= x < op.at + op.size ==> InSpace(t, x)
  }

  lemma FittingBase(t: Table, op: Op)
    requires Fitting(t, op)
    ensures op.New? ==> op.size > 0 && op.at >= t.base
  {
    if op.New? { assert InSpace(t, op.at); }
  }

  ghost predicate AllThere(cs: CopyState, ds: seq<Addr>) {
    forall d :: d in ds ==> Present(cs, d)
  }

  // The addresses an operation touches in this to-space.
  ghost function TouchedIn(cs: CopyState, op: Op): seq<Addr>
    requires Ready(cs.plan) && Allowed(Virtual(cs), op) && Fitting(cs.plan.m.table, op)
  {
    FittingBase(cs.plan.m.table, op);
    Touched(cs.plan.m.table.base, Virtual(cs), op)
  }

  // Whatever is allowed on what is in place and to come goes ahead exactly when everything it
  // touches is present: every page of a new object, and every object on the way along its path
  // and at the end. A new object has memory of its own.
  lemma UnblockedIff(cs: CopyState, op: Op)
    requires WorkInv(cs) && Allowed(Virtual(cs), op) && Fitting(cs.plan.m.table, op)
    requires op.New? ==> op.at !in Full(cs).heap
    ensures Unblocked(cs, op) <==> AllThere(cs, TouchedIn(cs, op))
    ensures !op.New? ==> forall d :: d in TouchedIn(cs, op) ==> d in Virtual(cs).heap
  {
    hide Ready, ImageOf, Sound, BitsOk, PagesOk, JobsOk, HeapOk, Present, InSpace, AllPresent, Bases, ToCome;
    var w, v := cs.program, Virtual(cs);
    if op.New? {
      FittingBase(cs.plan.m.table, op);
      PlanTiled(cs.plan);
      BasesPresent(cs, op.at, op.size);
    } else {
      forall d | d in v.heap ensures Present(cs, d) <==> d in w.heap { InPlaceIff(cs, d); }
      TouchedInside(cs.plan.m.table.base, w, v, op);
      InPlaceInside(cs);
      hide Allowed, Touched;
    }
  }

  lemma InPlaceInside(cs: CopyState)
    requires Ready(cs.plan)
    ensures Inside(cs.program.heap, Virtual(cs).heap)
  {
    hide Ready, ImageOf, ToCome;
  }

  // The to-space invariant. Every handle, and every pointer in an object the program can see, is
  // the start of an object of the to-space; if its page is present the object is there.
  lemma PointersInToSpace(cs: CopyState, b: Addr)
    requires CopyInv(cs)
    requires b in cs.program.roots.Values || exists d :: d in cs.program.heap && Points(cs.program.heap[d], b)
    ensures b in Virtual(cs).heap && InSpace(cs.plan.m.table, b)
    ensures Present(cs, b) <==> b in cs.program.heap
  {
    hide Ready, ImageOf, Increasing, BitsOk, PagesOk, JobsOk, BroughtIn, InUnit, ToCome, HeapOk;
    VirtualIsFull(cs);
    if d :| d in cs.program.heap && Points(cs.program.heap[d], b) {
      assert d in Full(cs).heap && Points(Full(cs).heap[d], b);
    }
    InPlaceIff(cs, b);
  }

  // ----- Whole runs -----

  datatype Event = Copy(step: CopyStep) | Program(op: Op)

  ghost predicate Next(cs: CopyState, e: Event, mark: Bit, cs': CopyState) {
    match e
    case Copy(step) => Ready(cs.plan) && Enabled(cs, step) && cs' == CopyNext(cs, step)
    case Program(op) => Ready(cs.plan) && Unblocked(cs, op) && cs' == ProgramNext(cs, op, mark)
  }

  ghost predicate CopyRun(cs: CopyState, es: seq<Event>, mark: Bit, cs': CopyState)
    decreases |es|
  {
    if es == [] then cs' == cs
    else exists cs1 :: Next(cs, es[0], mark, cs1) && CopyRun(cs1, es[1..], mark, cs')
  }

  function Ops(es: seq<Event>): seq<Op> {
    if es == [] then [] else (if es[0].Program? then [es[0].op] else []) + Ops(es[1..])
  }

  // The program alone, on a world where nothing moves.
  ghost predicate Did(w: World, ops: seq<Op>, mark: Bit, w': World)
    decreases |ops|
  {
    if ops == [] then w' == w
    else Allowed(w, ops[0]) && Did(Do(w, ops[0], mark), ops[1..], mark, w')
  }

  lemma {:induction false} DidUnique(w: World, ops: seq<Op>, mark: Bit, w1: World, w2: World)
    requires Did(w, ops, mark, w1) && Did(w, ops, mark, w2)
    ensures w1 == w2
    decreases |ops|
  {
    if ops != [] {
      DidUnique(Do(w, ops[0], mark), ops[1..], mark, w1, w2);
    }
  }

  // Every step keeps the invariant, in whatever order the destinations came out.
  lemma NextWork(cs: CopyState, e: Event, mark: Bit, cs': CopyState)
    requires WorkInv(cs) && Next(cs, e, mark, cs')
    ensures WorkInv(cs') && cs'.plan == cs.plan
  {
    hide WorkInv, Enabled, Unblocked, Allowed, Do, Ready, WorkNext, Put;
    match e {
      case Copy(step) => WorkStep(cs, step);
      case Program(op) => ProgramWork(cs, op, mark);
    }
  }

  lemma NextInv(cs: CopyState, e: Event, mark: Bit, cs': CopyState)
    requires CopyInv(cs) && Next(cs, e, mark, cs')
    ensures CopyInv(cs') && cs'.plan == cs.plan
    ensures e.Copy? ==> Virtual(cs') == Virtual(cs)
    ensures e.Program? ==> Allowed(Virtual(cs), e.op) && Virtual(cs') == Do(Virtual(cs), e.op, mark)
  {
    hide CopyInv, Virtual, Enabled, Unblocked, Allowed, Do, Ready;
    match e {
      case Copy(step) => CopyStepInv(cs, step);
      case Program(op) => ProgramVirtual(cs, op, mark);
    }
  }

  lemma {:induction false} RunWork(cs: CopyState, es: seq<Event>, mark: Bit, cs': CopyState)
    requires WorkInv(cs) && CopyRun(cs, es, mark, cs')
    ensures WorkInv(cs') && cs'.plan == cs.plan
    decreases |es|
  {
    hide WorkInv, Next, Ready;
    if es != [] {
      var cs1 :| Next(cs, es[0], mark, cs1) && CopyRun(cs1, es[1..], mark, cs');
      NextWork(cs, es[0], mark, cs1);
      RunWork(cs1, es[1..], mark, cs');
    }
  }

  // With increasing destinations, over any interleaving: no assertion fires, and the program's run
  // is a run on the relocated heap that was filled all at once.
  lemma {:induction false} CopyRunRefines(cs: CopyState, es: seq<Event>, mark: Bit, cs': CopyState)
    requires CopyInv(cs) && CopyRun(cs, es, mark, cs')
    ensures CopyInv(cs') && cs'.plan == cs.plan && NoneFailed(cs'.work)
    ensures Did(Virtual(cs), Ops(es), mark, Virtual(cs'))
    decreases |es|
  {
    hide CopyInv, Virtual, Next, Allowed, Do, Ready, NoneFailed;
    if es == [] {
      OrderedJobs(cs);
    } else {
      var cs1 :| Next(cs, es[0], mark, cs1) && CopyRun(cs1, es[1..], mark, cs');
      NextInv(cs, es[0], mark, cs1);
      CopyRunRefines(cs1, es[1..], mark, cs');
      if es[0].Program? {
        assert Ops(es)[0] == es[0].op && Ops(es)[1..] == Ops(es[1..]);
      } else {
        assert Ops(es) == Ops(es[1..]);
      }
    }
  }

  // All jobs are over or stopped by an assertion, and no more can come.
  ghost predicate Done(cs: CopyState) {
    && cs.work.eager == {} && !cs.work.handling
    && (forall j :: j in cs.work.jobs ==> cs.work.jobs[j].Over? || cs.work.jobs[j].Failed?)
  }

  // When the workers and handlers are done every page is in place and nothing virtual is left.
  lemma DoneIsWhole(cs: CopyState)
    requires CopyInv(cs) && Done(cs)
    ensures NoneFailed(cs.work) && cs.work.bits == cs.work.filled
    ensures forall h: nat :: cs.plan.m.table.Has(h) ==> h in cs.work.filled
    ensures cs.program == Virtual(cs) == Full(cs)
  {
    hide Ready, ImageOf, Increasing, Sound, HeapOk, JobsOk;
    OrderedJobs(cs);
    forall d | d in ImageOf(cs.plan) ensures d in cs.program.heap {
      var h := ImageInSpace(cs.plan, d);
      assert h in cs.work.filled && InUnit(cs.plan.m.table, h, d);
      PresentIsThere(cs, d);
    }
    VirtualIsFull(cs);
    assert cs.program.heap == Full(cs).heap;
  }

  // A relocated object that is not there although its page is.
  ghost predicate Lost(cs: CopyState, d: Addr)
    requires Ready(cs.plan)
  {
    d in ImageOf(cs.plan) && Present(cs, d) && d !in cs.program.heap
  }

  // Right: no assertion fired, and every relocated object is there.
  ghost predicate CameOutRight(cs: CopyState)
    requires Ready(cs.plan)
  {
    NoneFailed(cs.work) && ImageOf(cs.plan).Keys <= cs.program.heap.Keys
  }

  // Done, with no job stopped, every used page is filled; so out of order one has lost an object.
  lemma DoneLoses(cs: CopyState) returns (d: Addr)
    requires WorkInv(cs) && Done(cs) && NoneFailed(cs.work) && !Increasing(cs.plan.m.grants)
    ensures Lost(cs, d)
  {
    hide Ready, ImageOf, PageImage, Increasing, Sound, JobsOk, Passed, Starts, Delivered, Complete, Holds, Full;
    var h := MissingPage(cs.plan);
    assert h in cs.work.filled && BroughtIn(cs.plan, h, cs.program.heap);
    var at :| Brought(cs.plan, h, at, cs.program.heap);
    d := Missing(cs.plan, h, at);
    InItsPage(cs.plan, h, d);
    HoldsIsInUnit(cs.plan.m.table, h, d);
  }

  ghost predicate Broken(cs: CopyState)
    requires Ready(cs.plan)
  {
    !NoneFailed(cs.work) || exists d :: Lost(cs, d)
  }

  lemma DoneRightIff(cs: CopyState)
    requires WorkInv(cs) && Done(cs)
    ensures Ready(cs.plan)
    ensures CameOutRight(cs) <==> InOrder(cs.plan)
    ensures Broken(cs) <==> !InOrder(cs.plan)
  {
    CopyInvIs(cs);
    hide WorkInv, Ready, ImageOf, Increasing, InOrder, Done, NoneFailed, Present;
    InOrderIff(cs.plan);
    if Increasing(cs.plan.m.grants) {
      DoneIsWhole(cs);
    } else if NoneFailed(cs.work) {
      var d := DoneLoses(cs);
    }
  }

  // Relocation comes out right if and only if every placement was at the frontier, under every
  // schedule of workers and handlers and whatever the program does: out of order an assertion
  // fires, or once the jobs are done an object is missing in a page that is present.
  lemma RelocationRightIff(cs: CopyState, es: seq<Event>, mark: Bit, cs': CopyState)
    requires WorkInv(cs) && CopyRun(cs, es, mark, cs') && Done(cs')
    ensures cs'.plan == cs.plan && Ready(cs.plan)
    ensures CameOutRight(cs') <==> InOrder(cs.plan)
    ensures Broken(cs') <==> !InOrder(cs.plan)
  {
    hide CopyRun, WorkInv, Ready, ImageOf, InOrder, Done, CameOutRight, Broken;
    RunWork(cs, es, mark, cs');
    DoneRightIff(cs');
  }

  // Schedule independence: whatever the order of workers, faults and fills, the finished space
  // is what the program's own operations make of the relocated heap.
  lemma ScheduleIndependent(cs: CopyState, es1: seq<Event>, es2: seq<Event>, mark: Bit, cs1: CopyState, cs2: CopyState)
    requires CopyInv(cs) && Ops(es1) == Ops(es2)
    requires CopyRun(cs, es1, mark, cs1) && CopyRun(cs, es2, mark, cs2) && Done(cs1) && Done(cs2)
    ensures cs1.program == cs2.program && Did(Virtual(cs), Ops(es1), mark, cs1.program)
  {
    hide Virtual, Done, CopyRun, Did, Ready, WorkInv, Increasing, Full, NoneFailed;
    CopyInvIs(cs);
    CopyRunRefines(cs, es1, mark, cs1);
    CopyRunRefines(cs, es2, mark, cs2);
    DoneIsWhole(cs1);
    DoneIsWhole(cs2);
    DidUnique(Virtual(cs), Ops(es1), mark, cs1.program, cs2.program);
  }

  // ----- At most once, and in the end exactly once -----

  function Places(es: seq<Event>, u: nat): nat {
    if es == [] then 0
    else (if es[0].Copy? && es[0].step.Place? && es[0].step.u == u then 1 else 0) + Places(es[1..], u)
  }

  // The unit is in place, or the job that was to fill it was stopped.
  ghost predicate Settled(w: Work, u: nat) {
    u in w.filled || Has(w.jobs, Failed(u))
  }

  // In any run, in whatever order destinations came out, a unit is gone about at most once, and
  // once exactly if it ends up in place or stopped.
  lemma {:induction false} PlacedAtMostOnce(cs: CopyState, es: seq<Event>, mark: Bit, cs': CopyState, u: nat)
    requires WorkInv(cs) && CopyRun(cs, es, mark, cs')
    ensures cs.work.filled <= cs'.work.filled && (Settled(cs.work, u) ==> Settled(cs'.work, u))
    ensures Places(es, u) == if Settled(cs'.work, u) && !Settled(cs.work, u) then 1 else 0
    decreases |es|
  {
    hide WorkInv, Enabled, Unblocked, Ready, Allowed, Do, Next, Settled;
    if es != [] {
      var cs1 :| Next(cs, es[0], mark, cs1) && CopyRun(cs1, es[1..], mark, cs');
      NextWork(cs, es[0], mark, cs1);
      SettledStep(cs, es[0], mark, cs1, u);
      PlacedAtMostOnce(cs1, es[1..], mark, cs', u);
    }
  }

  lemma SettledStep(cs: CopyState, e: Event, mark: Bit, cs': CopyState, u: nat)
    requires WorkInv(cs) && Next(cs, e, mark, cs')
    ensures cs.work.filled <= cs'.work.filled
    ensures var placing := e.Copy? && e.step.Place? && e.step.u == u;
      if placing then !Settled(cs.work, u) && Settled(cs'.work, u) else Settled(cs'.work, u) == Settled(cs.work, u)
  {
    hide Ready, ImageOf, Sound, HeapOk, PagesOk, JobsOk, Put, InUnit, InSpace, Allowed, Do, SearchedAt, Passed,
      AllPresent, Full;
    if e.Copy? {
      if e.step.Place? { PlaceSettles(cs, e.step.j, e.step.u, e.step.at, u); }
      else { OtherSettles(cs, e.step, u); }
    }
  }

  lemma PlaceSettles(cs: CopyState, j: nat, v: nat, at: Option<nat>, u: nat)
    requires BitsOk(cs.work) && Enabled(cs, Place(j, v, at))
    ensures cs.work.filled <= WorkNext(cs, Place(j, v, at)).filled
    ensures if u == v then !Settled(cs.work, u) && Settled(WorkNext(cs, Place(j, v, at)), u)
            else Settled(WorkNext(cs, Place(j, v, at)), u) == Settled(cs.work, u)
  {
    hide SearchedAt, Passed;
    var w, w' := cs.work, WorkNext(cs, Place(j, v, at));
    assert Takes(w.jobs[j], v);
    if k :| k in w.jobs && w.jobs[k] == Failed(u) {
      assert Takes(w.jobs[k], u) && k != j && w'.jobs[k] == Failed(u);
    }
    if u == v && Fires(cs.plan, v, at) { assert w'.jobs[j] == Failed(u); }
  }

  lemma OtherSettles(cs: CopyState, step: CopyStep, u: nat)
    requires Enabled(cs, step) && !step.Place?
    ensures WorkNext(cs, step).filled == cs.work.filled
    ensures Settled(WorkNext(cs, step), u) == Settled(cs.work, u)
  {
    hide InUnit, InSpace;
    var w, w' := cs.work, WorkNext(cs, step);
    if k :| k in w.jobs && w.jobs[k] == Failed(u) { assert w'.jobs[k] == Failed(u); }
    if k :| k in w'.jobs && w'.jobs[k] == Failed(u) { assert w.jobs[k] == Failed(u); }
  }
}
