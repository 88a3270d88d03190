// That relocation gets somewhere: the work of the jobs is bounded, some job can always step, and
// no access of the program waits for ever.
module CopyProgress {
  import opened Prelude
  import opened Pages
  import opened Graph
  import opened Mutator
  import opened Copier
  import opened CopyMachine
  import opened Partition
  import opened Placement

  // ----- Progress -----

  ghost function TestingJobs(jobs: map<nat, Job>): set<nat> {
    set j | j in jobs && jobs[j].Testing?
  }

  ghost function FillingJobs(jobs: map<nat, Job>): set<nat> {
    set j | j in jobs && jobs[j].Filling?
  }

  // What the jobs and the pages not taken are still good for.
  ghost function Measure(w: Work): nat {
    3 * |w.eager| + 2 * |TestingJobs(w.jobs)| + |FillingJobs(w.jobs)| + if w.handling then 1 else 0
  }

  lemma TestingCount(jobs: map<nat, Job>, j: nat, job: Job)
    ensures |TestingJobs(jobs[j := job])|
         == |TestingJobs(jobs)| + (if job.Testing? then 1 else 0) - (if j in jobs && jobs[j].Testing? then 1 else 0)
  {
    var t, t' := TestingJobs(jobs), TestingJobs(jobs[j := job]);
    assert t' == if job.Testing? then t + {j} else t - {j};
  }

  lemma FillingCount(jobs: map<nat, Job>, j: nat, job: Job)
    ensures |FillingJobs(jobs[j := job])|
         == |FillingJobs(jobs)| + (if job.Filling? then 1 else 0) - (if j in jobs && jobs[j].Filling? then 1 else 0)
  {
    var f, f' := FillingJobs(jobs), FillingJobs(jobs[j := job]);
    assert f' == if job.Filling? then f + {j} else f - {j};
  }

  lemma JobCounts(jobs: map<nat, Job>, j: nat, job: Job)
    ensures |TestingJobs(jobs[j := job])|
         == |TestingJobs(jobs)| + (if job.Testing? then 1 else 0) - (if j in jobs && jobs[j].Testing? then 1 else 0)
    ensures |FillingJobs(jobs[j := job])|
         == |FillingJobs(jobs)| + (if job.Filling? then 1 else 0) - (if j in jobs && jobs[j].Filling? then 1 else 0)
  {
    hide *;
    TestingCount(jobs, j, job);
    FillingCount(jobs, j, job);
  }

  // Every step of a worker or handler lowers the measure, and a fault dispatched adds two.
  lemma WorkFalls(cs: CopyState, step: CopyStep)
    requires Enabled(cs, step)
    ensures !step.Fault? ==> Measure(WorkNext(cs, step)) < Measure(cs.work)
    ensures step.Fault? ==> Measure(WorkNext(cs, step)) == Measure(cs.work) + 2
  {
    hide InUnit, InSpace, TestingJobs, FillingJobs, SearchedAt, Passed;
    var jobs := cs.work.jobs;
    match step {
      case Eager(h, j) =>
        JobCounts(jobs, j, Testing(h));
        assert |cs.work.eager - {h}| == |cs.work.eager| - 1;
      case Fault(_, u, j) => JobCounts(jobs, j, Testing(u));
      case Test(j) => JobCounts(jobs, j, Over); JobCounts(jobs, j, Filling(jobs[j].unit));
      case Place(j, u, at) => JobCounts(jobs, j, Over); JobCounts(jobs, j, Failed(u));
      case StopHandling =>
    }
  }

  function Faults(es: seq<Event>): nat {
    if es == [] then 0 else (if es[0].Copy? && es[0].step.Fault? then 1 else 0) + Faults(es[1..])
  }

  function JobSteps(es: seq<Event>): nat {
    if es == [] then 0 else (if es[0].Copy? && !es[0].step.Fault? then 1 else 0) + JobSteps(es[1..])
  }

  // So relocation cannot go on for ever: over any run, whatever the program does, the steps of
  // workers and handlers are bounded by the work at hand and twice the faults raised.
  lemma {:induction false} CopyProgress(cs: CopyState, es: seq<Event>, mark: Bit, cs': CopyState)
    requires CopyRun(cs, es, mark, cs')
    ensures JobSteps(es) + Measure(cs'.work) <= Measure(cs.work) + 2 * Faults(es)
    decreases |es|
  {
    hide Measure, Ready, Allowed, Do, Put, InUnit, InSpace, Enabled, WorkNext, AllPresent, Full;
    if es != [] {
      var cs1 :| Next(cs, es[0], mark, cs1) && CopyRun(cs1, es[1..], mark, cs');
      if es[0].Copy? { WorkFalls(cs, es[0].step); }
      CopyProgress(cs1, es[1..], mark, cs');
    }
  }

  lemma {:induction false} FreshJob(jobs: set<nat>) returns (j: nat)
    ensures forall k :: k in jobs ==> k < j
  {
    j := 0;
    if k :| k in jobs {
      var n := FreshJob(jobs - {k});
      j := if n > k then n else k + 1;
      assert forall i :: i in jobs ==> i == k || i in jobs - {k};
    }
  }

  // A page's search has some result.
  lemma SomeSearch(p: Plan, u: nat) returns (at: Option<nat>)
    ensures p.m.table.Has(u) ==> SearchedAt(p, u, at)
  {
    at := SomeResult(p.records, PageLo(p.m.table, u));
  }

  // Until it is done some job can be done.
  lemma NotStuck(cs: CopyState)
    requires !Done(cs)
    ensures exists step :: Enabled(cs, step) && !step.Fault?
  {
    hide InUnit, InSpace, SearchedAt;
    if h :| h in cs.work.eager {
      var j := FreshJob(cs.work.jobs.Keys);
      assert Enabled(cs, Eager(h, j));
    } else if cs.work.handling {
      assert Enabled(cs, StopHandling);
    } else {
      var j :| j in cs.work.jobs && !cs.work.jobs[j].Over? && !cs.work.jobs[j].Failed?;
      var at := SomeSearch(cs.plan, cs.work.jobs[j].unit);
      assert cs.work.jobs[j].Testing? ==> Enabled(cs, Test(j));
      assert cs.work.jobs[j].Filling? ==> Enabled(cs, Place(j, cs.work.jobs[j].unit, at));
    }
  }

  // ----- Accesses that wait -----

  // With increasing destinations a unit in a job is filled by at most two steps of jobs.
  lemma JobFills(cs: CopyState, addr: Addr, u: nat, mark: Bit) returns (es: seq<Event>, cs': CopyState)
    requires CopyInv(cs) && InUnit(cs.plan.m.table, u, addr)
    requires u in cs.work.bits || Has(cs.work.jobs, Testing(u))
    ensures CopyRun(cs, es, mark, cs') && Present(cs', addr) && |es| <= 2 && Faults(es) == 0 && Ops(es) == []
    ensures cs'.work.handling == cs.work.handling
  {
    hide Ready, ImageOf, Increasing, Sound, HeapOk, PagesOk, JobsOk, InUnit, InSpace, Put, SearchedAt, Passed, Full;
    var at := SomeSearch(cs.plan, u);
    CameIsShare(cs.plan, u, at);
    OrderedJobs(cs);
    if u in cs.work.filled {
      es, cs' := [], cs;
    } else if u in cs.work.bits {
      var j :| j in cs.work.jobs && Takes(cs.work.jobs[j], u);
      cs' := CopyNext(cs, Place(j, u, at));
      es := [Copy(Place(j, u, at))];
      RunOne(cs, es[0], mark, cs');
    } else {
      var j :| j in cs.work.jobs && cs.work.jobs[j] == Testing(u);
      var cs1 := CopyNext(cs, Test(j));
      assert cs1.work.jobs[j] == Filling(u);
      cs' := CopyNext(cs1, Place(j, u, at));
      es := [Copy(Test(j))] + [Copy(Place(j, u, at))];
      RunOne(cs1, Copy(Place(j, u, at)), mark, cs');
      RunCons(cs, Copy(Test(j)), cs1, [Copy(Place(j, u, at))], mark, cs');
    }
  }

  lemma RunOne(cs: CopyState, e: Event, mark: Bit, cs': CopyState)
    requires Next(cs, e, mark, cs')
    ensures CopyRun(cs, [e], mark, cs')
    ensures e.Copy? ==> Ops([e]) == [] && Faults([e]) == if e.step.Fault? then 1 else 0
  {
    hide Next;
    assert [e][1..] == [] && CopyRun(cs', [], mark, cs');
  }

  lemma RunCons(cs: CopyState, e: Event, cs1: CopyState, es: seq<Event>, mark: Bit, cs': CopyState)
    requires Next(cs, e, mark, cs1) && CopyRun(cs1, es, mark, cs') && e.Copy?
    ensures CopyRun(cs, [e] + es, mark, cs')
    ensures Ops([e] + es) == Ops(es) && Faults([e] + es) == Faults(es) + if e.step.Fault? then 1 else 0
  {
    hide Next;
    assert ([e] + es)[1..] == es;
  }

  // While faults are dispatched a missing page is made present by its own fault in three steps.
  lemma FaultServed(cs: CopyState, addr: Addr, mark: Bit) returns (es: seq<Event>, cs': CopyState)
    requires CopyInv(cs) && InSpace(cs.plan.m.table, addr) && cs.work.handling
    ensures CopyRun(cs, es, mark, cs') && Present(cs', addr) && |es| <= 3 && Ops(es) == []
    ensures cs'.work.handling
  {
    hide Ready, ImageOf, Increasing, Sound, HeapOk, PagesOk, BitsOk, JobsOk, InUnit, Put, Full;
    PlanTiled(cs.plan);
    var u := UnitExists(cs.plan.m.table, addr);
    var j := FreshJob(cs.work.jobs.Keys);
    var e := Copy(Fault(addr, u, j));
    var cs1 := CopyNext(cs, e.step);
    CopyStepInv(cs, e.step);
    assert cs1.work.jobs[j] == Testing(u);
    var rest;
    rest, cs' := JobFills(cs1, addr, u, mark);
    es := [e] + rest;
    RunCons(cs, e, cs1, rest, mark, cs');
  }

  // Afterwards a page that holds relocated objects needs no fault: the workers have taken it.
  lemma UsedPageServed(cs: CopyState, addr: Addr, mark: Bit) returns (es: seq<Event>, cs': CopyState)
    requires CopyInv(cs) && cs.plan.m.table.base <= addr < cs.plan.m.table.End() && !cs.work.handling
    ensures CopyRun(cs, es, mark, cs') && Present(cs', addr) && |es| <= 2 && Faults(es) == 0 && Ops(es) == []
    ensures !cs'.work.handling
  {
    hide Ready, ImageOf, Increasing, Sound, HeapOk, BitsOk, JobsOk, Put, Full;
    PlanTiled(cs.plan);
    var h := UsedUnit(cs.plan.m.table, addr);
    es, cs' := JobFills(cs, addr, h, mark);
  }

  lemma UsedUnit(t: Table, addr: Addr) returns (h: nat)
    requires Tiled(t) && t.base <= addr < t.End()
    ensures t.Has(h) && Holds(t, h, addr) && InUnit(t, h, addr)
  {
    TilesExactly(t, (addr - t.base) / BASE_PAGE_SIZE);
    h :| Covers(t, h, (addr - t.base) / BASE_PAGE_SIZE);
    assert PageOk(t, h);
  }

  // There is still something that makes its page present.
  ghost predicate Servable(cs: CopyState, d: Addr) {
    InSpace(cs.plan.m.table, d) && (cs.work.handling || d < cs.plan.m.table.End() || Present(cs, d))
  }

  lemma PageServed(cs: CopyState, d: Addr, mark: Bit) returns (es: seq<Event>, cs': CopyState)
    requires CopyInv(cs) && Servable(cs, d)
    ensures CopyRun(cs, es, mark, cs') && Present(cs', d) && |es| <= 3 && Ops(es) == []
    ensures cs'.work.handling == cs.work.handling
  {
    hide CopyInv, InUnit;
    if cs.work.handling {
      es, cs' := FaultServed(cs, d, mark);
    } else if d < cs.plan.m.table.End() {
      es, cs' := UsedPageServed(cs, d, mark);
    } else {
      es, cs' := [], cs;
    }
  }

  lemma {:induction false} RunConcat(cs: CopyState, es1: seq<Event>, cs1: CopyState, es2: seq<Event>, mark: Bit,
                                     cs2: CopyState)
    requires CopyRun(cs, es1, mark, cs1) && CopyRun(cs1, es2, mark, cs2)
    ensures CopyRun(cs, es1 + es2, mark, cs2) && Ops(es1 + es2) == Ops(es1) + Ops(es2)
    decreases |es1|
  {
    hide Next, Ops;
    OpsConcat(es1, es2);
    if es1 == [] {
      assert es1 + es2 == es2;
    } else {
      var n :| Next(cs, es1[0], mark, n) && CopyRun(n, es1[1..], mark, cs1);
      assert (es1 + es2)[0] == es1[0] && (es1 + es2)[1..] == es1[1..] + es2;
      RunConcat(n, es1[1..], cs1, es2, mark, cs2);
    }
  }

  lemma {:induction false} OpsConcat(es1: seq<Event>, es2: seq<Event>)
    ensures Ops(es1 + es2) == Ops(es1) + Ops(es2)
    decreases |es1|
  {
    if es1 == [] {
      assert es1 + es2 == es2;
    } else {
      assert (es1 + es2)[0] == es1[0] && (es1 + es2)[1..] == es1[1..] + es2;
      OpsConcat(es1[1..], es2);
    }
  }

  // A run without the program: pages in place stay, and the space will be what it was going to be.
  lemma QuietRun(cs: CopyState, es: seq<Event>, mark: Bit, cs': CopyState)
    requires CopyInv(cs) && CopyRun(cs, es, mark, cs') && Ops(es) == []
    ensures CopyInv(cs') && cs'.plan == cs.plan && Virtual(cs') == Virtual(cs)
    ensures forall d :: Present(cs, d) ==> Present(cs', d)
  {
    CopyInvIs(cs);
    hide WorkInv, Increasing, CopyRun, Virtual, InUnit, NoneFailed, Ready;
    CopyRunRefines(cs, es, mark, cs');
    CopyInvIs(cs');
    PlacedAtMostOnce(cs, es, mark, cs', 0);
  }

  lemma {:induction false} PagesServed(cs: CopyState, ds: seq<Addr>, mark: Bit)
    returns (es: seq<Event>, cs': CopyState)
    requires CopyInv(cs) && forall d :: d in ds ==> Servable(cs, d)
    ensures CopyRun(cs, es, mark, cs') && |es| <= 3 * |ds| && Ops(es) == []
    ensures forall d :: d in ds ==> Present(cs', d)
    decreases |ds|
  {
    hide CopyInv, Virtual, Present, InSpace;
    if ds == [] {
      es, cs' := [], cs;
    } else {
      var es1, cs1 := PageServed(cs, ds[0], mark);
      QuietRun(cs, es1, mark, cs1);
      forall d | d in ds[1..] ensures Servable(cs1, d) {
        assert d in ds && Servable(cs, d);
      }
      var es2;
      es2, cs' := PagesServed(cs1, ds[1..], mark);
      QuietRun(cs1, es2, mark, cs');
      RunConcat(cs, es1, cs1, es2, mark, cs');
      es := es1 + es2;
    }
  }

  // So no operation on objects waits for ever, while faults are dispatched or after: whatever path
  // it takes, three steps of handlers and workers for each object on it are enough. The same goes
  // for an allocation and each of its pages, unless one lies beyond the used end and nobody asked
  // for it in time.
  lemma AccessServed(cs: CopyState, op: Op, mark: Bit) returns (es: seq<Event>, cs': CopyState)
    requires CopyInv(cs) && Allowed(Virtual(cs), op) && Fitting(cs.plan.m.table, op)
    requires op.New? ==> forall d :: d in TouchedIn(cs, op) ==> Servable(cs, d)
    ensures CopyRun(cs, es, mark, cs') && Ops(es) == [] && |es| <= 3 * |TouchedIn(cs, op)|
    ensures CopyInv(cs') && Unblocked(cs', op) && Virtual(cs') == Virtual(cs)
  {
    hide WorkInv, Increasing, Virtual, Full, CopyRun, Present, InSpace, Touched, Allowed, Unblocked, Fitting, Ready;
    CopyInvIs(cs);
    VirtualIsFull(cs);
    FreshInFull(cs, op);
    UnblockedIff(cs, op);
    forall d | d in TouchedIn(cs, op) ensures Servable(cs, d) {
      if !op.New? { TouchedServable(cs, d); }
    }
    es, cs' := PagesServed(cs, TouchedIn(cs, op), mark);
    QuietRun(cs, es, mark, cs');
    VirtualIsFull(cs');
    UnblockedIff(cs', op);
  }

  lemma FreshInFull(cs: CopyState, op: Op)
    requires Ready(cs.plan) && Allowed(Virtual(cs), op) && Virtual(cs) == Full(cs)
    ensures op.New? ==> op.at !in Full(cs).heap
  {
    hide Virtual, Full, Ready;
  }

  lemma TouchedServable(cs: CopyState, d: Addr)
    requires WorkInv(cs) && d in Virtual(cs).heap
    ensures Servable(cs, d)
  {
    CopyInvIs(cs);
    InPlaceIff(cs, d);
    hide WorkInv, ImageOf, InSpace, Present, Ready;
    if d !in cs.program.heap { ImageBelowEnd(cs, d); }
  }

  lemma ImageBelowEnd(cs: CopyState, d: Addr)
    requires Ready(cs.plan) && d in ImageOf(cs.plan)
    ensures d < cs.plan.m.table.End()
  {
    hide Ready, ImageOf;
    var h := ImageInSpace(cs.plan, d);
    PlanTiled(cs.plan);
    HolderIsUsed(cs.plan.m.table, h, d);
  }

  // But a page beyond the used end that nobody has asked for by then stays missing until the space
  // is unregistered: no step of relocation brings it.
  lemma {:induction false} ZeroPageWaits(cs: CopyState, es: seq<Event>, mark: Bit, cs': CopyState, u: nat)
    requires CopyRun(cs, es, mark, cs') && !cs.work.handling && cs.work.eager == {}
    requires u !in cs.work.filled && !Has(cs.work.jobs, Testing(u)) && !Has(cs.work.jobs, Filling(u))
    ensures u !in cs'.work.filled
    decreases |es|
  {
    hide Ready, Allowed, Do, Put, InUnit, InSpace, AllPresent, Full, SearchedAt, Passed;
    if es != [] {
      var cs1 :| Next(cs, es[0], mark, cs1) && CopyRun(cs1, es[1..], mark, cs');
      assert !Has(cs1.work.jobs, Testing(u)) && !Has(cs1.work.jobs, Filling(u)) && u !in cs1.work.filled;
      ZeroPageWaits(cs1, es[1..], mark, cs', u);
    }
  }
}
