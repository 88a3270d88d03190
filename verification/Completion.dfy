// From any state between cycles, when the live objects meet the space bound, the collector's own
// steps alone mark to the end, and from there they complete the cycle, with the program's world kept,
// exactly when the placements came out in order. Otherwise every run of relocation goes wrong.
module Completion {
  import opened Pages
  import opened Placement
  import opened Graph
  import opened Mutator
  import opened Marking
  import opened Copier
  import opened Collector
  import PageRuns
  import Registry
  import ConcurrentMark
  import CopyMachine
  import CopyProgress

  ghost predicate NoProgram(es: seq<Event>) {
    forall i :: 0 <= i < |es| ==> !es[i].Program?
  }

  lemma {:induction false} RunConcat(m: Machine, es1: seq<Event>, m1: Machine, es2: seq<Event>, m2: Machine)
    requires Run(m, es1, m1) && Run(m1, es2, m2)
    ensures Run(m, es1 + es2, m2)
    ensures Swaps(es1 + es2) == Swaps(es1) + Swaps(es2)
    ensures NoProgram(es1) && NoProgram(es2) ==> NoProgram(es1 + es2)
    ensures AllInTurn(m, es1) && AllInTurn(m1, es2) ==> AllInTurn(m, es1 + es2)
    decreases |es1|
  {
    hide Next, InTurn;
    if es1 == [] {
      assert es1 + es2 == es2;
    } else {
      var n :| Next(m, es1[0], n) && Run(n, es1[1..], m1);
      assert (es1 + es2)[0] == es1[0] && (es1 + es2)[1..] == es1[1..] + es2;
      RunConcat(n, es1[1..], m1, es2, m2);
      forall n1 | Next(m, es1[0], n1) ensures n1 == n { NextUnique(m, es1[0], n, n1); }
    }
  }

  lemma RunOne(m: Machine, e: Event, m': Machine)
    requires Next(m, e, m')
    ensures Run(m, [e], m') && Swaps([e]) == if e.Step3? then 1 else 0
    ensures NoProgram([e]) <==> !e.Program?
    ensures InTurn(m, e) ==> AllInTurn(m, [e])
  {
    hide Next, InTurn;
    assert [e][1..] == [] && Run(m', [], m');
  }

  // ----- Marking -----

  // These objects fit in a space of so many pages.
  ghost predicate Fits(h: Heap, live: set<Addr>, nrPages: nat) {
    live <= h.Keys && WeightOf(h, live) + 7 * PageRuns.TEN_MIB <= 7 * (nrPages * BASE_PAGE_SIZE)
  }

  lemma {:induction false} WeightSame(h: Heap, h': Heap, s: set<Addr>)
    requires s <= h.Keys && h'.Keys == h.Keys && forall a :: a in h ==> h'[a].size == h[a].size
    ensures WeightOf(h', s) == WeightOf(h, s)
  {
    if a :| a in s {
      WeightAdds(h, s, a);
      WeightAdds(h', s, a);
      WeightSame(h, h', s - {a});
    }
  }

  lemma FitsSame(h: Heap, h': Heap, live: set<Addr>, nrPages: nat)
    requires Fits(h, live, nrPages) && SameButMarks(h', h)
    ensures Fits(h', live, nrPages)
  {
    WeightSame(h, h', live);
  }

  lemma MarkStepExists(w: World, base: nat, ms: ConcurrentMark.MarkState) returns (step: ConcurrentMark.MarkStep)
    requires ConcurrentMark.MarkInv(w, base, ms) && !ConcurrentMark.Finished(ms)
    requires Fits(w.heap, ms.live0, ms.placed.table.nrPages)
    ensures ConcurrentMark.Enabled(w.heap, ms, step) && Laid(w.heap, base)
  {
    hide Registered, ConcurrentMark.Tricolor, Good, Extend, Fits, WellFormed, Closed, NoOverlap, Laid;
    if ms.scan.Some? {
      step := ConcurrentMark.ReadField;
    } else if ms.stack == [] {
      step := ConcurrentMark.NextRoot;
    } else {
      NeverRefused(w, base, ms);
      step := ConcurrentMark.Pop;
    }
  }

  // A destination is never refused.
  lemma NeverRefused(w: World, base: nat, ms: ConcurrentMark.MarkState)
    requires ConcurrentMark.MarkInv(w, base, ms) && ms.stack != [] && ms.scan.None?
    requires Fits(w.heap, ms.live0, ms.placed.table.nrPages)
    ensures ConcurrentMark.Enabled(w.heap, ms, ConcurrentMark.Pop)
  {
    hide Registered, ConcurrentMark.Tricolor, Good, Extend, WellFormed, Closed, NoOverlap, Laid, WeightOf;
    var a := ConcurrentMark.Top(ms);
    assert a in ms.stack && a in ms.live0;
    RegisteredGood(w.heap, base, Marked(w.heap, ms.bit), ms.order, ms.placed, ms.records);
    if w.heap[a].mark != ms.bit && ConcurrentMark.Reserve(w.heap, ms).None? {
      RefusalExceedsBound(w.heap, base, Marked(w.heap, ms.bit), ms.order, ms.placed, ms.records, a, ms.live0);
    }
  }

  lemma RegisteredGood(h: Heap, base: nat, live: set<Addr>, order: seq<Addr>, m: Placed, rs: seq<Registry.Record>)
    requires Registered(h, base, live, order, m, rs)
    ensures Good(m)
  {
    PlacedIsGood(h, order, m);
  }

  lemma {:induction false} MarkingFinishes(m: Machine) returns (es: seq<Event>, m': Machine)
    requires Inv(m) && m.phase.Marking? && Fits(m.world.heap, m.phase.ms.live0, m.nrPages)
    ensures Run(m, es, m') && Inv(m') && Swaps(es) == 0 && NoProgram(es) && AllInTurn(m, es)
    ensures m'.phase.Marking? && ConcurrentMark.Finished(m'.phase.ms)
    ensures m'.nrPages == m.nrPages && m'.phase.ms.live0 == m.phase.ms.live0
    ensures SameButMarks(m'.world.heap, m.world.heap)
    decreases ConcurrentMark.Measure(m.world.heap, m.phase.ms).0, ConcurrentMark.Measure(m.world.heap, m.phase.ms).1,
      ConcurrentMark.Measure(m.world.heap, m.phase.ms).2
  {
    hide Inv, Run, Next, Fits, ConcurrentMark.MarkInv, ConcurrentMark.Measure, ConcurrentMark.Finished, Swaps,
      NoProgram, SameButMarks;
    es, m' := [], m;
    SameHeap(m.world.heap);
    NoSteps(m);
    if !ConcurrentMark.Finished(m.phase.ms) {
      var step, m1 := MarkOnce(m);
      var rest;
      rest, m' := MarkingFinishes(m1);
      RunOne(m, Mark(step), m1);
      RunConcat(m, [Mark(step)], m1, rest, m');
      es := [Mark(step)] + rest;
      SameTwice(m.world.heap, m1.world.heap, m'.world.heap);
    }
  }

  lemma SameHeap(h: Heap)
    ensures SameButMarks(h, h)
  {
  }

  lemma SameTwice(h: Heap, h1: Heap, h2: Heap)
    requires SameButMarks(h1, h) && SameButMarks(h2, h1)
    ensures SameButMarks(h2, h)
  {
  }

  lemma NoSteps(m: Machine)
    ensures Run(m, [], m) && Swaps([]) == 0 && NoProgram([]) && AllInTurn(m, [])
  {
  }

  lemma MarkOnce(m: Machine) returns (step: ConcurrentMark.MarkStep, m': Machine)
    requires Inv(m) && m.phase.Marking? && Fits(m.world.heap, m.phase.ms.live0, m.nrPages)
    requires !ConcurrentMark.Finished(m.phase.ms)
    ensures Next(m, Mark(step), m') && Inv(m') && m'.phase.Marking? && m'.nrPages == m.nrPages
    ensures Fits(m'.world.heap, m'.phase.ms.live0, m'.nrPages)
    ensures m'.phase.ms.live0 == m.phase.ms.live0 && SameButMarks(m'.world.heap, m.world.heap)
    ensures ConcurrentMark.Below(ConcurrentMark.Measure(m'.world.heap, m'.phase.ms),
                                 ConcurrentMark.Measure(m.world.heap, m.phase.ms))
  {
    hide Fits, ConcurrentMark.MarkInv, ConcurrentMark.Measure, ConcurrentMark.Finished, ConcurrentMark.Enabled,
      ConcurrentMark.MarkHeap, ConcurrentMark.MarkNext, ConcurrentMark.Below, AllocOk, Polarity, Laid;
    var ms := m.phase.ms;
    step := MarkStepExists(m.world, m.space, ms);
    m' := m.(world := m.world.(heap := ConcurrentMark.MarkHeap(m.world.heap, ms, step)),
             phase := Collector.Marking(ConcurrentMark.MarkNext(m.world.heap, m.space, ms, step)));
    Collector.MarkInv(m, step, m');
    FitsSame(m.world.heap, m'.world.heap, ms.live0, m.nrPages);
    SnapshotKept(m.world.heap, m.space, ms, step);
    ConcurrentMark.MeasureFalls(m.world, ms, m.space, ConcurrentMark.Marker(step), m'.world, m'.phase.ms);
  }

  lemma SnapshotKept(h: Heap, base: nat, ms: ConcurrentMark.MarkState, step: ConcurrentMark.MarkStep)
    requires ConcurrentMark.Enabled(h, ms, step) && Laid(h, base)
    ensures ConcurrentMark.MarkNext(h, base, ms, step).live0 == ms.live0
  {
    hide AllocIn, Extend, Good, Laid;
  }

  // ----- Relocation -----

  lemma {:induction false} CopyingFinishes(m: Machine) returns (es: seq<Event>, m': Machine)
    requires Inv(m) && m.phase.Copying?
    ensures Run(m, es, m') && Inv(m') && Swaps(es) == 0 && NoProgram(es) && AllInTurn(m, es)
    ensures m'.phase.Copying? && CopyMachine.Done(CopyOf(m')) && m'.phase.plan == m.phase.plan
    decreases CopyProgress.Measure(m.phase.work)
  {
    hide Inv, Run, Next, CopyMachine.WorkInv, CopyProgress.Measure, CopyMachine.Done, Swaps, NoProgram;
    es, m' := [], m;
    NoSteps(m);
    if !CopyMachine.Done(CopyOf(m)) {
      var step, m1 := CopyOnce(m);
      var rest;
      rest, m' := CopyingFinishes(m1);
      RunOne(m, Collector.Copy(step), m1);
      RunConcat(m, [Collector.Copy(step)], m1, rest, m');
      es := [Collector.Copy(step)] + rest;
    }
  }

  lemma CopyOnce(m: Machine) returns (step: CopyMachine.CopyStep, m': Machine)
    requires Inv(m) && m.phase.Copying? && !CopyMachine.Done(CopyOf(m))
    ensures Next(m, Collector.Copy(step), m') && Inv(m') && m'.phase.Copying? && m'.phase.plan == m.phase.plan
    ensures CopyProgress.Measure(m'.phase.work) < CopyProgress.Measure(m.phase.work)
  {
    hide Ready, ImageOf, CopyMachine.WorkInv, CopyProgress.Measure, CopyMachine.Done, CopyMachine.Enabled,
      CopyMachine.WorkNext, Put, CopyMachine.Full, AllocOk, Polarity;
    CopyProgress.NotStuck(CopyOf(m));
    step :| CopyMachine.Enabled(CopyOf(m), step) && !step.Fault?;
    var cs := CopyMachine.CopyNext(CopyOf(m), step);
    m' := m.(world := cs.program, phase := Copying(cs.plan, cs.work));
    assert CopyOf(m') == cs;
    Collector.CopyInv(m, step, m');
    CopyProgress.WorkFalls(CopyOf(m), step);
  }

  // ----- The whole cycle -----

  lemma {:induction false} Listed(s: set<Addr>) returns (q: seq<Addr>)
    ensures forall a :: a in q <==> a in s
  {
    q := [];
    if a :| a in s {
      var rest := Listed(s - {a});
      q := rest + [a];
      assert forall b :: b in s <==> b == a || b in s - {a};
    }
  }

  // Flush, snapshot and mark, whatever the size classes.
  lemma CycleMarks(m: Machine) returns (es: seq<Event>, m': Machine)
    requires Inv(m) && m.phase.Idle?
    requires Fits(m.world.heap, Live(m.world.heap, m.world.roots.Values), m.nrPages)
    ensures Run(m, es, m') && Inv(m') && NoProgram(es) && Swaps(es) == 0 && AllInTurn(m, es)
    ensures m'.space == m.space && Other(m') == Other(m)
    ensures m'.phase.Marking? && ConcurrentMark.Finished(m'.phase.ms)
    ensures m'.phase.ms.live0 == Live(m.world.heap, m.world.roots.Values)
    ensures SameButMarks(m'.world.heap, m.world.heap)
  {
    hide Inv, Run, Next, Fits, Swaps, NoProgram, ConcurrentMark.Finished, Live, ConcurrentMark.MarkInv, SameButMarks,
      AllInTurn;
    var es1, m1 := Snapshot(m);
    var es2;
    es2, m' := MarkingFinishes(m1);
    RunConcat(m, es1, m1, es2, m');
    es := es1 + es2;
    InvSpaces(m);
    SpacesAlternate(m, es, m');
  }

  lemma InvSpaces(m: Machine)
    requires Inv(m)
    ensures SpacesOk(m)
  {
  }

  // Relocation that begins in order can be completed, and the cycle with it.
  lemma RelocateAll(m: Machine) returns (es: seq<Event>, m': Machine)
    requires Inv(m) && m.phase.Marking? && ConcurrentMark.Finished(m.phase.ms) && InTurn(m, Step3)
    ensures Run(m, es, m') && NoProgram(es) && AllInTurn(m, es) && Inv(m')
    ensures m'.phase.Idle? && Swaps(es) == 1 && m'.space == Other(m)
  {
    hide Inv, Run, Next, Swaps, NoProgram, ConcurrentMark.Finished, CopyMachine.Done, Increasing, AllInTurn;
    var m1 := CanRelocate(m);
    Collector.NextInv(m, Step3, m1);
    RunOne(m, Step3, m1);
    var es2, m2 := CopyingFinishes(m1);
    RunConcat(m, [Step3], m1, es2, m2);
    m' := Requeue(m2);
    RunConcat(m, [Step3] + es2, m2, [Step4End, Step5], m');
    es := [Step3] + es2 + [Step4End, Step5];
    InvSpaces(m);
    SpacesAlternate(m, es, m');
  }

  // In whatever order, the collector alone comes to where all jobs of relocation are over.
  lemma RelocatesToEnd(m: Machine) returns (es: seq<Event>, m': Machine)
    requires Inv(m) && m.phase.Marking? && ConcurrentMark.Finished(m.phase.ms)
    ensures Run(m, es, m') && NoProgram(es) && Swaps(es) == 1 && JobsDone(m')
  {
    hide Inv, Run, Next, Swaps, NoProgram, ConcurrentMark.Finished, CopyMachine.Done, Increasing, AllInTurn;
    var m1 := CanRelocate(m);
    Collector.NextInv(m, Step3, m1);
    RunOne(m, Step3, m1);
    var es2;
    es2, m' := CopyingFinishes(m1);
    RunConcat(m, [Step3], m1, es2, m');
    es := [Step3] + es2;
  }

  ghost predicate JobsDone(m: Machine) {
    m.phase.Copying? && CopyMachine.Done(CopyOf(m))
  }

  // An assertion has fired, or an object is missing in a page that is present.
  ghost predicate Broken(m: Machine) {
    m.phase.Copying? && Ready(m.phase.plan) && CopyMachine.Broken(CopyOf(m))
  }

  // Once marking is finished, and if every placement was at the frontier of the table, the collector
  // alone completes the cycle and the program's world stays what it was. If one was not, every run
  // of the collector and the program, under whatever schedule, is broken by the time the jobs of
  // this relocation are over, and they can come to be over.
  lemma CompletesIff(m: Machine, loc: map<Addr, Addr>, ideal: World)
    returns (es: seq<Event>, m': Machine, loc': map<Addr, Addr>)
    requires Inv(m) && m.phase.Marking? && ConcurrentMark.Finished(m.phase.ms) && Mirrors(loc, ideal, Whole(m))
    ensures Ready(PlanOf(m)) && Run(m, es, m') && NoProgram(es) && Swaps(es) == 1
    ensures InOrder(PlanOf(m)) ==> Completed(m, m', loc', ideal)
    ensures !InOrder(PlanOf(m)) ==> JobsDone(m')
    ensures !InOrder(PlanOf(m)) <==> forall fs, n :: Run(m, fs, n) && Swaps(fs) == 1 && JobsDone(n) ==> Broken(n)
  {
    hide Inv, Run, Next, Ready, ConcurrentMark.Finished, Increasing, InOrder, Mirrors, Whole, Broken, JobsDone,
      NoProgram, Swaps, AllInTurn;
    PlanReady(m);
    InOrderIff(PlanOf(m));
    es, m' := RelocatesToEnd(m);
    loc' := loc;
    forall fs, n | Run(m, fs, n) && Swaps(fs) == 1 && JobsDone(n) ensures Broken(n) <==> !InOrder(PlanOf(m)) {
      BrokenIff(m, fs, n);
    }
    if InOrder(PlanOf(m)) {
      es, m' := RelocateAll(m);
      OrderedMarking(m);
      loc' := QuietRun(m, es, m', loc, ideal);
    }
  }

  ghost predicate Completed(m: Machine, m': Machine, loc: map<Addr, Addr>, ideal: World) {
    Inv(m') && m'.phase.Idle? && m'.space == Other(m) && Mirrors(loc, ideal, Whole(m'))
  }

  lemma OrderedMarking(m: Machine)
    requires !m.phase.Copying?
    ensures OrderOk(m)
  {
  }

  // Whether relocation is broken in the end is decided when marking is finished: by the order of
  // the placements, and by nothing that workers, handlers or the program do afterwards.
  lemma BrokenIff(m: Machine, es: seq<Event>, n: Machine)
    requires Inv(m) && m.phase.Marking? && ConcurrentMark.Finished(m.phase.ms)
    requires Run(m, es, n) && Swaps(es) == 1 && JobsDone(n)
    ensures Ready(PlanOf(m))
    ensures Broken(n) <==> !InOrder(PlanOf(m))
  {
    hide Run, Ready, ConcurrentMark.Finished, Increasing, InOrder, CopyMachine.Done, CopyMachine.Broken, Swaps, AllocOk,
      Polarity, SpacesOk, CopyMachine.WorkInv, ConcurrentMark.MarkInv;
    PlanReady(m);
    InOrderIff(PlanOf(m));
    PlanKept(m, es, n);
    CopyMachine.DoneRightIff(CopyOf(n));
    InOrderIff(n.phase.plan);
  }

  // Nothing but step 3 is left for the collector then, and it freezes the placements.
  lemma {:induction false} PlanKept(m: Machine, es: seq<Event>, n: Machine)
    requires Inv(m) && m.phase.Marking? && ConcurrentMark.Finished(m.phase.ms)
    requires Run(m, es, n) && Swaps(es) == 1 && n.phase.Copying?
    ensures Inv(n) && n.phase.plan.m.grants == m.phase.ms.placed.grants
    decreases |es|
  {
    hide Inv, Next, ConcurrentMark.Finished;
    if es != [] {
      var m1 :| Next(m, es[0], m1) && Run(m1, es[1..], n);
      AfterMarking(m, es[0], m1);
      Collector.NextInv(m, es[0], m1);
      if es[0].Step3? {
        CopyingKept(m1, es[1..], n);
      } else {
        PlanKept(m1, es[1..], n);
      }
    }
  }

  lemma AfterMarking(m: Machine, e: Event, m': Machine)
    requires m.phase.Marking? && ConcurrentMark.Finished(m.phase.ms) && Next(m, e, m')
    ensures !e.Step4End?
    ensures if e.Step3? then m'.phase.Copying? && m'.phase.plan.m == m.phase.ms.placed else m'.phase == m.phase
  {
    hide Allowed, Do, Laid, Ready, MapOf, ConcurrentMark.MarkHeap, ConcurrentMark.MarkNext;
  }

  lemma {:induction false} CopyingKept(m: Machine, es: seq<Event>, n: Machine)
    requires Inv(m) && m.phase.Copying? && Run(m, es, n) && Swaps(es) == 0 && n.phase.Copying?
    ensures Inv(n) && n.phase.plan == m.phase.plan
    decreases |es|
  {
    hide Inv, Next;
    if es != [] {
      var m1 :| Next(m, es[0], m1) && Run(m1, es[1..], n);
      WhileCopying(m, es[0], m1);
      if es[0].Step4End? {
        NoWayBack(m1, es[1..], n);
      } else {
        Collector.NextInv(m, es[0], m1);
        CopyingKept(m1, es[1..], n);
      }
    }
  }

  lemma WhileCopying(m: Machine, e: Event, m': Machine)
    requires m.phase.Copying? && Next(m, e, m')
    ensures if e.Step4End? then !m'.phase.Copying? else m'.phase.Copying? && m'.phase.plan == m.phase.plan
  {
    hide Allowed, Do, Ready, CopyMachine.Enabled, CopyMachine.WorkNext, Put;
  }

  // Only step 3 leads to relocation.
  lemma {:induction false} NoWayBack(m: Machine, es: seq<Event>, n: Machine)
    requires !m.phase.Copying? && Run(m, es, n) && Swaps(es) == 0
    ensures !n.phase.Copying?
    decreases |es|
  {
    hide Next;
    if es != [] {
      var m1 :| Next(m, es[0], m1) && Run(m1, es[1..], n);
      StaysOut(m, es[0], m1);
      NoWayBack(m1, es[1..], n);
    }
  }

  lemma StaysOut(m: Machine, e: Event, m': Machine)
    requires !m.phase.Copying? && Next(m, e, m') && !e.Step3?
    ensures !m'.phase.Copying?
  {
    hide Allowed, Do, Ready, Laid, ConcurrentMark.Enabled, ConcurrentMark.MarkHeap, ConcurrentMark.MarkNext;
  }

  // With live objects of one size class the whole cycle can be completed.
  lemma CycleCompletes(m: Machine, c: Class) returns (es: seq<Event>, m': Machine)
    requires Inv(m) && m.phase.Idle?
    requires Fits(m.world.heap, Live(m.world.heap, m.world.roots.Values), m.nrPages)
    requires OneClass(m.world.heap, Live(m.world.heap, m.world.roots.Values), c)
    ensures Run(m, es, m') && Inv(m') && m'.phase.Idle?
    ensures Swaps(es) == 1 && NoProgram(es) && AllInTurn(m, es) && m'.space == Other(m)
  {
    hide Inv, Run, Next, Fits, OneClass, Swaps, NoProgram, ConcurrentMark.Finished, Live, SameButMarks, Increasing,
      AllInTurn, InTurn;
    var es1, m1 := CycleMarks(m);
    SameClass(m.world.heap, m1.world.heap, m1.phase.ms.live0, c);
    MarkedInOrder(m1, c);
    var es2;
    es2, m' := RelocateAll(m1);
    RunConcat(m, es1, m1, es2, m');
    es := es1 + es2;
  }

  lemma MarkedInOrder(m: Machine, c: Class)
    requires Inv(m) && m.phase.Marking? && ConcurrentMark.Finished(m.phase.ms)
    requires OneClass(m.world.heap, m.phase.ms.live0, c)
    ensures InTurn(m, Step3)
  {
    hide Inv, ConcurrentMark.Finished, InTurn;
    MarkedWereLive(m);
    OneClassInTurn(m, c);
  }

  lemma SameClass(h: Heap, h': Heap, live: set<Addr>, c: Class)
    requires OneClass(h, live, c) && SameButMarks(h', h)
    ensures OneClass(h', live, c)
  {
  }

  // Flush the local pages, then step 1.
  lemma Snapshot(m: Machine) returns (es: seq<Event>, m': Machine)
    requires Inv(m) && m.phase.Idle?
    requires Fits(m.world.heap, Live(m.world.heap, m.world.roots.Values), m.nrPages)
    ensures Run(m, es, m') && Swaps(es) == 0 && NoProgram(es) && AllInTurn(m, es)
    ensures Inv(m') && m'.phase.Marking? && m'.nrPages == m.nrPages && m'.world == m.world
    ensures m'.phase.ms.live0 == Live(m.world.heap, m.world.roots.Values)
    ensures Fits(m'.world.heap, m'.phase.ms.live0, m'.nrPages)
  {
    hide Fits, Live, AllocOk, Polarity, PhaseOk, Run, Swaps, NoProgram;
    var m0 := m.(alloc := m.alloc.(locals := map[]));
    IdleInv(m, Flush, m0);
    RunOne(m, Flush, m0);
    var pending := Listed(m.world.roots.Values);
    var e := Step1(pending);
    m' := m0.(markTrue := m.markTrue.Not(), spare := m.spare[1..],
              phase := Collector.Marking(ConcurrentMark.Begin(m.world, m.markTrue, pending, m.spare[0], m.nrPages)));
    Step1Inv(m0, pending, m');
    RunOne(m0, e, m');
    RunConcat(m, [Flush], m0, [e], m');
    es := [Flush] + [e];
  }

  lemma MarkedWereLive(m: Machine)
    requires Inv(m) && m.phase.Marking?
    ensures PlanOf(m).live <= m.phase.ms.live0
  {
    hide Registered, ConcurrentMark.Tricolor, AllocOk, Polarity, SpacesOk;
  }

  lemma Requeue(m: Machine) returns (m': Machine)
    requires Inv(m) && m.phase.Copying? && CopyMachine.Done(CopyOf(m)) && OrderOk(m)
    ensures Run(m, [Step4End, Step5], m') && Inv(m') && m'.phase.Idle?
    ensures Swaps([Step4End, Step5]) == 0 && NoProgram([Step4End, Step5]) && AllInTurn(m, [Step4End, Step5])
  {
    hide Inv, CopyMachine.Done, CopyMachine.NoneFailed, AllInTurn, Increasing;
    OrderedNoAssertion(m);
    var m1 := m.(phase := Clearing(m.phase.plan.base));
    EndInv(m, m1);
    m' := m1.(spare := m1.spare + [m1.phase.second], phase := Idle);
    IdleInv(m1, Step5, m');
    RunOne(m, Step4End, m1);
    RunOne(m1, Step5, m');
    RunConcat(m, [Step4End], m1, [Step5], m');
    assert [Step4End] + [Step5] == [Step4End, Step5];
  }

  // ----- The program is not kept waiting -----

  // Whatever the program could do without a collector it can do now, unless a page that the
  // operation touches is missing, or it would load or drop in the marker's window what it may not.
  lemma ProgramRuns(m: Machine, loc: map<Addr, Addr>, ideal: World, op: Op, ctx: nat) returns (m': Machine)
    requires Inv(m) && OrderOk(m) && Mirrors(loc, ideal, Whole(m)) && Allowed(ideal, op) && !op.New?
    requires m.phase.Marking? ==> ConcurrentMark.MarkingOp(op)
    requires m.phase.Copying? ==> Touches(m, op)
    ensures Next(m, Program(op, ctx), m') && m'.phase == m.phase
  {
    hide Mirrors, Allowed, Do, Whole, Full, SpacesOk, AllocOk, Polarity, CopyMachine.WorkInv, ConcurrentMark.MarkInv,
      Increasing, Ready, Touches;
    WholeIsFull(m);
    AllowedMirrors(loc, ideal, Whole(m), op);
    InPlaceAllowed(m, op);
    AllocHealthy(m);
    m' := m.(world := Do(m.world, op, m.markTrue.Not()));
  }

  // Every page it touches is present.
  ghost predicate Touches(m: Machine, op: Op)
    requires m.phase.Copying?
  {
    && Ready(m.phase.plan) && Allowed(Whole(m), op) && CopyMachine.Fitting(m.phase.plan.m.table, op)
    && CopyMachine.AllThere(CopyOf(m), CopyMachine.TouchedIn(CopyOf(m), op))
  }

  lemma InPlaceAllowed(m: Machine, op: Op)
    requires Inv(m) && (m.phase.Copying? ==> Ready(m.phase.plan)) && Allowed(Whole(m), op) && !op.New?
    requires m.phase.Copying? ==> Touches(m, op)
    ensures Allowed(m.world, op)
  {
    hide Allowed, SpacesOk, AllocOk, Polarity, CopyMachine.WorkInv, Ready, CopyMachine.AllThere,
      CopyMachine.TouchedIn, CopyMachine.Virtual;
    if m.phase.Copying? {
      CopyMachine.UnblockedIff(CopyOf(m), op);
      UnblockedAllowed(m, op);
    }
  }

  lemma UnblockedAllowed(m: Machine, op: Op)
    requires m.phase.Copying? && Ready(m.phase.plan) && CopyMachine.Unblocked(CopyOf(m), op)
    ensures Allowed(m.world, op)
  {
    hide Allowed, Ready;
  }

  lemma AllocHealthy(m: Machine)
    requires Inv(m)
    ensures PageRuns.Healthy(m.alloc)
  {
    hide SpacesOk, PhaseOk, Polarity, Granted;
  }

  // An allocation outside marking succeeds whenever the table has the fresh pages it needs, and gets
  // the address that the allocator gives.
  lemma AllocRuns(m: Machine, op: Op, ctx: nat) returns (op': Op, m': Machine)
    requires Inv(m) && !m.phase.Marking? && op.New? && op.slot !in m.world.roots && op.size > 0 && op.size % 8 == 0
    requires RoomFor(m, ctx, op.size)
    requires m.phase.Copying? ==> CopyMachine.AllPresent(CopyOf(m), AddressFor(m, ctx, op.size), op.size)
    ensures op' == op.(at := AddressFor(m, ctx, op.size)) && Next(m, Program(op', ctx), m')
    ensures m'.phase == m.phase && op.slot in m'.world.roots && m'.world.roots[op.slot] == op'.at
    ensures |m'.alloc.grants| == |m.alloc.grants| + 1 && m'.alloc.grants[|m.alloc.grants|].addr == op'.at
  {
    hide SpacesOk, PhaseOk, Polarity, Granted, AllocIn, CopyMachine.AllPresent, Full, Whole, Tiled, LocalOk,
      PageRuns.LocalsOk, StepOk, PagesNeeded;
    AllocHealthy(m);
    AllocGrants(m, ctx, op.size);
    op' := op.(at := AddressFor(m, ctx, op.size));
    AllocMayRun(m, op', ctx);
    m' := m.(world := Do(m.world, op', m.markTrue.Not()), alloc := AllocAfter(m, op', ctx));
  }

  // The fresh pages that the request needs are there.
  ghost predicate RoomFor(m: Machine, ctx: nat, size: nat) {
    PageRuns.Healthy(m.alloc)
    && (PageRuns.LocalFound(m.alloc, ctx);
        m.alloc.table.current + PagesNeeded(m.alloc.table, PageRuns.LocalOf(m.alloc.locals, ctx), size)
        <= m.alloc.table.nrPages)
  }

  ghost function AddressFor(m: Machine, ctx: nat, size: nat): Addr {
    if PageRuns.Healthy(m.alloc) then
      PageRuns.LocalFound(m.alloc, ctx);
      var g := AllocIn(m.alloc.table, PageRuns.LocalOf(m.alloc.locals, ctx), size).grant;
      if g.Some? then g.value.addr else 0
    else 0
  }

  lemma AllocGrants(m: Machine, ctx: nat, size: nat)
    requires RoomFor(m, ctx, size) && size % 8 == 0
    ensures var u := PageRuns.Step(m.alloc, PageRuns.Request(ctx, size));
      |u.grants| == |m.alloc.grants| + 1 && u.grants[|m.alloc.grants|].addr == AddressFor(m, ctx, size)
  {
    PageRuns.LocalFound(m.alloc, ctx);
    AllocStep(m.alloc.table, PageRuns.LocalOf(m.alloc.locals, ctx), size);
    hide AllocIn, Tiled, LocalOk, StepOk, PagesNeeded;
  }

  lemma AllocMayRun(m: Machine, op: Op, ctx: nat)
    requires Inv(m) && !m.phase.Marking? && op.New? && op.slot !in m.world.roots && op.size > 0 && op.size % 8 == 0
    requires PageRuns.Healthy(m.alloc)
    requires var u := PageRuns.Step(m.alloc, PageRuns.Request(ctx, op.size));
      |u.grants| == |m.alloc.grants| + 1 && u.grants[|m.alloc.grants|].addr == op.at
    requires m.phase.Copying? ==> CopyMachine.AllPresent(CopyOf(m), op.at, op.size)
    ensures MayRun(m, op, ctx) && Allowed(m.world, op)
  {
    hide SpacesOk, PhaseOk, Polarity, Granted, CopyMachine.AllPresent, PageRuns.Step, PageRuns.Healthy, AllocOk, Full;
    MayRunAllowed(m, op, ctx);
  }

  // ----- What is left as it was -----

  // A run without the program moves its world along the relocations, and does nothing else to it.
  lemma {:induction false} QuietRun(m: Machine, es: seq<Event>, m': Machine, loc: map<Addr, Addr>, ideal: World)
    returns (loc': map<Addr, Addr>)
    requires Inv(m) && OrderOk(m) && Run(m, es, m') && AllInTurn(m, es) && NoProgram(es)
    requires Mirrors(loc, ideal, Whole(m))
    ensures Inv(m') && OrderOk(m') && Mirrors(loc', ideal, Whole(m')) && Composed(m, es, loc, loc')
    decreases |es|
  {
    hide Inv, Next, Mirrors, Whole, Carried, OrderOk, InTurn, NoAssertion;
    loc' := loc;
    if es != [] {
      assert forall i :: 0 <= i < |es[1..]| ==> es[1..][i] == es[i + 1];
      var m1 :| Next(m, es[0], m1) && Run(m1, es[1..], m');
      var loc1, ideal1 := StepMirrors(m, es[0], m1, loc, ideal);
      loc' := QuietRun(m1, es[1..], m', loc1, ideal1);
    }
  }

  // Over any number of cycles in which the program does nothing and relocation begins in order, the
  // graph it sees is the same: the relocations of the cycles, composed, carry its handles, its
  // reachable objects and all their pointers over.
  lemma CyclesKeepGraph(m: Machine, es: seq<Event>, m': Machine, loc: map<Addr, Addr>, ideal: World)
    returns (loc': map<Addr, Addr>)
    requires Inv(m) && OrderOk(m) && Run(m, es, m') && AllInTurn(m, es) && NoProgram(es)
    requires Mirrors(loc, ideal, Whole(m))
    ensures Composed(m, es, loc, loc')
    ensures Inv(m') && Mirrors(loc', ideal, Whole(m'))
    ensures forall a :: Reachable(ideal.heap, ideal.roots.Values, a) ==> a in loc'
    ensures forall a :: a in loc' ==>
      (Reachable(ideal.heap, ideal.roots.Values, a) <==> Reachable(Whole(m').heap, Whole(m').roots.Values, loc'[a]))
  {
    hide Inv, Run, Mirrors, Reachable, Whole, Composed, AllInTurn, OrderOk;
    loc' := QuietRun(m, es, m', loc, ideal);
    WholeDefined(m');
    forall a | Reachable(ideal.heap, ideal.roots.Values, a) ensures a in loc' {
      ReachablePlaced(loc', ideal, Whole(m'), a);
    }
    forall a | a in loc'
      ensures Reachable(ideal.heap, ideal.roots.Values, a)
         <==> Reachable(Whole(m').heap, Whole(m').roots.Values, loc'[a])
    {
      MirrorsReachable(loc', ideal, Whole(m'), a);
    }
  }
}
