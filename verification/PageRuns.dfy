// Whole runs of the page allocator: any number of contexts on one table, the space a
// single context can use, and when addresses come out in increasing order.
module PageRuns {
  import opened Prelude
  import opened Pages

  // ----- Any interleaving of any number of contexts -----

  datatype Op = Request(ctx: nat, size: nat) | Flush(ctx: nat)

  datatype System = System(table: Table, locals: map<nat, nat>, grants: seq<Grant>)

  function LocalOf(locals: map<nat, nat>, ctx: nat): Option<nat> {
    if ctx in locals then Some(locals[ctx]) else None
  }

  ghost predicate LocalsOk(s: System) {
    forall c :: c in s.locals ==> LocalOk(s.table, Some(s.locals[c]))
  }

  ghost predicate Healthy(s: System) {
    Tiled(s.table) && LocalsOk(s)
  }

  function Step(s: System, op: Op): System
    requires Healthy(s)
  {
    match op
    case Flush(c) => s.(locals := s.locals - {c})
    case Request(c, size) =>
      var o := AllocIn(s.table, LocalOf(s.locals, c), size);
      System(
        o.table,
        if o.local.Some? then s.locals[c := o.local.value] else s.locals,
        if o.grant.Some? then s.grants + [o.grant.value] else s.grants)
  }

  // A grant sits inside the used bytes of one FlexPage, 8-aligned relative to the base.
  ghost predicate Inside(t: Table, g: Grant) {
    && t.Has(g.page)
    && t.Page(g.page).start <= g.addr
    && g.End() <= t.Page(g.page).Top()
    && (g.addr - t.base) % 8 == 0
  }

  ghost predicate Safe(s: System) {
    && Healthy(s)
    && (forall i :: 0 <= i < |s.grants| ==> Inside(s.table, s.grants[i]))
    && (forall i, j :: 0 <= i < j < |s.grants| ==> s.grants[i].Apart(s.grants[j]))
  }

  lemma NewGrantApart(t: Table, o: Outcome, g: Grant)
    requires Tiled(t) && StepOk(t, o) && o.grant.Some? && Inside(t, g)
    ensures g.Apart(o.grant.value) && Inside(o.table, g)
  {
    var n := o.grant.value;
    assert t.Has(g.page) && o.table.Has(g.page);
    if g.page < n.page {
      PagesApart(o.table, g.page, n.page);
    } else if n.page < g.page {
      PagesApart(o.table, n.page, g.page);
    }
  }

  lemma RequestSafe(s: System, c: nat, size: nat)
    requires Safe(s) && size % 8 == 0
    ensures var u := Step(s, Request(c, size));
      Safe(u) && s.grants <= u.grants && (|u.grants| == |s.grants| ==> u.table == s.table)
  {
    hide AllocIn, LocalsOk, LocalOk, Tiled, Inside, GrantedFrom;
    LocalFound(s, c);
    var o := AllocIn(s.table, LocalOf(s.locals, c), size);
    AllocStep(s.table, LocalOf(s.locals, c), size);
    RequestKeepsLocals(s, c, size);
    if o.grant.Some? {
      forall i | 0 <= i < |s.grants|
        ensures s.grants[i].Apart(o.grant.value) && Inside(o.table, s.grants[i])
      {
        NewGrantApart(s.table, o, s.grants[i]);
      }
      NewGrantInside(s.table, o);
    }
  }

  lemma LocalFound(s: System, c: nat)
    requires Healthy(s)
    ensures LocalOk(s.table, LocalOf(s.locals, c))
  {
  }

  lemma NewGrantInside(t: Table, o: Outcome)
    requires Tiled(t) && StepOk(t, o) && o.grant.Some?
    ensures Inside(o.table, o.grant.value)
  {
    assert PageOk(o.table, o.grant.value.page);
    if t.Has(o.grant.value.page) { assert PageOk(t, o.grant.value.page); }
  }

  lemma RequestKeepsLocals(s: System, c: nat, size: nat)
    requires Healthy(s) && size % 8 == 0
    ensures LocalsOk(Step(s, Request(c, size)))
  {
    var u := Step(s, Request(c, size));
    AllocStep(s.table, LocalOf(s.locals, c), size);
    forall d | d in u.locals && d != c ensures LocalOk(u.table, Some(u.locals[d])) {
      AllocKeepsOthers(s.table, LocalOf(s.locals, c), size, LocalOf(s.locals, d));
    }
  }

  // One operation keeps every grant where it is; a refused request leaves the table alone.
  lemma StepSafe(s: System, op: Op)
    requires Safe(s) && (op.Request? ==> op.size % 8 == 0)
    ensures Safe(Step(s, op)) && s.grants <= Step(s, op).grants
    ensures |Step(s, op).grants| == |s.grants| ==> Step(s, op).table == s.table
  {
    match op {
      case Flush(c) =>
      case Request(c, size) => RequestSafe(s, c, size);
    }
  }

  ghost predicate Aligned(ops: seq<Op>) {
    forall i :: 0 <= i < |ops| && ops[i].Request? ==> ops[i].size % 8 == 0
  }

  ghost predicate Run(s: System, ops: seq<Op>, u: System)
    decreases |ops|
  {
    if ops == [] then u == s
    else Healthy(s) && Run(Step(s, ops[0]), ops[1..], u)
  }

  // Allocator safety over every run from a fresh table: all grants ever made are pairwise
  // disjoint, each inside one FlexPage and aligned, the pages still tile the used range,
  // and grants already made are never taken back or moved.
  lemma {:induction false} RunSafe(s: System, ops: seq<Op>, u: System)
    requires Safe(s) && Aligned(ops) && Run(s, ops, u)
    ensures Safe(u) && s.grants <= u.grants
    decreases |ops|
  {
    if ops != [] {
      StepSafe(s, ops[0]);
      RunSafe(Step(s, ops[0]), ops[1..], u);
    }
  }

  lemma FreshTableSafe(base: nat, nrPages: nat)
    ensures Safe(System(Cleared(base, nrPages), map[], []))
  {
  }

  // ----- Space used by one context -----

  // Eight times the bytes of a small or medium object, fourteen times those of a huge one.
  function Weight(size: nat): nat {
    if size >= MAX_MEDIUM_OBJECT then 14 * size else 8 * size
  }

  // Seven times the size of an open page, less eight times what it holds. A page is closed
  // only once it is seven eighths full, so what it leaves behind is then not positive.
  function Slack(t: Table, buffer: Option<nat>): int {
    if buffer.Some? && t.Has(buffer.value) then
      7 * t.Page(buffer.value).Size() - 8 * t.Page(buffer.value).used
    else 0
  }

  ghost predicate Dense(t: Table, local: Option<nat>, weight: nat) {
    && Tiled(t) && LocalOk(t, local)
    && 7 * BASE_PAGE_SIZE * t.current <= weight + Slack(t, local) + Slack(t, t.medium)
  }

  // A huge object of at least 1 MiB is rounded up to at most twice its size.
  lemma HugeRounding(size: nat)
    requires size >= MAX_MEDIUM_OBJECT
    ensures 7 * BASE_PAGE_SIZE * DivCeil(size, BASE_PAGE_SIZE) <= 14 * size
  {
  }

  lemma HugeKeepsDense(t: Table, local: Option<nat>, weight: nat, size: nat)
    requires Dense(t, local, weight) && size % 8 == 0 && size >= MAX_MEDIUM_OBJECT
    requires AllocIn(t, local, size).grant.Some?
    ensures Dense(AllocIn(t, local, size).table, local, weight + 14 * size)
  {
    SharedStep(t, local, size);
    HugeRounding(size);
    var u := AllocIn(t, local, size).table;
    assert Slack(u, local) == Slack(t, local) && Slack(u, t.medium) == Slack(t, t.medium);
  }

  lemma MediumKeepsDense(t: Table, local: Option<nat>, weight: nat, size: nat)
    requires Dense(t, local, weight) && size % 8 == 0 && MAX_SMALL_OBJECT <= size < MAX_MEDIUM_OBJECT
    requires AllocIn(t, local, size).grant.Some?
    ensures Dense(AllocIn(t, local, size).table, local, weight + 8 * size)
  {
    SharedStep(t, local, size);
    assert Slack(AllocIn(t, local, size).table, local) == Slack(t, local);
  }

  lemma SmallKeepsDense(t: Table, local: Option<nat>, weight: nat, size: nat)
    requires Dense(t, local, weight) && size % 8 == 0 && size < MAX_SMALL_OBJECT
    requires AllocIn(t, local, size).grant.Some?
    ensures Dense(AllocIn(t, local, size).table, AllocIn(t, local, size).local, weight + 8 * size)
  {
    AllocStep(t, local, size);
    var u := AllocIn(t, local, size).table;
    assert u.medium == t.medium && Slack(u, t.medium) == Slack(t, t.medium);
  }

  lemma AllocKeepsDense(t: Table, local: Option<nat>, weight: nat, size: nat)
    requires Dense(t, local, weight) && size % 8 == 0
    requires AllocIn(t, local, size).grant.Some?
    ensures Dense(AllocIn(t, local, size).table, AllocIn(t, local, size).local, weight + Weight(size))
  {
    if size >= MAX_MEDIUM_OBJECT {
      HugeKeepsDense(t, local, weight, size);
    } else if size >= MAX_SMALL_OBJECT {
      MediumKeepsDense(t, local, weight, size);
    } else {
      SmallKeepsDense(t, local, weight, size);
    }
  }

  const TEN_MIB: nat := 10 * 0x10_0000

  // The base pages in use never exceed 8/7 of the small and medium bytes plus twice the huge
  // bytes plus 10 MiB (seven-fold, to stay in whole numbers).
  lemma SpaceBound(t: Table, local: Option<nat>, weight: nat)
    requires Dense(t, local, weight)
    ensures 7 * (t.current * BASE_PAGE_SIZE) <= weight + 7 * TEN_MIB
  {
  }

  // A request that keeps the total within the bound of the table is never refused.
  lemma WithinBoundSucceeds(t: Table, local: Option<nat>, weight: nat, size: nat)
    requires Dense(t, local, weight) && size % 8 == 0
    requires weight + Weight(size) + 7 * TEN_MIB <= 7 * (t.nrPages * BASE_PAGE_SIZE)
    ensures AllocIn(t, local, size).grant.Some?
  {
    hide AllocIn, StepOk, DivCeil;
    AllocStep(t, local, size);
    if size >= MAX_MEDIUM_OBJECT {
      HugeRounding(size);
    }
  }

  // ----- Runs of one context -----

  lemma StepDense(s: System, c: nat, weight: nat, size: nat)
    requires Healthy(s) && Dense(s.table, LocalOf(s.locals, c), weight) && size % 8 == 0
    ensures var u := Step(s, Request(c, size));
      && Healthy(u) && u.table.nrPages == s.table.nrPages
      && Dense(u.table, LocalOf(u.locals, c), weight + Weight(size))
      && (weight + Weight(size) + 7 * TEN_MIB <= 7 * (s.table.nrPages * BASE_PAGE_SIZE) ==>
            |u.grants| == |s.grants| + 1)
      && (forall d :: d != c ==> LocalOf(u.locals, d) == LocalOf(s.locals, d))
  {
    hide AllocIn, Dense, Tiled, LocalOk, LocalsOk, StepOk, PagesNeeded;
    LocalFound(s, c);
    AllocStep(s.table, LocalOf(s.locals, c), size);
    RequestKeepsLocals(s, c, size);
    KeepsLocal(s, c, size);
    if AllocIn(s.table, LocalOf(s.locals, c), size).grant.Some? {
      AllocKeepsDense(s.table, LocalOf(s.locals, c), weight, size);
    } else {
      DenseMore(s.table, LocalOf(s.locals, c), weight, Weight(size));
    }
    if weight + Weight(size) + 7 * TEN_MIB <= 7 * (s.table.nrPages * BASE_PAGE_SIZE) {
      WithinBoundSucceeds(s.table, LocalOf(s.locals, c), weight, size);
    }
    StepOkMeans(s.table, AllocIn(s.table, LocalOf(s.locals, c), size));
  }

  lemma StepOkMeans(t: Table, o: Outcome)
    requires StepOk(t, o)
    ensures Tiled(o.table) && o.table.nrPages == t.nrPages && (o.grant.None? ==> o.table == t)
  {
    hide Tiled;
  }

  lemma DenseMore(t: Table, local: Option<nat>, weight: nat, more: nat)
    requires Dense(t, local, weight)
    ensures Dense(t, local, weight + more)
  {
    hide Tiled;
  }

  // What a context keeps after a request is what the allocation leaves it with.
  lemma KeepsLocal(s: System, c: nat, size: nat)
    requires Healthy(s)
    ensures var o := AllocIn(s.table, LocalOf(s.locals, c), size);
      LocalOf(Step(s, Request(c, size)).locals, c) == o.local
  {
    SharedLocal(s.table, LocalOf(s.locals, c), size);
  }

  lemma SharedLocal(t: Table, local: Option<nat>, size: nat)
    requires Tiled(t)
    ensures AllocShared(t, local, size).local == local
  {
  }

  function WeightOfOps(ops: seq<Op>): nat {
    if ops == [] then 0 else (if ops[0].Request? then Weight(ops[0].size) else 0) + WeightOfOps(ops[1..])
  }

  ghost predicate Only(ops: seq<Op>, c: nat) {
    forall i :: 0 <= i < |ops| ==> ops[i].Request? && ops[i].ctx == c
  }

  // A run of one context without a flush stays dense: it goes on with the page it has.
  lemma {:induction false} RunDense(s: System, c: nat, ops: seq<Op>, u: System, weight: nat)
    requires Healthy(s) && Dense(s.table, LocalOf(s.locals, c), weight)
    requires Aligned(ops) && Only(ops, c) && Run(s, ops, u)
    ensures Dense(u.table, LocalOf(u.locals, c), weight + WeightOfOps(ops)) && u.table.nrPages == s.table.nrPages
    ensures weight + WeightOfOps(ops) + 7 * TEN_MIB <= 7 * (s.table.nrPages * BASE_PAGE_SIZE) ==>
      |u.grants| == |s.grants| + |ops|
    decreases |ops|
  {
    hide Healthy, Dense, Step, Weight;
    if ops != [] {
      assert forall i :: 0 <= i < |ops[1..]| ==> ops[1..][i] == ops[i + 1];
      assert ops[0] == Request(c, ops[0].size);
      StepDense(s, c, weight, ops[0].size);
      RunDense(Step(s, ops[0]), c, ops[1..], u, weight + Weight(ops[0].size));
    }
  }

  // So one context on a cleared table uses no more pages than the bound, and none of its requests is
  // refused while they all together stay within it.
  lemma OneContextBound(base: nat, nrPages: nat, c: nat, ops: seq<Op>, u: System)
    requires Aligned(ops) && Only(ops, c) && Run(System(Cleared(base, nrPages), map[], []), ops, u)
    ensures 7 * (u.table.current * BASE_PAGE_SIZE) <= WeightOfOps(ops) + 7 * TEN_MIB
    ensures WeightOfOps(ops) + 7 * TEN_MIB <= 7 * (nrPages * BASE_PAGE_SIZE) ==> |u.grants| == |ops|
  {
    hide *;
    var s := System(Cleared(base, nrPages), map[], []);
    FreshDense(base, nrPages, c);
    RunDense(s, c, ops, u, 0);
    SpaceBound(u.table, LocalOf(u.locals, c), WeightOfOps(ops));
  }

  lemma FreshDense(base: nat, nrPages: nat, c: nat)
    ensures var s := System(Cleared(base, nrPages), map[], []);
      Healthy(s) && Dense(s.table, LocalOf(s.locals, c), 0) && s.table.nrPages == nrPages && s.grants == []
  {
    hide Tiled;
  }

  // After a flush a context has no page to go on with: its next small request opens one.
  lemma FlushOpensPage(s: System, c: nat, size: nat)
    requires Healthy(s) && size % 8 == 0 && size < MAX_SMALL_OBJECT
    ensures var f := Step(s, Flush(c));
      && Healthy(f) && f.table == s.table && f.grants == s.grants
      && (forall d :: LocalOf(f.locals, d) == if d == c then None else LocalOf(s.locals, d))
      && var u := Step(f, Request(c, size));
         if s.table.current < s.table.nrPages
         then u.grants == s.grants + [Grant(s.table.base + s.table.current * BASE_PAGE_SIZE, size, s.table.current)]
         else u == f
  {
  }
}
