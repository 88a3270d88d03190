// The page allocator: FlexPages made of 2 MiB base pages, the page table that
// opens them, and the per-thread context that keeps a small page to itself.
//
// `Table` is the value of a page table, and the functions on it are the
// specification. The classes below do the same work on fields in place.
module Pages {
  import opened Prelude

  const BASE_PAGE_SIZE: nat := 0x20_0000
  const MAX_SMALL_OBJECT: nat := 0x4_0000
  const MAX_MEDIUM_OBJECT: nat := 0x10_0000

  datatype Kind = Small | Medium | Huge(baseCount: nat) {
    function NrPages(): nat {
      match this
      case Small => 1
      case Medium => 4
      case Huge(n) => n
    }
  }

  datatype FlexPage = FlexPage(kind: Kind, start: nat, used: nat) {
    function Size(): nat { kind.NrPages() * BASE_PAGE_SIZE }

    function Free(): int { Size() - used }

    function Top(): nat { start + used }
  }

  datatype Table = Table(
    base: nat,
    nrPages: nat,
    current: nat,
    slots: seq<Option<FlexPage>>,
    medium: Option<nat>)
  {
    predicate Has(h: nat) { h < |slots| && slots[h].Some? }

    function Page(h: nat): FlexPage
      requires Has(h)
    {
      slots[h].value
    }

    function End(): nat { base + current * BASE_PAGE_SIZE }

    predicate Fits(kind: Kind) { current + kind.NrPages() <= nrPages }
  }

  // A piece of memory handed out by the allocator.
  datatype Grant = Grant(addr: nat, size: nat, page: nat) {
    function End(): nat { addr + size }

    predicate Apart(other: Grant) { End() <= other.addr || other.End() <= addr }
  }

  datatype Outcome = Outcome(table: Table, local: Option<nat>, grant: Option<Grant>)

  // ----- Tiling -----

  // A FlexPage in slot h covers base pages h .. h + NrPages.
  predicate PageOk(t: Table, h: nat)
    requires t.Has(h)
  {
    var p := t.Page(h);
    && p.start == t.base + h * BASE_PAGE_SIZE
    && p.used <= p.Size()
    && p.used % 8 == 0
    && p.kind.NrPages() >= 1
    && h + p.kind.NrPages() <= t.current
  }

  // The slot right after the last base page of the FlexPage in slot h.
  function NextSlot(t: Table, h: nat): nat
    requires t.Has(h)
  {
    h + t.Page(h).kind.NrPages()
  }

  predicate Covers(t: Table, h: nat, i: nat) {
    t.Has(h) && h <= i < NextSlot(t, h)
  }

  // Only the first slot of a FlexPage is occupied, and the next FlexPage begins where it stops.
  ghost predicate Tiled(t: Table) {
    && |t.slots| == t.nrPages
    && t.current <= t.nrPages
    && (t.current > 0 ==> t.Has(0))
    && (forall h: nat :: t.Has(h) ==> PageOk(t, h))
    && (forall h: nat {:trigger NextSlot(t, h)} :: t.Has(h) && NextSlot(t, h) < t.current ==> t.Has(NextSlot(t, h)))
    && (forall h: nat, i: nat :: Covers(t, h, i) && i != h ==> !t.Has(i))
    && (t.medium.Some? ==> t.Has(t.medium.value) && t.Page(t.medium.value).kind == Medium)
  }

  ghost predicate LocalOk(t: Table, local: Option<nat>) {
    local.Some? ==> t.Has(local.value) && t.Page(local.value).kind == Small
  }

  // Two FlexPages never share an address.
  lemma PagesApart(t: Table, g: nat, h: nat)
    requires Tiled(t) && t.Has(g) && t.Has(h) && g < h
    ensures t.Page(g).start + t.Page(g).Size() <= t.Page(h).start
  {
    assert !Covers(t, g, h);
  }

  // Every used base page belongs to a FlexPage: walk back to the nearest occupied slot.
  lemma {:induction false} OwnerExists(t: Table, i: nat, k: nat) returns (h: nat)
    requires Tiled(t) && k <= i < t.current
    requires forall j: nat :: k < j <= i ==> !t.Has(j)
    ensures Covers(t, h, i) && h <= k && forall j: nat :: h < j <= i ==> !t.Has(j)
    decreases k
  {
    if t.Has(k) {
      assert k == t.current - 1 || NextSlot(t, k) >= 0;
      h := k;
    } else {
      h := OwnerExists(t, i, k - 1);
    }
  }

  // FlexPages tile [0, current): each used base page is covered by exactly one FlexPage,
  // and no other base page is covered at all.
  lemma TilesExactly(t: Table, i: nat)
    requires Tiled(t)
    ensures i < t.current <==> exists h: nat :: Covers(t, h, i)
    ensures forall g: nat, h: nat :: Covers(t, g, i) && Covers(t, h, i) ==> g == h
  {
    if i < t.current {
      var h := OwnerExists(t, i, i);
    }
    forall g: nat, h: nat | Covers(t, g, i) && Covers(t, h, i) ensures g == h {
      if g < h { assert Covers(t, g, h); }
      if h < g { assert Covers(t, h, g); }
    }
  }

  // ----- Allocation, as functions on the table -----

  function Open(t: Table, kind: Kind): Table
    requires |t.slots| == t.nrPages && t.Fits(kind) && kind.NrPages() >= 1
  {
    t.(current := t.current + kind.NrPages(),
       slots := t.slots[t.current := Some(FlexPage(kind, t.base + t.current * BASE_PAGE_SIZE, 0))])
  }

  function Bump(t: Table, local: Option<nat>, h: nat, size: nat): Outcome
    requires t.Has(h)
  {
    var p := t.Page(h);
    Outcome(t.(slots := t.slots[h := Some(p.(used := p.used + size))]), local, Some(Grant(p.Top(), size, h)))
  }

  // Objects of 256 KiB and more: a shared medium page, or a page of their own from 1 MiB.
  function AllocShared(t: Table, local: Option<nat>, size: nat): Outcome
    requires Tiled(t)
  {
    if size >= MAX_MEDIUM_OBJECT then
      var kind := Huge(DivCeil(size, BASE_PAGE_SIZE));
      if t.Fits(kind) then Bump(Open(t, kind), local, t.current, size) else Outcome(t, local, None)
    else if t.medium.Some? && t.Page(t.medium.value).Free() >= size then
      Bump(t, local, t.medium.value, size)
    else if t.Fits(Medium) then
      Bump(Open(t, Medium).(medium := Some(t.current)), local, t.current, size)
    else
      Outcome(t, local, None)
  }

  // The allocation a context performs on a table.
  function AllocIn(t: Table, local: Option<nat>, size: nat): Outcome
    requires Tiled(t) && LocalOk(t, local)
  {
    if size >= MAX_SMALL_OBJECT then
      AllocShared(t, local, size)
    else if local.Some? && size < t.Page(local.value).Free() then
      Bump(t, local, local.value, size)
    else if t.Fits(Small) then
      Bump(Open(t, Small), Some(t.current), t.current, size)
    else
      Outcome(t, local, None)
  }

  lemma OpenKeepsTiling(t: Table, kind: Kind)
    requires Tiled(t) && t.Fits(kind) && kind.NrPages() >= 1
    ensures Tiled(Open(t, kind))
  {
    var u := Open(t, kind);
    assert forall h: nat :: u.Has(h) <==> t.Has(h) || h == t.current;
    forall h: nat, i: nat | Covers(u, h, i) && i != h ensures !u.Has(i) {
      if h != t.current { assert Covers(t, h, i); }
    }
    forall h: nat | u.Has(h) && NextSlot(u, h) < u.current ensures u.Has(NextSlot(u, h)) {
      if h != t.current { assert NextSlot(t, h) == NextSlot(u, h); }
    }
  }

  lemma BumpKeepsTiling(t: Table, local: Option<nat>, h: nat, size: nat)
    requires Tiled(t) && t.Has(h) && size % 8 == 0 && size <= t.Page(h).Free()
    ensures Tiled(Bump(t, local, h, size).table)
  {
    var u := Bump(t, local, h, size).table;
    assert forall g: nat :: u.Has(g) <==> t.Has(g);
    forall g: nat | u.Has(g) ensures PageOk(u, g) && NextSlot(u, g) == NextSlot(t, g) {
      assert PageOk(t, g);
    }
    forall g: nat, i: nat | Covers(u, g, i) && i != g ensures !u.Has(i) {
      assert Covers(t, g, i);
    }
  }

  // What was the used size of slot h before the allocation (a page just opened had none).
  function UsedBefore(t: Table, h: nat): nat {
    if t.Has(h) then t.Page(h).used else 0
  }

  // The grant takes the bytes right above what its page had in use, moves that mark by
  // exactly its size, and touches no other page that existed.
  ghost predicate GrantedFrom(t: Table, t': Table, g: Grant) {
    && t'.Has(g.page)
    && (t.Has(g.page) || g.page == t.current)
    && g.addr == t'.base + g.page * BASE_PAGE_SIZE + UsedBefore(t, g.page)
    && t'.Page(g.page).used == UsedBefore(t, g.page) + g.size
    && (forall h: nat :: t.Has(h) ==> t'.Has(h) && (h != g.page ==> t'.Page(h) == t.Page(h)))
    && (forall h: nat :: t'.Has(h) ==> t.Has(h) || h == g.page)
  }

  // The number of fresh base pages the request would consume.
  function PagesNeeded(t: Table, local: Option<nat>, size: nat): nat
    requires Tiled(t) && LocalOk(t, local)
  {
    if size >= MAX_MEDIUM_OBJECT then DivCeil(size, BASE_PAGE_SIZE)
    else if size >= MAX_SMALL_OBJECT then
      if t.medium.Some? && t.Page(t.medium.value).Free() >= size then 0 else 4
    else
      if local.Some? && size < t.Page(local.value).Free() then 0 else 1
  }

  // The table stays tiled, the context keeps a small page, and the grant is accounted for.
  ghost predicate StepOk(t: Table, o: Outcome) {
    && Tiled(o.table) && LocalOk(o.table, o.local)
    && o.table.base == t.base && o.table.nrPages == t.nrPages
    && (o.grant.None? ==> o.table == t)
    && (o.grant.Some? ==> GrantedFrom(t, o.table, o.grant.value))
  }

  // One allocation: it keeps the tiling and the context's claim on its page, it fails
  // exactly when a fresh page is needed and does not fit, and a failure changes nothing.
  lemma AllocStep(t: Table, local: Option<nat>, size: nat)
    requires Tiled(t) && LocalOk(t, local) && size % 8 == 0
    ensures StepOk(t, AllocIn(t, local, size))
    ensures var o := AllocIn(t, local, size);
      && (o.grant.None? <==> t.current + PagesNeeded(t, local, size) > t.nrPages)
      && (o.grant.None? ==> o.local == local)
      && (o.grant.Some? ==> o.grant.value.size == size)
      && (o.grant.Some? ==> o.table.current == t.current + PagesNeeded(t, local, size))
  {
    if size >= MAX_SMALL_OBJECT {
      SharedStep(t, local, size);
    } else if local.Some? && size < t.Page(local.value).Free() {
      ReuseStep(t, local, local.value, size);
    } else if t.Fits(Small) {
      FreshStep(t, Some(t.current), Small, t.medium, size);
    }
  }

  lemma SharedStep(t: Table, local: Option<nat>, size: nat)
    requires Tiled(t) && LocalOk(t, local) && size % 8 == 0 && size >= MAX_SMALL_OBJECT
    ensures StepOk(t, AllocShared(t, local, size))
    ensures AllocShared(t, local, size).local == local
  {
    if size >= MAX_MEDIUM_OBJECT {
      var kind := Huge(DivCeil(size, BASE_PAGE_SIZE));
      if t.Fits(kind) { FreshStep(t, local, kind, t.medium, size); }
    } else if t.medium.Some? && t.Page(t.medium.value).Free() >= size {
      ReuseStep(t, local, t.medium.value, size);
    } else if t.Fits(Medium) {
      FreshStep(t, local, Medium, Some(t.current), size);
    }
  }

  // The local page plays no part in it.
  lemma SharedIgnoresLocal(t: Table, local: Option<nat>, size: nat)
    requires Tiled(t)
    ensures AllocShared(t, local, size) == AllocShared(t, None, size).(local := local)
  {
  }

  lemma SharedKeepsLocal(t: Table, local: Option<nat>, size: nat)
    requires Tiled(t) && LocalOk(t, local) && StepOk(t, AllocShared(t, local, size))
    requires AllocShared(t, local, size).local == local
    ensures Tiled(AllocShared(t, local, size).table) && LocalOk(AllocShared(t, local, size).table, local)
  {
    hide AllocShared, Tiled;
  }

  lemma ReuseStep(t: Table, local: Option<nat>, h: nat, size: nat)
    requires Tiled(t) && LocalOk(t, local) && size % 8 == 0 && t.Has(h) && size <= t.Page(h).Free()
    ensures StepOk(t, Bump(t, local, h, size))
  {
    BumpKeepsTiling(t, local, h, size);
  }

  // Opening a page and taking the first bytes of it.
  lemma FreshStep(t: Table, local: Option<nat>, kind: Kind, medium: Option<nat>, size: nat)
    requires Tiled(t) && size % 8 == 0 && t.Fits(kind) && kind.NrPages() >= 1
    requires size <= kind.NrPages() * BASE_PAGE_SIZE
    requires medium == t.medium || (kind == Medium && medium == Some(t.current))
    requires LocalOk(t, local) || (kind == Small && local == Some(t.current))
    ensures StepOk(t, Bump(Open(t, kind).(medium := medium), local, t.current, size))
  {
    var u := Open(t, kind);
    var v := u.(medium := medium);
    OpenKeepsTiling(t, kind);
    MediumKeepsTiling(u, v);
    BumpKeepsTiling(v, local, t.current, size);
  }

  lemma MediumKeepsTiling(u: Table, v: Table)
    requires Tiled(u) && (v == u || exists h: nat :: u.Has(h) && u.Page(h).kind == Medium && v == u.(medium := Some(h)))
    ensures Tiled(v)
  {
    assert forall h: nat :: v.Has(h) <==> u.Has(h);
    assert forall h: nat :: u.Has(h) ==> NextSlot(v, h) == NextSlot(u, h);
    assert forall h: nat, i: nat :: Covers(v, h, i) <==> Covers(u, h, i);
  }

  // Another context's claim on its own page survives any allocation.
  lemma AllocKeepsOthers(t: Table, local: Option<nat>, size: nat, other: Option<nat>)
    requires Tiled(t) && LocalOk(t, local) && size % 8 == 0 && LocalOk(t, other)
    ensures LocalOk(AllocIn(t, local, size).table, other)
  {
    AllocStep(t, local, size);
  }

  // A small object never fills its page to the last byte: the page is given up first. A medium object
  // may fill the shared page exactly.
  lemma SmallLeavesRoom(t: Table, local: Option<nat>, size: nat)
    requires Tiled(t) && LocalOk(t, local) && size % 8 == 0 && size < MAX_SMALL_OBJECT
    ensures var o := AllocIn(t, local, size);
      o.grant.Some? ==> o.local.Some? && o.table.Has(o.local.value) && o.table.Page(o.local.value).Free() > 0
  {
    AllocStep(t, local, size);
  }

  lemma MediumFillsExactly(t: Table, local: Option<nat>, h: nat)
    requires Tiled(t) && LocalOk(t, local) && t.medium == Some(h)
    requires MAX_SMALL_OBJECT <= t.Page(h).Free() < MAX_MEDIUM_OBJECT
    ensures var o := AllocIn(t, local, t.Page(h).Free());
      o.grant.Some? && o.grant.value.page == h && o.table.current == t.current && o.table.Page(h).Free() == 0
  {
  }

  function Cleared(base: nat, nrPages: nat): (t: Table)
    ensures Tiled(t)
  {
    Table(base, nrPages, 0, seq(nrPages, _ => None), None)
  }

  // The FlexPage whose bytes contain an address.
  predicate Holds(t: Table, h: nat, addr: nat) {
    t.Has(h) && t.Page(h).start <= addr < t.Page(h).start + t.Page(h).Size()
  }

  // ----- The page table and the context, updated in place -----

  class PageTable {
    const base: nat
    const nrPages: nat
    var currentBasePage: nat
    var pages: seq<Option<FlexPage>>
    var mediumBufferPage: Option<nat>

    constructor (base: nat, nrPages: nat)
      ensures State() == Cleared(base, nrPages)
    {
      this.base, this.nrPages := base, nrPages;
      currentBasePage, pages, mediumBufferPage := 0, seq(nrPages, _ => None), None;
    }

    ghost function State(): Table
      reads this
    {
      Table(base, nrPages, currentBasePage, pages, mediumBufferPage)
    }

    ghost predicate Valid()
      reads this
    {
      Tiled(State())
    }

    // Returns the page whose range contains the address. The backward walk stops at the
    // first occupied slot, and tiling makes that slot the owner.
    method ResolveToPage(addr: nat) returns (r: Option<nat>)
      requires Valid()
      ensures r.Some? <==> base <= addr < State().End()
      ensures r.Some? ==> Holds(State(), r.value, addr)
      ensures forall h: nat :: Holds(State(), h, addr) ==> r == Some(h)
    {
      ghost var t := State();
      if addr < base {
        return None;
      }
      var pageId := (addr - base) / BASE_PAGE_SIZE;
      assert forall h: nat :: Holds(t, h, addr) <==> Covers(t, h, pageId);
      TilesExactly(t, pageId);
      if pageId >= currentBasePage {
        return None;
      }
      var current := pageId;
      while true
        invariant current <= pageId
        invariant forall j: nat :: current < j <= pageId ==> !t.Has(j)
        decreases current
      {
        if pages[current].Some? {
          var page := pages[current].value;
          assert t.Has(current);
          ghost var owner := OwnerExists(t, pageId, current);
          assert owner == current && Covers(t, current, pageId);
          if page.start <= addr < page.start + page.Size() {
            return Some(current);
          }
          return None;
        }
        if current == 0 {
          return None;
        }
        current := current - 1;
      }
    }

    method Clear()
      modifies this
      ensures State() == Cleared(base, nrPages)
    {
      currentBasePage := 0;
      pages := seq(nrPages, _ => None);
      mediumBufferPage := None;
    }

    method AllocPage(kind: Kind) returns (r: Option<nat>)
      requires Valid() && kind.NrPages() >= 1
      modifies this
      ensures Valid()
      ensures r.None? ==> !old(State()).Fits(kind) && State() == old(State())
      ensures r.Some? ==>
        old(State()).Fits(kind) && r.value == old(currentBasePage) && State() == Open(old(State()), kind)
    {
      var next := currentBasePage + kind.NrPages();
      if next > nrPages {
        return None;
      }
      OpenKeepsTiling(State(), kind);
      var pageIndex := currentBasePage;
      currentBasePage := next;
      pages := pages[pageIndex := Some(FlexPage(kind, base + pageIndex * BASE_PAGE_SIZE, 0))];
      r := Some(pageIndex);
    }

    // Bump allocation inside one FlexPage.
    method BumpPage(pageId: nat, size: nat) returns (g: Option<Grant>)
      requires Valid() && State().Has(pageId) && size % 8 == 0
      modifies this`pages
      ensures Valid()
      ensures g.Some? <==> old(State()).Page(pageId).Free() >= size
      ensures g.None? ==> State() == old(State())
      ensures g.Some? ==> Outcome(State(), None, g) == Bump(old(State()), None, pageId, size)
    {
      var page := pages[pageId].value;
      if page.Free() < size {
        return None;
      }
      BumpKeepsTiling(State(), None, pageId, size);
      pages := pages[pageId := Some(page.(used := page.used + size))];
      g := Some(Grant(page.start + page.used, size, pageId));
    }

    method Alloc(size: nat) returns (g: Option<Grant>)
      requires Valid() && size % 8 == 0
      modifies this
      ensures Valid()
      ensures g == AllocShared(old(State()), None, size).grant
      ensures State() == AllocShared(old(State()), None, size).table
    {
      if size >= MAX_MEDIUM_OBJECT {
        var pageId := AllocPage(Huge(DivCeil(size, BASE_PAGE_SIZE)));
        if pageId.None? {
          return None;
        }
        g := BumpPage(pageId.value, size);
        return;
      }
      if mediumBufferPage.None? {
        var pageId := AllocPage(Medium);
        if pageId.None? {
          return None;
        }
        ghost var u := State();
        mediumBufferPage := pageId;
        MediumKeepsTiling(u, State());
      }
      if pages[mediumBufferPage.value].value.Free() < size {
        var pageId := AllocPage(Medium);
        if pageId.None? {
          return None;
        }
        ghost var u := State();
        mediumBufferPage := pageId;
        MediumKeepsTiling(u, State());
      }
      g := BumpPage(mediumBufferPage.value, size);
    }
  }

  class Context {
    var localBufferPage: Option<nat>

    constructor ()
      ensures localBufferPage == None
    {
      localBufferPage := None;
    }

    method AllocFromPageTable(pageTable: PageTable, size: nat) returns (g: Option<Grant>)
      requires pageTable.Valid() && LocalOk(pageTable.State(), localBufferPage) && size % 8 == 0
      modifies this, pageTable
      ensures pageTable.Valid() && LocalOk(pageTable.State(), localBufferPage)
      ensures Outcome(pageTable.State(), localBufferPage, g)
           == AllocIn(old(pageTable.State()), old(localBufferPage), size)
    {
      hide GrantedFrom, AllocShared, StepOk, Tiled;
      ghost var t, local := pageTable.State(), localBufferPage;
      if size >= MAX_SMALL_OBJECT {
        SharedStep(t, local, size);
        SharedIgnoresLocal(t, local, size);
        SharedKeepsLocal(t, local, size);
        g := pageTable.Alloc(size);
        return;
      }
      g := AllocSmall(pageTable, size);
    }

    // The local page, or a fresh one when it has no room left over.
    method AllocSmall(pageTable: PageTable, size: nat) returns (g: Option<Grant>)
      requires pageTable.Valid() && LocalOk(pageTable.State(), localBufferPage) && size % 8 == 0
      requires size < MAX_SMALL_OBJECT
      modifies this, pageTable
      ensures pageTable.Valid() && LocalOk(pageTable.State(), localBufferPage)
      ensures Outcome(pageTable.State(), localBufferPage, g)
           == AllocIn(old(pageTable.State()), old(localBufferPage), size)
    {
      if localBufferPage.None? {
        var pageId := pageTable.AllocPage(Small);
        if pageId.None? {
          return None;
        }
        localBufferPage := pageId;
      }
      if size >= pageTable.pages[localBufferPage.value].value.Free() {
        var pageId := pageTable.AllocPage(Small);
        if pageId.None? {
          return None;
        }
        localBufferPage := pageId;
      }
      g := pageTable.BumpPage(localBufferPage.value, size);
    }
  }
}
