// Which records each page's query delivers. The destination vector is in insertion order, so
// the queries are right exactly when the destinations came out increasing.
module Partition {
  import opened Prelude
  import opened Pages
  import opened PageRuns
  import opened Placement
  import opened Registry

  // One record per grant, holding the grant's offset into the space.
  ghost predicate Recorded(m: Placed, rs: seq<Record>) {
    && |rs| == |m.grants|
    && (forall i :: 0 <= i < |rs| ==> rs[i].dest + m.table.base == m.grants[i].addr && rs[i].size == m.grants[i].size)
  }

  function PageLo(t: Table, h: nat): nat { h * BASE_PAGE_SIZE }

  function PageHi(t: Table, h: nat): nat
    requires t.Has(h)
  {
    h * BASE_PAGE_SIZE + t.Page(h).Size()
  }

  // The page a record's destination lies in.
  predicate InPage(t: Table, h: nat, r: Record)
    requires t.Has(h)
  {
    PageLo(t, h) <= r.dest && r.dest + r.size <= PageHi(t, h)
  }

  // A record meets a page's range only if it lies entirely inside it: no record straddles two
  // pages, and each record lies in one page.
  lemma RecordInOnePage(m: Placed, rs: seq<Record>, i: nat, h: nat)
    requires Good(m) && Recorded(m, rs) && i < |rs| && m.table.Has(h)
    ensures Meets(Dest, rs[i], PageLo(m.table, h), PageHi(m.table, h)) <==> h == m.grants[i].page
    ensures h == m.grants[i].page ==> InPage(m.table, h, rs[i])
  {
    var g := m.grants[i];
    assert Inside(m.table, g) && PageOk(m.table, g.page) && PageOk(m.table, h);
    if g.page < h {
      PagesApart(m.table, g.page, h);
    } else if h < g.page {
      PagesApart(m.table, h, g.page);
    }
  }

  lemma RecordedDisjoint(m: Placed, rs: seq<Record>)
    requires Good(m) && Recorded(m, rs)
    ensures Disjoint(Dest, rs) && NonEmpty(rs)
    ensures Increasing(m.grants) <==> Sorted(Dest, rs)
  {
    forall i, j | 0 <= i < j < |rs|
      ensures End(Dest, rs[i]) <= Start(Dest, rs[j]) || End(Dest, rs[j]) <= Start(Dest, rs[i])
      ensures m.grants[i].End() <= m.grants[j].addr <==> End(Dest, rs[i]) <= Start(Dest, rs[j])
    {
      assert m.grants[i].Apart(m.grants[j]);
    }
    forall i | 0 <= i < |rs| ensures rs[i].size > 0 {
      assert m.grants[i].size > 0;
    }
  }

  // A page's query, stopped wherever the search may stop, delivers the records of the page in
  // order. When it does, each of them passes the two containment assertions of the copier.
  ghost predicate Served(t: Table, rs: seq<Record>, h: nat, at: Option<nat>)
    requires t.Has(h) && (at.Some? ==> at.value < |rs|)
  {
    Deliver(Dest, rs, at, PageHi(t, h)) == Meeting(Dest, rs, PageLo(t, h), PageHi(t, h))
  }

  // A page begins exactly at a record.
  lemma PageOpener(m: Placed, rs: seq<Record>, h: nat) returns (i: nat)
    requires Good(m) && Recorded(m, rs) && m.table.Has(h)
    ensures i < |rs| && m.grants[i].page == h && rs[i].dest == PageLo(m.table, h)
    ensures Contains(Dest, rs[i], PageLo(m.table, h))
    ensures PageLo(m.table, h) < PageHi(m.table, h)
  {
    assert Opened(m, h) && PageOk(m.table, h);
    i :| i < |m.grants| && m.grants[i].page == h && StartsAt(m.table, m.grants[i]);
  }

  // With increasing destinations every page is served.
  lemma IncreasingServes(m: Placed, rs: seq<Record>, h: nat, at: Option<nat>)
    requires Good(m) && Recorded(m, rs) && Increasing(m.grants)
    requires m.table.Has(h) && SearchResult(Dest, rs, PageLo(m.table, h), at)
    ensures Served(m.table, rs, h, at)
  {
    var i := PageOpener(m, rs, h);
    RecordedDisjoint(m, rs);
    hide Good, Recorded, Increasing, Sorted, Disjoint, NonEmpty, Meeting;
    assert rs[i] in rs;
    QueryRightIff(Dest, rs, PageLo(m.table, h), PageHi(m.table, h), at);
  }

  lemma {:induction false} AdjacentInversion(grants: seq<Grant>) returns (k: nat)
    requires !Increasing(grants) && forall i :: 0 <= i < |grants| ==> grants[i].size > 0
    ensures k + 1 < |grants| && grants[k].End() > grants[k + 1].addr
  {
    var n := |grants| - 1;
    var init := grants[..n];
    if Increasing(init) {
      assert grants == init + [grants[n]];
      IncreasingSnoc(init, grants[n]);
      var i :| 0 <= i < n && init[i].End() > grants[n].addr;
      k := n - 1;
      if i != k { assert init[i].End() <= init[k].addr; }
    } else {
      k := AdjacentInversion(init);
    }
  }

  ghost predicate AllInPage(t: Table, h: nat, rs: seq<Record>)
    requires t.Has(h)
  {
    forall r :: r in rs ==> InPage(t, h, r)
  }

  ghost predicate Complete(t: Table, rs: seq<Record>, h: nat, delivered: seq<Record>)
    requires t.Has(h)
  {
    forall r :: r in rs && InPage(t, h, r) ==> r in delivered
  }

  lemma MeetsIffInPage(m: Placed, rs: seq<Record>, h: nat, r: Record)
    requires Good(m) && Recorded(m, rs) && m.table.Has(h) && r in rs
    ensures Meets(Dest, r, PageLo(m.table, h), PageHi(m.table, h)) <==> InPage(m.table, h, r)
  {
    var i: nat :| i < |rs| && rs[i] == r;
    RecordInOnePage(m, rs, i, h);
    assert Inside(m.table, m.grants[i]);
    hide Tiled, Ordered, AllOpened;
  }

  // A query is right if and only if it delivers no record of another page and misses none of its
  // own: what it delivers is a run of the records, so their order is then right as well.
  lemma ServedIff(m: Placed, rs: seq<Record>, h: nat, at: Option<nat>)
    requires Good(m) && Recorded(m, rs) && m.table.Has(h) && (at.Some? ==> at.value < |rs|)
    ensures var delivered := Deliver(Dest, rs, at, PageHi(m.table, h));
      Served(m.table, rs, h, at) <==> AllInPage(m.table, h, delivered) && Complete(m.table, rs, h, delivered)
  {
    hide Good, Recorded, Deliver, Meeting, InPage, PageHi, PageLo, Meets;
    RecordedDisjoint(m, rs);
    MeetingSpec(Dest, rs, PageLo(m.table, h), PageHi(m.table, h));
    forall r | r in rs ensures Meets(Dest, r, PageLo(m.table, h), PageHi(m.table, h)) <==> InPage(m.table, h, r) {
      MeetsIffInPage(m, rs, h, r);
    }
    var delivered := Deliver(Dest, rs, at, PageHi(m.table, h));
    DeliveredAreRecords(rs, at, PageHi(m.table, h));
    if AllInPage(m.table, h, delivered) && Complete(m.table, rs, h, delivered) {
      RunIsMeeting(rs, at, PageLo(m.table, h), PageHi(m.table, h));
    }
  }

  lemma DeliveredAreRecords(rs: seq<Record>, at: Option<nat>, hi: nat)
    requires at.Some? ==> at.value < |rs|
    ensures forall r :: r in Deliver(Dest, rs, at, hi) ==> r in rs
  {
  }

  // A run that holds exactly the records meeting a range is all of them, in order.
  lemma RunIsMeeting(rs: seq<Record>, at: Option<nat>, lo: nat, hi: nat)
    requires Disjoint(Dest, rs) && NonEmpty(rs) && (at.Some? ==> at.value < |rs|)
    requires forall r :: r in Deliver(Dest, rs, at, hi) ==> Meets(Dest, r, lo, hi)
    requires forall r :: r in rs && Meets(Dest, r, lo, hi) ==> r in Deliver(Dest, rs, at, hi)
    ensures Deliver(Dest, rs, at, hi) == Meeting(Dest, rs, lo, hi)
  {
    hide Meeting, Disjoint, NonEmpty, Meets;
    if at.None? {
      assert forall i :: 0 <= i < |rs| ==> rs[i] in rs;
      MeetingNone(Dest, rs, lo, hi);
    } else {
      SliceIsMeeting(rs, at.value, RunEnd(Dest, rs, at.value, hi), lo, hi);
    }
  }

  lemma SliceIsMeeting(rs: seq<Record>, i: nat, e: nat, lo: nat, hi: nat)
    requires Disjoint(Dest, rs) && NonEmpty(rs) && i <= e <= |rs|
    requires forall r :: r in rs[i..e] ==> Meets(Dest, r, lo, hi)
    requires forall r :: r in rs && Meets(Dest, r, lo, hi) ==> r in rs[i..e]
    ensures rs[i..e] == Meeting(Dest, rs, lo, hi)
  {
    hide *;
    var a, b, c := rs[..i], rs[i..e], rs[e..];
    forall k | 0 <= k < |a| ensures !Meets(Dest, a[k], lo, hi) { OutsideRun(rs, i, e, k, lo, hi); }
    forall k | 0 <= k < |c| ensures !Meets(Dest, c[k], lo, hi) { OutsideRun(rs, i, e, e + k, lo, hi); }
    MeetingNone(Dest, a, lo, hi);
    MeetingAll(Dest, b, lo, hi);
    MeetingNone(Dest, c, lo, hi);
    MeetingConcat(Dest, b, c, lo, hi);
    MeetingConcat(Dest, a, b + c, lo, hi);
    assert rs == a + (b + c);
  }

  lemma OutsideRun(rs: seq<Record>, i: nat, e: nat, k: nat, lo: nat, hi: nat)
    requires Disjoint(Dest, rs) && NonEmpty(rs) && i <= e <= |rs| && k < |rs| && !(i <= k < e)
    requires forall r :: r in rs && Meets(Dest, r, lo, hi) ==> r in rs[i..e]
    ensures !Meets(Dest, rs[k], lo, hi)
  {
    hide Disjoint;
    if rs[k] in rs[i..e] {
      var j :| 0 <= j < e - i && rs[i..e][j] == rs[k];
      assert rs[i + j] == rs[k];
      SameIndex(Dest, rs, i + j, k, rs[k].dest);
    }
    assert rs[k] in rs;
  }

  // Otherwise some page's query goes wrong, wherever its search stops: it delivers a record of
  // another page, which trips the assertions, or it misses a record of the page.
  lemma OutOfOrderFails(m: Placed, rs: seq<Record>) returns (h: nat)
    requires Good(m) && Recorded(m, rs) && !Increasing(m.grants)
    ensures m.table.Has(h)
    ensures forall at: Option<nat> ::
      SearchResult(Dest, rs, PageLo(m.table, h), at) && (at.Some? ==> at.value < |rs|) ==>
        var delivered := Deliver(Dest, rs, at, PageHi(m.table, h));
        !AllInPage(m.table, h, delivered) || !Complete(m.table, rs, h, delivered)
  {
    h := OutOfOrderPage(m, rs);
    hide Good, Recorded, Increasing, SearchResult, Served;
    forall at: Option<nat> | SearchResult(Dest, rs, PageLo(m.table, h), at) && (at.Some? ==> at.value < |rs|)
      ensures var delivered := Deliver(Dest, rs, at, PageHi(m.table, h));
        !AllInPage(m.table, h, delivered) || !Complete(m.table, rs, h, delivered)
    {
      ServedIff(m, rs, h, at);
    }
  }

  lemma OutOfOrderPage(m: Placed, rs: seq<Record>) returns (h: nat)
    requires Good(m) && Recorded(m, rs) && !Increasing(m.grants)
    ensures m.table.Has(h)
    ensures forall at: Option<nat> ::
      SearchResult(Dest, rs, PageLo(m.table, h), at) && (at.Some? ==> at.value < |rs|) ==> !Served(m.table, rs, h, at)
  {
    hide Good, Recorded, SearchResult, Served, Meets, InPage, PageLo, PageHi, Meeting, Deliver, Disjoint, NonEmpty;
    RecordedDisjoint(m, rs);
    GrantsNonEmpty(m, rs);
    var k := AdjacentInversion(m.grants);
    h := GoesBack(m, rs, k);
    var lo, hi := PageLo(m.table, h), PageHi(m.table, h);
    forall at: Option<nat> | SearchResult(Dest, rs, lo, at) && (at.Some? ==> at.value < |rs|)
      ensures !Served(m.table, rs, h, at)
    {
      BackNotServed(m, rs, k, h, at);
    }
  }

  lemma GrantsNonEmpty(m: Placed, rs: seq<Record>)
    requires Good(m) && Recorded(m, rs)
    ensures |rs| == |m.grants|
    ensures forall i :: 0 <= i < |m.grants| ==> m.grants[i].size > 0
  {
  }

  // The record after an inversion is in an earlier page than the one before.
  lemma GoesBack(m: Placed, rs: seq<Record>, k: nat) returns (h: nat)
    requires Good(m) && Recorded(m, rs) && k + 1 < |m.grants| && m.grants[k].End() > m.grants[k + 1].addr
    ensures m.table.Has(h) && Meets(Dest, rs[k], PageLo(m.table, h), PageHi(m.table, h))
    ensures !Meets(Dest, rs[k + 1], PageLo(m.table, h), PageHi(m.table, h)) && rs[k + 1].dest < PageHi(m.table, h)
  {
    var p, q := m.grants[k], m.grants[k + 1];
    assert p.Apart(q) && Inside(m.table, p) && Inside(m.table, q);
    h := p.page;
    assert PageOk(m.table, h) && PageOk(m.table, q.page);
    assert q.page < h by {
      if h < q.page { PagesApart(m.table, h, q.page); }
    }
    RecordInOnePage(m, rs, k, h);
    RecordInOnePage(m, rs, k + 1, h);
    PagesApart(m.table, q.page, h);
    hide Tiled, AllOpened, AllInside, Ordered;
  }

  lemma BackNotServed(m: Placed, rs: seq<Record>, k: nat, h: nat, at: Option<nat>)
    requires Disjoint(Dest, rs) && NonEmpty(rs) && k + 1 < |rs| && m.table.Has(h) && (at.Some? ==> at.value < |rs|)
    requires Meets(Dest, rs[k], PageLo(m.table, h), PageHi(m.table, h))
    requires !Meets(Dest, rs[k + 1], PageLo(m.table, h), PageHi(m.table, h)) && rs[k + 1].dest < PageHi(m.table, h)
    ensures !Served(m.table, rs, h, at)
  {
    hide Disjoint, NonEmpty, Meets, PageLo, PageHi, Meeting;
    MeetingSpec(Dest, rs, PageLo(m.table, h), PageHi(m.table, h));
    assert rs[k] in rs && rs[k] in Meeting(Dest, rs, PageLo(m.table, h), PageHi(m.table, h));
    if at.Some? && Served(m.table, rs, h, at) {
      DeliversBoth(rs, at.value, PageHi(m.table, h), k);
    }
  }

  // A delivery that contains record k goes on to record k + 1 when that one starts below hi.
  lemma DeliversBoth(rs: seq<Record>, i: nat, hi: nat, k: nat)
    requires Disjoint(Dest, rs) && NonEmpty(rs) && i < |rs| && k + 1 < |rs|
    requires rs[k] in Deliver(Dest, rs, Some(i), hi) && rs[k + 1].dest < hi
    ensures rs[k + 1] in Deliver(Dest, rs, Some(i), hi)
  {
    var e := RunEnd(Dest, rs, i, hi);
    var d := rs[i..e];
    var j :| 0 <= j < |d| && d[j] == rs[k];
    assert rs[i + j] == rs[k];
    SameIndex(Dest, rs, i + j, k, rs[k].dest);
    assert k + 1 != e;
    assert d[k + 1 - i] == rs[k + 1];
  }

  // The per-page queries are right for every page, wherever the searches stop, if and only if
  // every placement was at the frontier of the table.
  lemma PageQueriesRightIff(base: nat, nrPages: nat, sizes: seq<nat>, rs: seq<Record>)
    requires SizesOk(sizes) && Place(base, nrPages, sizes).Some?
    requires Recorded(Place(base, nrPages, sizes).value, rs)
    ensures var t := Place(base, nrPages, sizes).value.table;
      FrontierRun(base, nrPages, sizes)
      <==> forall h: nat, at ::
             t.Has(h) && SearchResult(Dest, rs, PageLo(t, h), at) ==> Served(t, rs, h, at)
  {
    var m := Place(base, nrPages, sizes).value;
    var t := m.table;
    IncreasingIff(base, nrPages, sizes);
    if Increasing(m.grants) {
      forall h: nat, at | t.Has(h) && SearchResult(Dest, rs, PageLo(t, h), at) ensures Served(t, rs, h, at) {
        IncreasingServes(m, rs, h, at);
      }
    } else {
      var h := OutOfOrderPage(m, rs);
      var at := SomeResult(rs, PageLo(t, h));
      assert !Served(t, rs, h, at);
    }
  }

  // A search always has some result.
  lemma SomeResult(rs: seq<Record>, x: nat) returns (at: Option<nat>)
    ensures SearchResult(Dest, rs, x, at)
  {
    if i: nat :| i < |rs| && Contains(Dest, rs[i], x) {
      at := Some(i);
    } else {
      at := None;
    }
  }
}
