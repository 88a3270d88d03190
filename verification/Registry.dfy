// The relocation registry: records kept in two vectors and queried by binary search.
// The reference definitions are linear scans over the records.
module Registry {
  import opened Prelude

  datatype Record = Record(src: nat, dest: nat, size: nat)

  // Which range of a record a query looks at.
  datatype Side = Src | Dest

  function Start(side: Side, r: Record): nat {
    if side == Src then r.src else r.dest
  }

  function End(side: Side, r: Record): nat {
    Start(side, r) + r.size
  }

  predicate Contains(side: Side, r: Record, x: nat) {
    Start(side, r) <= x < End(side, r)
  }

  predicate Meets(side: Side, r: Record, lo: nat, hi: nat) {
    Start(side, r) < hi && lo < End(side, r)
  }

  ghost predicate NonEmpty(rs: seq<Record>) {
    forall i :: 0 <= i < |rs| ==> rs[i].size > 0
  }

  // Each record ends before the next one starts.
  ghost predicate Sorted(side: Side, rs: seq<Record>) {
    forall i, j :: 0 <= i < j < |rs| ==> End(side, rs[i]) <= Start(side, rs[j])
  }

  // Records at different positions do not overlap, in whatever order they come.
  ghost predicate Disjoint(side: Side, rs: seq<Record>) {
    forall i, j :: 0 <= i < j < |rs| ==>
      End(side, rs[i]) <= Start(side, rs[j]) || End(side, rs[j]) <= Start(side, rs[i])
  }

  lemma SortedIsDisjoint(side: Side, rs: seq<Record>)
    requires Sorted(side, rs)
    ensures Disjoint(side, rs)
  {
  }

  // ----- Linear scans -----

  function Find(side: Side, rs: seq<Record>, x: nat): Option<Record> {
    if rs == [] then None
    else if Contains(side, rs[0], x) then Some(rs[0])
    else Find(side, rs[1..], x)
  }

  function Keep(side: Side, r: Record, lo: nat, hi: nat): seq<Record> {
    if Meets(side, r, lo, hi) then [r] else []
  }

  // All records that meet [lo, hi), in order.
  function Meeting(side: Side, rs: seq<Record>, lo: nat, hi: nat): seq<Record> {
    if rs == [] then [] else Keep(side, rs[0], lo, hi) + Meeting(side, rs[1..], lo, hi)
  }

  // Where a source address goes.
  function MapAddr(rs: seq<Record>, x: nat): Option<nat> {
    var r := Find(Src, rs, x);
    if r.None? then None else FindSpec(Src, rs, x); Some(r.value.dest + (x - r.value.src))
  }

  lemma {:induction false} FindSpec(side: Side, rs: seq<Record>, x: nat)
    ensures Find(side, rs, x).Some? ==> Find(side, rs, x).value in rs && Contains(side, Find(side, rs, x).value, x)
    ensures Find(side, rs, x).None? ==> forall r :: r in rs ==> !Contains(side, r, x)
  {
    if rs != [] {
      FindSpec(side, rs[1..], x);
      assert forall r :: r in rs ==> r == rs[0] || r in rs[1..];
    }
  }

  lemma {:induction false} MeetingSpec(side: Side, rs: seq<Record>, lo: nat, hi: nat)
    ensures forall r :: r in Meeting(side, rs, lo, hi) <==> r in rs && Meets(side, r, lo, hi)
  {
    if rs != [] {
      MeetingSpec(side, rs[1..], lo, hi);
      assert forall r :: r in rs <==> r == rs[0] || r in rs[1..];
    }
  }

  // With disjoint records the scan does not depend on their order.
  lemma FindUnique(side: Side, rs: seq<Record>, x: nat, r: Record)
    requires Disjoint(side, rs) && r in rs && Contains(side, r, x)
    ensures Find(side, rs, x) == Some(r)
  {
    FindSpec(side, rs, x);
    var f := Find(side, rs, x);
    var i :| 0 <= i < |rs| && rs[i] == r;
    var j :| 0 <= j < |rs| && rs[j] == f.value;
    SameIndex(side, rs, i, j, x);
  }

  lemma SameIndex(side: Side, rs: seq<Record>, i: nat, j: nat, x: nat)
    requires Disjoint(side, rs) && i < |rs| && j < |rs|
    requires Contains(side, rs[i], x) && Contains(side, rs[j], x)
    ensures i == j
  {
  }

  // The address map: defined exactly on covered bytes, and every byte keeps its place in its record.
  lemma MapAddrExact(rs: seq<Record>, x: nat)
    requires Disjoint(Src, rs)
    ensures MapAddr(rs, x).Some? <==> exists r :: r in rs && Contains(Src, r, x)
    ensures forall r :: r in rs && Contains(Src, r, x) ==> MapAddr(rs, x) == Some(r.dest + (x - r.src))
  {
    FindSpec(Src, rs, x);
    forall r | r in rs && Contains(Src, r, x) ensures MapAddr(rs, x) == Some(r.dest + (x - r.src)) {
      FindUnique(Src, rs, x, r);
    }
  }

  // Two different source addresses never go to the same place.
  lemma MapAddrInjective(rs: seq<Record>, x: nat, y: nat)
    requires Disjoint(Dest, rs)
    requires MapAddr(rs, x).Some? && MapAddr(rs, x) == MapAddr(rs, y)
    ensures x == y
  {
    FindSpec(Src, rs, x);
    FindSpec(Src, rs, y);
    var p, q := Find(Src, rs, x).value, Find(Src, rs, y).value;
    var d := MapAddr(rs, x).value;
    assert Contains(Dest, p, d) && Contains(Dest, q, d);
    FindUnique(Dest, rs, d, p);
    FindUnique(Dest, rs, d, q);
  }

  // ----- Sorting by source, as freezing does -----

  function InsertBySrc(r: Record, rs: seq<Record>): seq<Record> {
    if rs == [] || r.src < rs[0].src then [r] + rs
    else [rs[0]] + InsertBySrc(r, rs[1..])
  }

  function SortBySrc(rs: seq<Record>): seq<Record> {
    if rs == [] then [] else InsertBySrc(rs[|rs| - 1], SortBySrc(rs[..|rs| - 1]))
  }

  lemma {:induction false} InsertPermutes(r: Record, rs: seq<Record>)
    ensures multiset(InsertBySrc(r, rs)) == multiset(rs) + multiset{r}
  {
    if rs != [] && r.src >= rs[0].src {
      InsertPermutes(r, rs[1..]);
      assert rs == [rs[0]] + rs[1..];
    }
  }

  lemma {:induction false} SortPermutes(rs: seq<Record>)
    ensures multiset(SortBySrc(rs)) == multiset(rs)
  {
    if rs != [] {
      var last := |rs| - 1;
      SortPermutes(rs[..last]);
      InsertPermutes(rs[last], SortBySrc(rs[..last]));
      assert rs == rs[..last] + [rs[last]];
    }
  }

  ghost predicate Aside(r: Record, rs: seq<Record>) {
    forall q :: q in rs ==> End(Src, r) <= q.src || End(Src, q) <= r.src
  }

  lemma SortedCons(q: Record, t: seq<Record>)
    requires Sorted(Src, t) && NonEmpty(t) && q.size > 0
    requires forall p :: p in t ==> End(Src, q) <= p.src
    ensures Sorted(Src, [q] + t) && NonEmpty([q] + t)
  {
    var u := [q] + t;
    forall i, j | 0 <= i < j < |u| ensures End(Src, u[i]) <= Start(Src, u[j]) {
      assert u[j] == t[j - 1];
      if i > 0 { assert u[i] == t[i - 1]; }
    }
  }

  lemma {:induction false} InsertSorted(r: Record, rs: seq<Record>)
    requires Sorted(Src, rs) && NonEmpty(rs) && r.size > 0 && Aside(r, rs)
    ensures Sorted(Src, InsertBySrc(r, rs)) && NonEmpty(InsertBySrc(r, rs))
  {
    if rs == [] || r.src < rs[0].src {
      forall p | p in rs ensures End(Src, r) <= p.src {
        var k :| 0 <= k < |rs| && rs[k] == p;
        assert rs[0] in rs;
      }
      SortedCons(r, rs);
    } else {
      var q, tail := rs[0], rs[1..];
      assert InsertBySrc(r, rs) == [q] + InsertBySrc(r, tail);
      InsertSorted(r, tail);
      hide InsertBySrc;
      InsertPermutes(r, tail);
      forall p | p in InsertBySrc(r, tail) ensures End(Src, q) <= p.src {
        assert p in multiset(InsertBySrc(r, tail));
        if p in tail {
          var k :| 0 <= k < |tail| && tail[k] == p;
          assert rs[k + 1] == p;
        } else {
          assert p == r && q in rs;
        }
      }
      SortedCons(q, InsertBySrc(r, tail));
    }
  }

  // Freezing disjoint records leaves the source vector sorted.
  lemma {:induction false} SortSorts(rs: seq<Record>)
    requires NonEmpty(rs) && Disjoint(Src, rs)
    ensures Sorted(Src, SortBySrc(rs)) && NonEmpty(SortBySrc(rs))
  {
    if rs != [] {
      var last := |rs| - 1;
      var s := SortBySrc(rs[..last]);
      SortSorts(rs[..last]);
      SortPermutes(rs[..last]);
      forall q | q in s ensures End(Src, rs[last]) <= q.src || End(Src, q) <= rs[last].src {
        assert q in multiset(s);
        var k :| 0 <= k < last && rs[k] == q;
      }
      InsertSorted(rs[last], s);
    }
  }

  // And the address map is the same as that of the records in insertion order.
  lemma FreezeKeepsMap(rs: seq<Record>, x: nat)
    requires NonEmpty(rs) && Disjoint(Src, rs)
    ensures MapAddr(SortBySrc(rs), x) == MapAddr(rs, x)
  {
    SortSorts(rs);
    SortPermutes(rs);
    SameRecordsSameMap(rs, SortBySrc(rs), x);
  }

  lemma SameRecordsSameMap(rs: seq<Record>, s: seq<Record>, x: nat)
    requires multiset(rs) == multiset(s) && Disjoint(Src, rs) && Disjoint(Src, s)
    ensures MapAddr(s, x) == MapAddr(rs, x)
  {
    FindSpec(Src, rs, x);
    FindSpec(Src, s, x);
    if Find(Src, rs, x).Some? {
      var r := Find(Src, rs, x).value;
      assert r in multiset(s);
      FindUnique(Src, s, x, r);
    } else if Find(Src, s, x).Some? {
      assert Find(Src, s, x).value in multiset(rs);
    }
  }

  // ----- Binary search -----

  datatype Ordering = Less | Equal | Greater

  // The comparator of the search. Its fourth branch, reserved for an unknown corner case, is
  // never taken, whatever the record.
  function Compare(side: Side, r: Record, x: nat): Ordering {
    if Contains(side, r, x) then Equal
    else if End(side, r) <= x then Less
    else if Start(side, r) > x then Greater
    else assert false; Equal
  }

  // What a binary search promises: an index it returns is a match; on sorted records it
  // returns None only if nothing matches. On unsorted records it may miss.
  ghost predicate SearchResult(side: Side, rs: seq<Record>, x: nat, r: Option<nat>) {
    && (r.Some? ==> r.value < |rs| && Contains(side, rs[r.value], x))
    && (r.None? && Sorted(side, rs) ==> forall i :: 0 <= i < |rs| ==> !Contains(side, rs[i], x))
  }

  method BinarySearch(side: Side, rs: seq<Record>, x: nat) returns (r: Option<nat>)
    ensures SearchResult(side, rs, x, r)
  {
    var lo, hi := 0, |rs|;
    while lo < hi
      invariant lo <= hi <= |rs|
      invariant Sorted(side, rs) ==> forall i :: 0 <= i < |rs| && Contains(side, rs[i], x) ==> lo <= i < hi
    {
      var mid := (lo + hi) / 2;
      match Compare(side, rs[mid], x) {
        case Equal => return Some(mid);
        case Less =>
          assert Sorted(side, rs) ==> forall i :: 0 <= i < mid ==> End(side, rs[i]) <= Start(side, rs[mid]);
          lo := mid + 1;
        case Greater =>
          assert Sorted(side, rs) ==> forall i :: mid < i < |rs| ==> End(side, rs[mid]) <= Start(side, rs[i]);
          hi := mid;
      }
    }
    r := None;
  }

  // The index just after the run of records starting below hi.
  function RunEnd(side: Side, rs: seq<Record>, i: nat, hi: nat): (e: nat)
    requires i <= |rs|
    ensures i <= e <= |rs|
    ensures forall k :: i <= k < e ==> Start(side, rs[k]) < hi
    ensures e < |rs| ==> Start(side, rs[e]) >= hi
    decreases |rs| - i
  {
    if i < |rs| && Start(side, rs[i]) < hi then RunEnd(side, rs, i + 1, hi) else i
  }

  // The records delivered from a search result: from the match on, while they start below hi.
  function Deliver(side: Side, rs: seq<Record>, r: Option<nat>, hi: nat): seq<Record>
    requires r.Some? ==> r.value < |rs|
  {
    if r.None? then [] else rs[r.value..RunEnd(side, rs, r.value, hi)]
  }

  lemma {:induction false} MeetingNone(side: Side, rs: seq<Record>, lo: nat, hi: nat)
    requires forall i :: 0 <= i < |rs| ==> !Meets(side, rs[i], lo, hi)
    ensures Meeting(side, rs, lo, hi) == []
  {
    if rs != [] { MeetingNone(side, rs[1..], lo, hi); }
  }

  lemma {:induction false} MeetingAll(side: Side, rs: seq<Record>, lo: nat, hi: nat)
    requires forall i :: 0 <= i < |rs| ==> Meets(side, rs[i], lo, hi)
    ensures Meeting(side, rs, lo, hi) == rs
  {
    if rs != [] { MeetingAll(side, rs[1..], lo, hi); }
  }

  lemma {:induction false} MeetingConcat(side: Side, a: seq<Record>, b: seq<Record>, lo: nat, hi: nat)
    ensures Meeting(side, a + b, lo, hi) == Meeting(side, a, lo, hi) + Meeting(side, b, lo, hi)
  {
    hide Keep;
    if a == [] {
      assert a + b == b;
    } else {
      var k := Keep(side, a[0], lo, hi);
      assert (a + b)[0] == a[0] && (a + b)[1..] == a[1..] + b;
      MeetingConcat(side, a[1..], b, lo, hi);
      assert k + (Meeting(side, a[1..], lo, hi) + Meeting(side, b, lo, hi))
          == k + Meeting(side, a[1..], lo, hi) + Meeting(side, b, lo, hi);
    }
  }

  // From a match at lo, exactly the records meeting [lo, hi) are delivered, in order.
  lemma DeliverExact(side: Side, rs: seq<Record>, lo: nat, hi: nat, i: nat)
    requires Sorted(side, rs) && NonEmpty(rs) && lo < hi
    requires i < |rs| && Contains(side, rs[i], lo)
    ensures Deliver(side, rs, Some(i), hi) == Meeting(side, rs, lo, hi)
  {
    hide Meeting;
    var e := RunEnd(side, rs, i, hi);
    var a, b, c := rs[..i], rs[i..e], rs[e..];
    assert rs == a + (b + c);
    MeetingConcat(side, a, b + c, lo, hi);
    MeetingConcat(side, b, c, lo, hi);
    forall k | 0 <= k < |a| ensures !Meets(side, a[k], lo, hi) {
      assert End(side, rs[k]) <= Start(side, rs[i]);
    }
    MeetingNone(side, a, lo, hi);
    forall k | 0 <= k < |b| ensures Meets(side, b[k], lo, hi) {
      assert b[k] == rs[i + k];
      if k > 0 { assert End(side, rs[i]) <= Start(side, rs[i + k]); }
    }
    MeetingAll(side, b, lo, hi);
    forall k | 0 <= k < |c| ensures !Meets(side, c[k], lo, hi) {
      assert c[k] == rs[e + k];
      if k > 0 { assert End(side, rs[e]) <= Start(side, rs[e + k]); }
    }
    MeetingNone(side, c, lo, hi);
  }

  // On sorted records a range query is right if and only if its start lies inside a record or
  // there was nothing to deliver: a query starting in a gap delivers nothing.
  lemma QueryRightIff(side: Side, rs: seq<Record>, lo: nat, hi: nat, r: Option<nat>)
    requires Sorted(side, rs) && NonEmpty(rs) && lo < hi && SearchResult(side, rs, lo, r)
    ensures Deliver(side, rs, r, hi) == Meeting(side, rs, lo, hi)
       <==> (exists q :: q in rs && Contains(side, q, lo)) || (forall q :: q in rs ==> !Meets(side, q, lo, hi))
  {
    MeetingSpec(side, rs, lo, hi);
    if r.Some? {
      DeliverExact(side, rs, lo, hi, r.value);
      assert rs[r.value] in rs;
    } else {
      assert forall q :: q in rs ==> !Contains(side, q, lo);
      if forall q :: q in rs ==> !Meets(side, q, lo, hi) {
        MeetingNone(side, rs, lo, hi);
      } else {
        var q :| q in rs && Meets(side, q, lo, hi);
        assert q in Meeting(side, rs, lo, hi);
      }
    }
  }

  // The records delivered for a range. `at` is where the search stopped.
  method IterateInRange(side: Side, vec: seq<Record>, lo: nat, hi: nat)
    returns (out: seq<Record>, ghost at: Option<nat>)
    requires lo < hi
    ensures SearchResult(side, vec, lo, at) && (at.Some? ==> at.value < |vec|) && out == Deliver(side, vec, at, hi)
    ensures Sorted(side, vec) && NonEmpty(vec) && (exists q :: q in vec && Contains(side, q, lo))
        ==> out == Meeting(side, vec, lo, hi)
  {
    var start := BinarySearch(side, vec, lo);
    at := start;
    out := [];
    if start.Some? {
      var i := start.value;
      while i < |vec| && Start(side, vec[i]) < hi
        invariant start.value <= i <= |vec|
        invariant out == vec[start.value..i]
        invariant RunEnd(side, vec, i, hi) == RunEnd(side, vec, start.value, hi)
      {
        out := out + [vec[i]];
        i := i + 1;
      }
    }
    if Sorted(side, vec) && NonEmpty(vec) {
      QueryRightIff(side, vec, lo, hi, start);
    }
  }

  // ----- The registry, updated in place -----

  class RelocationRegistry {
    var recordsBySrc: seq<Record>
    var recordsByDest: seq<Record>

    constructor ()
      ensures recordsBySrc == [] && recordsByDest == []
    {
      recordsBySrc, recordsByDest := [], [];
    }

    method Insert(record: Record)
      modifies this
      ensures recordsBySrc == old(recordsBySrc) + [record]
      ensures recordsByDest == old(recordsByDest) + [record]
    {
      recordsBySrc := recordsBySrc + [record];
      recordsByDest := recordsByDest + [record];
    }

    // Only the source vector is sorted; the destination vector stays in insertion order.
    method Freeze()
      requires NonEmpty(recordsBySrc) && Disjoint(Src, recordsBySrc)
      modifies this`recordsBySrc
      ensures recordsBySrc == SortBySrc(old(recordsBySrc))
      ensures Sorted(Src, recordsBySrc) && NonEmpty(recordsBySrc)
      ensures multiset(recordsBySrc) == multiset(old(recordsBySrc))
      ensures forall x: nat :: MapAddr(recordsBySrc, x) == MapAddr(old(recordsBySrc), x)
    {
      SortSorts(recordsBySrc);
      SortPermutes(recordsBySrc);
      forall x: nat ensures MapAddr(SortBySrc(recordsBySrc), x) == MapAddr(recordsBySrc, x) {
        FreezeKeepsMap(recordsBySrc, x);
      }
      recordsBySrc := SortBySrc(recordsBySrc);
    }

    method MapSrcToDest(x: nat) returns (r: Option<nat>)
      requires Sorted(Src, recordsBySrc) && NonEmpty(recordsBySrc)
      ensures r == MapAddr(recordsBySrc, x)
    {
      SortedIsDisjoint(Src, recordsBySrc);
      hide Meeting, Find, Sorted, Disjoint;
      var found, at := IterateInRange(Src, recordsBySrc, x, x + 1);
      FindSpec(Src, recordsBySrc, x);
      if found == [] {
        return None;
      }
      FindUnique(Src, recordsBySrc, x, found[0]);
      r := Some(found[0].dest + (x - found[0].src));
    }

    method Unfreeze()
      modifies this
      ensures recordsBySrc == [] && recordsByDest == []
    {
      recordsBySrc, recordsByDest := [], [];
    }
  }
}
