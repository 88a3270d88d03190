// Type descriptors and the iterators that list an object's pointer slots from them.
module Descriptors {
  import opened Prelude

  const POINTER_SIZE: nat := 8
  const ARRAY_HEADER_SIZE: nat := 8

  // `fields` are offsets of pointers; `unflattened` are parts at an offset, described by their own
  // descriptor.
  datatype Descriptor = Descriptor(fields: seq<nat>, unflattened: seq<Part>, size: nat)

  datatype Part = Part(offset: nat, desc: Descriptor)

  function Shift(offsets: seq<nat>, base: nat): seq<nat> {
    seq(|offsets|, i requires 0 <= i < |offsets| => base + offsets[i])
  }

  // ----- What the iterator lists -----

  // A part is listed at its own offset, whatever the offset of what it is part of.
  function Written(d: Descriptor, base: nat): seq<nat>
    decreases d, |d.unflattened| + 1
  {
    Shift(d.fields, base) + WrittenParts(d, 0)
  }

  function WrittenParts(d: Descriptor, j: nat): seq<nat>
    requires j <= |d.unflattened|
    decreases d, |d.unflattened| - j
  {
    if j == |d.unflattened| then []
    else Written(d.unflattened[j].desc, d.unflattened[j].offset) + WrittenParts(d, j + 1)
  }

  // ----- Where the pointers are -----

  function Flat(d: Descriptor, base: nat): seq<nat>
    decreases d, |d.unflattened| + 1
  {
    Shift(d.fields, base) + FlatParts(d, 0, base)
  }

  function FlatParts(d: Descriptor, j: nat, base: nat): seq<nat>
    requires j <= |d.unflattened|
    decreases d, |d.unflattened| - j
  {
    if j == |d.unflattened| then []
    else Flat(d.unflattened[j].desc, base + d.unflattened[j].offset) + FlatParts(d, j + 1, base)
  }

  // The part that a chain of part numbers leads to, and where it is.
  function PartAt(d: Descriptor, base: nat, chain: seq<nat>): Option<Part>
    decreases |chain|
  {
    if chain == [] then Some(Part(base, d))
    else if chain[0] < |d.unflattened|
    then PartAt(d.unflattened[chain[0]].desc, base + d.unflattened[chain[0]].offset, chain[1..])
    else None
  }

  // An address is a pointer of the type when some part, at its own place, has a field there.
  ghost predicate IsPointer(d: Descriptor, base: nat, x: nat) {
    exists chain :: FieldOf(PartAt(d, base, chain), x)
  }

  predicate FieldOf(p: Option<Part>, x: nat) {
    p.Some? && exists i :: 0 <= i < |p.value.desc.fields| && x == p.value.offset + p.value.desc.fields[i]
  }

  lemma {:induction false} FlatIff(d: Descriptor, base: nat, x: nat)
    ensures x in Flat(d, base) <==> IsPointer(d, base, x)
    decreases d, |d.unflattened| + 1
  {
    FlatPartsIff(d, 0, base, x);
    if x in Shift(d.fields, base) {
      var i :| 0 <= i < |d.fields| && Shift(d.fields, base)[i] == x;
      assert FieldOf(PartAt(d, base, []), x);
    }
    if j :| 0 <= j < |d.unflattened| && IsPointer(d.unflattened[j].desc, base + d.unflattened[j].offset, x) {
      var chain :| FieldOf(PartAt(d.unflattened[j].desc, base + d.unflattened[j].offset, chain), x);
      assert ([j] + chain)[0] == j && ([j] + chain)[1..] == chain;
      assert FieldOf(PartAt(d, base, [j] + chain), x);
    }
    if IsPointer(d, base, x) {
      var chain :| FieldOf(PartAt(d, base, chain), x);
      if chain == [] {
        var i :| 0 <= i < |d.fields| && x == base + d.fields[i];
        assert Shift(d.fields, base)[i] == x;
      } else {
        var j := chain[0];
        assert FieldOf(PartAt(d.unflattened[j].desc, base + d.unflattened[j].offset, chain[1..]), x);
      }
    }
  }

  lemma {:induction false} FlatPartsIff(d: Descriptor, j: nat, base: nat, x: nat)
    requires j <= |d.unflattened|
    ensures x in FlatParts(d, j, base)
       <==> exists k :: j <= k < |d.unflattened|
              && IsPointer(d.unflattened[k].desc, base + d.unflattened[k].offset, x)
    decreases d, |d.unflattened| - j
  {
    if j < |d.unflattened| {
      FlatIff(d.unflattened[j].desc, base + d.unflattened[j].offset, x);
      FlatPartsIff(d, j + 1, base, x);
    }
  }

  // The guard: below the first level, a part with pointers of its own must not be inside
  // something that is itself away from the start of the object.
  predicate Straight(d: Descriptor, base: nat)
    decreases d, |d.unflattened| + 1
  {
    StraightParts(d, 0, base)
  }

  predicate StraightParts(d: Descriptor, j: nat, base: nat)
    requires j <= |d.unflattened|
    decreases d, |d.unflattened| - j
  {
    j == |d.unflattened| || (
      var p := d.unflattened[j];
      && (p.desc.fields == [] || base == 0)
      && Straight(p.desc, base + p.offset)
      && StraightParts(d, j + 1, base))
  }

  lemma SameSplit(a: seq<nat>, b: seq<nat>, c: seq<nat>, d: seq<nat>)
    requires |a| == |c|
    ensures a + b == c + d <==> a == c && b == d
  {
    if a + b == c + d {
      assert a == (a + b)[..|a|] && c == (c + d)[..|a|];
      assert b == (a + b)[|a|..] && d == (c + d)[|a|..];
    }
  }

  lemma ShiftSame(fields: seq<nat>, w: nat, b: nat)
    ensures Shift(fields, w) == Shift(fields, b) <==> fields == [] || w == b
  {
    if fields != [] {
      assert Shift(fields, w)[0] == w + fields[0] && Shift(fields, b)[0] == b + fields[0];
    } else {
      assert Shift(fields, w) == [] == Shift(fields, b);
    }
  }

  lemma {:induction false} SameLength(d: Descriptor, w: nat, b: nat)
    ensures |Written(d, w)| == |Flat(d, b)|
    decreases d, |d.unflattened| + 1
  {
    PartsSameLength(d, 0, b);
  }

  lemma {:induction false} PartsSameLength(d: Descriptor, j: nat, b: nat)
    requires j <= |d.unflattened|
    ensures |WrittenParts(d, j)| == |FlatParts(d, j, b)|
    decreases d, |d.unflattened| - j
  {
    if j < |d.unflattened| {
      var p := d.unflattened[j];
      SameLength(p.desc, p.offset, b + p.offset);
      PartsSameLength(d, j + 1, b);
    }
  }

  // A node listed at w and really at b comes out right if and only if it has no pointers or the
  // two agree, and everything below is straight.
  lemma {:induction false} NodeRightIff(d: Descriptor, w: nat, b: nat)
    ensures Written(d, w) == Flat(d, b) <==> (d.fields == [] || w == b) && Straight(d, b)
    decreases d, |d.unflattened| + 1
  {
    ShiftSame(d.fields, w, b);
    SameSplit(Shift(d.fields, w), WrittenParts(d, 0), Shift(d.fields, b), FlatParts(d, 0, b));
    PartsRightIff(d, 0, b);
  }

  lemma {:induction false} PartsRightIff(d: Descriptor, j: nat, b: nat)
    requires j <= |d.unflattened|
    ensures WrittenParts(d, j) == FlatParts(d, j, b) <==> StraightParts(d, j, b)
    decreases d, |d.unflattened| - j
  {
    if j < |d.unflattened| {
      var p := d.unflattened[j];
      NodeRightIff(p.desc, p.offset, b + p.offset);
      PartsRightIff(d, j + 1, b);
      SameLength(p.desc, p.offset, b + p.offset);
      SameSplit(Written(p.desc, p.offset), WrittenParts(d, j + 1), Flat(p.desc, b + p.offset), FlatParts(d, j + 1, b));
    }
  }

  // The iterator lists exactly the pointers of the type, in order, if and only if the descriptor
  // is straight.
  lemma ListedRightIff(d: Descriptor)
    ensures Written(d, 0) == Flat(d, 0) <==> Straight(d, 0)
  {
    NodeRightIff(d, 0, 0);
  }

  // In particular when parts have no parts of their own, or only at offset zero.
  lemma ShallowIsStraight(d: Descriptor, j: nat)
    requires j <= |d.unflattened|
    requires forall k :: j <= k < |d.unflattened| ==> d.unflattened[k].desc.unflattened == []
    ensures StraightParts(d, j, 0)
    decreases |d.unflattened| - j
  {
    if j < |d.unflattened| {
      ShallowIsStraight(d, j + 1);
    }
  }

  // A pointer two levels down, with the outer part away from the start, is listed where it is not.
  lemma NestedPartMissed(outer: nat, inner: nat, size: nat)
    requires outer > 0
    ensures var leaf := Descriptor([0], [], POINTER_SIZE);
      var d := Descriptor([], [Part(outer, Descriptor([], [Part(inner, leaf)], size))], outer + size);
      && Flat(d, 0) == [outer + inner] && Written(d, 0) == [inner]
      && !Straight(d, 0)
  {
    var leaf := Descriptor([0], [], POINTER_SIZE);
    var mid := Descriptor([], [Part(inner, leaf)], size);
    var d := Descriptor([], [Part(outer, mid)], outer + size);
    assert Written(leaf, inner) == [inner] && Flat(leaf, outer + inner) == [outer + inner];
    assert WrittenParts(mid, 1) == [] && FlatParts(mid, 1, outer) == [];
    assert WrittenParts(mid, 0) == [inner] && FlatParts(mid, 0, outer) == [outer + inner];
    assert Written(mid, outer) == [inner] && Flat(mid, outer) == [outer + inner];
    assert WrittenParts(d, 1) == [] && FlatParts(d, 1, 0) == [];
    assert d.unflattened[0] == Part(outer, mid);
    assert FlatParts(d, 0, 0) == Flat(mid, 0 + outer) + FlatParts(d, 1, 0) == [outer + inner];
    assert WrittenParts(d, 0) == Written(mid, outer) + WrittenParts(d, 1) == [inner];
    assert Written(d, 0) == [inner] && Flat(d, 0) == [outer + inner];
    ListedRightIff(d);
  }

  // ----- The iterator, updated in place -----

  // A descriptor being listed: cursors over its fields and its parts.
  datatype Frame = Frame(base: nat, desc: Descriptor, field: nat, part: nat)

  predicate FrameOk(f: Frame) {
    f.field <= |f.desc.fields| && f.part <= |f.desc.unflattened|
  }

  predicate StackOk(stack: seq<Frame>) {
    forall i :: 0 <= i < |stack| ==> FrameOk(stack[i])
  }

  function FrameLeft(f: Frame): seq<nat>
    requires FrameOk(f)
  {
    Shift(f.desc.fields[f.field..], f.base) + WrittenParts(f.desc, f.part)
  }

  // What is still to come: the innermost frame first.
  function Left(stack: seq<Frame>): seq<nat>
    requires StackOk(stack)
  {
    if stack == [] then [] else FrameLeft(stack[|stack| - 1]) + Left(stack[..|stack| - 1])
  }

  // Frames to push and pop before the stack is empty.
  function Nodes(d: Descriptor): nat
    decreases d, |d.unflattened| + 1
  {
    1 + NodesFrom(d, 0)
  }

  function NodesFrom(d: Descriptor, j: nat): nat
    requires j <= |d.unflattened|
    decreases d, |d.unflattened| - j
  {
    if j == |d.unflattened| then 0 else 1 + Nodes(d.unflattened[j].desc) + NodesFrom(d, j + 1)
  }

  function Work(stack: seq<Frame>): nat
    requires StackOk(stack)
  {
    if stack == [] then 0
    else 1 + NodesFrom(stack[|stack| - 1].desc, stack[|stack| - 1].part) + Work(stack[..|stack| - 1])
  }

  class PointerIter {
    var iterStack: seq<Frame>

    constructor (d: Descriptor)
      ensures StackOk(iterStack) && Left(iterStack) == Written(d, 0)
    {
      iterStack := [Frame(0, d, 0, 0)];
      new;
      assert iterStack[..0] == [];
      assert d.fields[0..] == d.fields;
    }

    // The next offset, or None exactly when all have been listed.
    method Next() returns (r: Option<nat>)
      requires StackOk(iterStack)
      modifies this
      ensures StackOk(iterStack)
      ensures r.None? <==> old(Left(iterStack)) == []
      ensures r.Some? ==> old(Left(iterStack)) == [r.value] + Left(iterStack)
      ensures r.None? ==> Left(iterStack) == []
    {
      hide Left, Work, Written, WrittenParts;
      while true
        invariant StackOk(iterStack) && Left(iterStack) == old(Left(iterStack))
        decreases Work(iterStack)
      {
        if iterStack == [] {
          NoneLeft();
          return None;
        }
        var top := |iterStack| - 1;
        ghost var rest := iterStack[..top];
        var current := iterStack[top];
        OnTop(rest, current, iterStack);
        if current.field < |current.desc.fields| {
          FieldTaken(current);
          iterStack := iterStack[top := current.(field := current.field + 1)];
          OnTop(rest, iterStack[top], iterStack);
          return Some(current.base + current.desc.fields[current.field]);
        }
        if current.part == |current.desc.unflattened| {
          FrameDone(current);
          iterStack := iterStack[..top];
        } else {
          var p := current.desc.unflattened[current.part];
          var after := current.(part := current.part + 1);
          iterStack := iterStack[top := after] + [Frame(p.offset, p.desc, 0, 0)];
          PartPushed(rest, current, after, p, iterStack);
        }
      }
    }
  }

  lemma NoneLeft()
    ensures Left([]) == []
  {
  }

  lemma FrameDone(f: Frame)
    requires f.field == |f.desc.fields| && f.part == |f.desc.unflattened|
    ensures FrameLeft(f) == []
  {
  }

  lemma FieldTaken(f: Frame)
    requires FrameOk(f) && f.field < |f.desc.fields|
    ensures FrameLeft(f) == [f.base + f.desc.fields[f.field]] + FrameLeft(f.(field := f.field + 1))
  {
    var fields := f.desc.fields;
    assert Shift(fields[f.field..], f.base) == [f.base + fields[f.field]] + Shift(fields[f.field + 1..], f.base);
  }

  lemma OnTop(rest: seq<Frame>, f: Frame, stack: seq<Frame>)
    requires StackOk(rest) && FrameOk(f) && stack == rest + [f]
    ensures StackOk(stack) && Left(stack) == FrameLeft(f) + Left(rest)
    ensures Work(stack) == 1 + NodesFrom(f.desc, f.part) + Work(rest)
  {
    assert stack[..|rest|] == rest;
  }

  lemma PartPushed(rest: seq<Frame>, current: Frame, after: Frame, p: Part, stack: seq<Frame>)
    requires StackOk(rest) && FrameOk(current) && current.field == |current.desc.fields|
    requires current.part < |current.desc.unflattened| && p == current.desc.unflattened[current.part]
    requires after == current.(part := current.part + 1)
    requires stack == rest + [after, Frame(p.offset, p.desc, 0, 0)]
    ensures StackOk(stack) && Left(stack) == FrameLeft(current) + Left(rest)
    ensures Work(stack) < 1 + NodesFrom(current.desc, current.part) + Work(rest)
  {
    hide Left, Work;
    var child := Frame(p.offset, p.desc, 0, 0);
    OnTop(rest, after, rest + [after]);
    OnTop(rest + [after], child, stack);
    PartLeft(current, after, child);
    assert FrameLeft(child) + (FrameLeft(after) + Left(rest)) == FrameLeft(child) + FrameLeft(after) + Left(rest);
  }

  lemma PartLeft(current: Frame, after: Frame, child: Frame)
    requires FrameOk(current) && current.field == |current.desc.fields| && current.part < |current.desc.unflattened|
    requires var p := current.desc.unflattened[current.part];
      after == current.(part := current.part + 1) && child == Frame(p.offset, p.desc, 0, 0)
    ensures FrameLeft(current) == FrameLeft(child) + FrameLeft(after)
    ensures NodesFrom(current.desc, current.part) == 2 + NodesFrom(child.desc, 0) + NodesFrom(after.desc, after.part)
  {
    assert child.desc.fields[0..] == child.desc.fields;
    assert FrameLeft(child) == Written(child.desc, child.base);
    assert Shift(current.desc.fields[current.field..], current.base) == [];
    assert Shift(after.desc.fields[after.field..], after.base) == [];
    assert FrameLeft(after) == WrittenParts(current.desc, current.part + 1);
  }

  // Running it to the end gives the recursive listing.
  method ListAll(d: Descriptor) returns (offsets: seq<nat>)
    ensures offsets == Written(d, 0)
    ensures Straight(d, 0) <==> offsets == Flat(d, 0)
  {
    hide Left, Written, Flat, Straight;
    var iter := new PointerIter(d);
    offsets := [];
    var next := iter.Next();
    while next.Some?
      invariant StackOk(iter.iterStack) && (next.None? ==> Left(iter.iterStack) == [])
      invariant Written(d, 0) == offsets + (if next.Some? then [next.value] else []) + Left(iter.iterStack)
      decreases |Left(iter.iterStack)| + if next.Some? then 1 else 0
    {
      offsets := offsets + [next.value];
      next := iter.Next();
    }
    ListedRightIff(d);
  }

  // ----- Arrays -----

  // The slots of elements k and up: the element's own listing, moved past the header and the
  // elements before.
  function ArraySlots(d: Descriptor, len: nat, k: nat): seq<nat>
    requires k <= len
    decreases len - k
  {
    if k == len then [] else ElementSlots(d, k, Written(d, 0)) + ArraySlots(d, len, k + 1)
  }

  function ElementSlots(d: Descriptor, k: nat, offsets: seq<nat>): seq<nat> {
    Shift(offsets, k * d.size + ARRAY_HEADER_SIZE)
  }

  lemma {:induction false} ArrayCount(d: Descriptor, len: nat, k: nat)
    requires k <= len
    ensures |ArraySlots(d, len, k)| == (len - k) * |Written(d, 0)|
    decreases len - k
  {
    hide Written;
    if k < len {
      ArrayCount(d, len, k + 1);
      MoreBy(len - k - 1, |Written(d, 0)|);
    }
  }

  lemma MoreBy(a: nat, n: nat)
    ensures (a + 1) * n == a * n + n
  {
  }

  // The j-th slot of element e, counted from element k.
  lemma {:induction false} ArraySlotAt(d: Descriptor, len: nat, k: nat, e: nat, j: nat)
    requires k <= e < len && j < |Written(d, 0)|
    ensures (e - k) * |Written(d, 0)| + j < |ArraySlots(d, len, k)|
    ensures ArraySlots(d, len, k)[(e - k) * |Written(d, 0)| + j]
         == ARRAY_HEADER_SIZE + e * d.size + Written(d, 0)[j]
    decreases len - k
  {
    hide Written;
    if e > k {
      ArraySlotAt(d, len, k + 1, e, j);
      MoreBy(e - k - 1, |Written(d, 0)|);
    }
  }

  // An array has the slots of its element type in each element, and no others.
  lemma ArraySlotsIff(d: Descriptor, len: nat, p: nat)
    ensures |ArraySlots(d, len, 0)| == len * |Written(d, 0)|
    ensures p in ArraySlots(d, len, 0)
       <==> exists e: nat, o :: e < len && o in Written(d, 0) && p == ElementSlot(d, e, o)
  {
    hide Written, ArraySlots;
    ArrayCount(d, len, 0);
    if p in ArraySlots(d, len, 0) {
      var n := |Written(d, 0)|;
      var i: nat :| i < len * n && ArraySlots(d, len, 0)[i] == p;
      var e, j := ElementOf(i, len, n);
      ArraySlotAt(d, len, 0, e, j);
      assert Written(d, 0)[j] in Written(d, 0) && p == ElementSlot(d, e, Written(d, 0)[j]);
    }
    forall e: nat, o | e < len && o in Written(d, 0) && p == ElementSlot(d, e, o) ensures p in ArraySlots(d, len, 0) {
      var j: nat :| j < |Written(d, 0)| && Written(d, 0)[j] == o;
      ArraySlotAt(d, len, 0, e, j);
    }
  }

  function ElementSlot(d: Descriptor, e: nat, o: nat): nat {
    ARRAY_HEADER_SIZE + e * d.size + o
  }

  lemma {:induction false} ElementOf(i: nat, len: nat, n: nat) returns (e: nat, j: nat)
    requires i < len * n
    ensures e < len && j < n && i == e * n + j
    decreases len
  {
    if i < n {
      e, j := 0, i;
    } else {
      MoreBy(len - 1, n);
      e, j := ElementOf(i - n, len - 1, n);
      MoreBy(e, n);
      e := e + 1;
    }
  }

  function StaticSize(d: Descriptor, isArray: bool): nat {
    if isArray then ARRAY_HEADER_SIZE else d.size
  }

  function DynamicSize(d: Descriptor, isArray: bool, len: nat): nat {
    if isArray then StaticSize(d, true) + d.size * len else d.size
  }

  const HEADER_SIZE: nat := 16

  // What an allocation asks for, with the extra bytes of the request, and what the marker copies.
  function AllocatedSize(d: Descriptor, isArray: bool, extra: nat): nat {
    StaticSize(d, isArray) + HEADER_SIZE + extra
  }

  function CopiedSize(d: Descriptor, isArray: bool, len: nat): nat {
    DynamicSize(d, isArray, len) + HEADER_SIZE
  }

  // They are the same size if and only if the extra bytes are an array's elements and nothing else.
  lemma SizesAgreeIff(d: Descriptor, isArray: bool, len: nat, extra: nat)
    ensures AllocatedSize(d, isArray, extra) == CopiedSize(d, isArray, len)
       <==> extra == if isArray then d.size * len else 0
  {
  }

  class ArrayIter {
    const elementDesc: Descriptor
    const len: nat
    var current: nat
    var currentIter: PointerIter

    constructor (elementDesc: Descriptor, len: nat)
      ensures this.elementDesc == elementDesc && this.len == len
      ensures Valid() && Rest() == ArraySlots(elementDesc, len, 0) && fresh(currentIter)
    {
      this.elementDesc, this.len, current := elementDesc, len, 0;
      currentIter := new PointerIter(elementDesc);
    }

    ghost predicate Valid()
      reads this, currentIter
    {
      current <= len && StackOk(currentIter.iterStack)
    }

    ghost function Rest(): seq<nat>
      requires Valid()
      reads this, currentIter
    {
      if current == len then []
      else ElementSlots(elementDesc, current, Left(currentIter.iterStack)) + ArraySlots(elementDesc, len, current + 1)
    }

    method Next() returns (r: Option<nat>)
      requires Valid()
      modifies this, currentIter
      ensures Valid() && (currentIter == old(currentIter) || fresh(currentIter))
      ensures r.None? <==> old(Rest()) == []
      ensures r.Some? ==> old(Rest()) == [r.value] + Rest()
      ensures r.None? ==> Rest() == []
    {
      hide Left, Written, ElementSlots, ArraySlots;
      while true
        invariant Valid() && (currentIter == old(currentIter) || fresh(currentIter))
        invariant Rest() == old(Rest())
        decreases len - current
      {
        if current >= len {
          return None;
        }
        ghost var left := Left(currentIter.iterStack);
        var offset := currentIter.Next();
        if offset.Some? {
          SlotTaken(elementDesc, current, left, offset.value, Left(currentIter.iterStack));
          return Some(current * elementDesc.size + offset.value + ARRAY_HEADER_SIZE);
        }
        ElementDone(elementDesc, len, current);
        current := current + 1;
        currentIter := new PointerIter(elementDesc);
      }
    }
  }

  // These are the pointers of each element of an array, in order, element by element.
  ghost predicate ElementsOf(offsets: seq<nat>, pointers: seq<nat>, size: nat, len: nat) {
    && |offsets| == len * |pointers|
    && (forall e: nat, j: nat :: e < len && j < |pointers| ==> ElementAt(offsets, pointers, size, e, j))
  }

  ghost predicate ElementAt(offsets: seq<nat>, pointers: seq<nat>, size: nat, e: nat, j: nat)
    requires j < |pointers|
  {
    var i := e * |pointers| + j;
    i < |offsets| && offsets[i] == ARRAY_HEADER_SIZE + e * size + pointers[j]
  }

  lemma ArraySlotsAreElements(d: Descriptor, len: nat)
    ensures ElementsOf(ArraySlots(d, len, 0), Written(d, 0), d.size, len)
  {
    hide Written, ArraySlots;
    ArrayCount(d, len, 0);
    forall e: nat, j: nat | e < len && j < |Written(d, 0)|
      ensures ElementAt(ArraySlots(d, len, 0), Written(d, 0), d.size, e, j)
    {
      ArraySlotAt(d, len, 0, e, j);
    }
  }

  // Two listings of a nonempty array agree only where the element's do.
  lemma SameElements(offsets: seq<nat>, a: seq<nat>, b: seq<nat>, size: nat, len: nat)
    requires ElementsOf(offsets, a, size, len) && |a| == |b|
    ensures ElementsOf(offsets, b, size, len) <==> len == 0 || a == b
  {
    if ElementsOf(offsets, b, size, len) && len > 0 {
      forall j: nat | j < |a| ensures a[j] == b[j] {
        assert ElementAt(offsets, a, size, 0, j) && ElementAt(offsets, b, size, 0, j);
      }
    }
  }

  // Running the array iterator to the end lists the pointers of every element, and the true ones
  // exactly for straight descriptors or empty arrays.
  method ListArray(d: Descriptor, len: nat) returns (offsets: seq<nat>)
    ensures ElementsOf(offsets, Written(d, 0), d.size, len)
    ensures ElementsOf(offsets, Flat(d, 0), d.size, len) <==> len == 0 || Straight(d, 0)
  {
    hide Left, Written, Flat, Straight, ArraySlots, ElementsOf, StackOk, ElementSlots;
    var iter := new ArrayIter(d, len);
    offsets := [];
    var next := iter.Next();
    while next.Some?
      invariant iter.Valid() && fresh(iter) && fresh(iter.currentIter) && (next.None? ==> iter.Rest() == [])
      invariant iter.elementDesc == d && iter.len == len
      invariant ArraySlots(d, len, 0) == offsets + (if next.Some? then [next.value] else []) + iter.Rest()
      decreases |iter.Rest()| + if next.Some? then 1 else 0
    {
      offsets := offsets + [next.value];
      next := iter.Next();
    }
    assert offsets == ArraySlots(d, len, 0);
    ArrayListedRightIff(d, len);
  }

  lemma ArrayListedRightIff(d: Descriptor, len: nat)
    ensures ElementsOf(ArraySlots(d, len, 0), Written(d, 0), d.size, len)
    ensures ElementsOf(ArraySlots(d, len, 0), Flat(d, 0), d.size, len) <==> len == 0 || Straight(d, 0)
  {
    hide Written, Flat, Straight, ArraySlots, ElementsOf;
    ArraySlotsAreElements(d, len);
    SameLength(d, 0, 0);
    SameElements(ArraySlots(d, len, 0), Written(d, 0), Flat(d, 0), d.size, len);
    ListedRightIff(d);
  }

  lemma SlotTaken(d: Descriptor, k: nat, left: seq<nat>, offset: nat, rest: seq<nat>)
    requires left == [offset] + rest
    ensures ElementSlots(d, k, left) == [k * d.size + offset + ARRAY_HEADER_SIZE] + ElementSlots(d, k, rest)
  {
    var base := k * d.size + ARRAY_HEADER_SIZE;
    assert Shift(left, base)[0] == base + offset;
    assert Shift(left, base) == [base + offset] + Shift(rest, base);
  }

  lemma ElementDone(d: Descriptor, len: nat, k: nat)
    requires k < len
    ensures ElementSlots(d, k, []) == []
    ensures ArraySlots(d, len, k + 1)
         == if k + 1 == len then [] else ElementSlots(d, k + 1, Written(d, 0)) + ArraySlots(d, len, k + 2)
  {
  }

  // ----- Slots are apart and inside the object -----

  predicate Within(offsets: seq<nat>, lo: nat, hi: nat) {
    forall i :: 0 <= i < |offsets| ==> lo <= offsets[i] && offsets[i] + POINTER_SIZE <= hi
  }

  predicate Apart(offsets: seq<nat>) {
    forall i, j :: 0 <= i < j < |offsets| ==>
      offsets[i] + POINTER_SIZE <= offsets[j] || offsets[j] + POINTER_SIZE <= offsets[i]
  }

  predicate Beside(a: seq<nat>, b: seq<nat>) {
    forall i, j :: 0 <= i < |a| && 0 <= j < |b| ==> a[i] + POINTER_SIZE <= b[j] || b[j] + POINTER_SIZE <= a[i]
  }

  lemma ApartConcat(a: seq<nat>, b: seq<nat>)
    requires Apart(a) && Apart(b) && Beside(a, b)
    ensures Apart(a + b)
  {
  }

  // A layout: fields and parts inside the type's size and clear of each other.
  predicate LaidOut(d: Descriptor)
    decreases d, |d.unflattened| + 1
  {
    Within(d.fields, 0, d.size) && Apart(d.fields) && PartsLaidOut(d, 0)
  }

  predicate PartsLaidOut(d: Descriptor, j: nat)
    requires j <= |d.unflattened|
    decreases d, |d.unflattened| - j
  {
    j == |d.unflattened| || (
      var p := d.unflattened[j];
      && LaidOut(p.desc) && p.offset + p.desc.size <= d.size
      && (forall i :: 0 <= i < |d.fields| ==> Clear(d.fields[i], POINTER_SIZE, p))
      && (forall k :: j < k < |d.unflattened| ==> Clear(d.unflattened[k].offset, d.unflattened[k].desc.size, p))
      && PartsLaidOut(d, j + 1))
  }

  predicate Clear(at: nat, size: nat, p: Part) {
    at + size <= p.offset || p.offset + p.desc.size <= at
  }

  // The pointers of a laid out type are apart and inside it.
  lemma {:induction false} FlatApart(d: Descriptor, base: nat)
    requires LaidOut(d)
    ensures Within(Flat(d, base), base, base + d.size) && Apart(Flat(d, base))
    decreases d, |d.unflattened| + 1
  {
    hide Clear;
    PartsApart(d, 0, base);
    FieldsBeside(d, 0, base);
    ApartConcat(Shift(d.fields, base), FlatParts(d, 0, base));
  }

  lemma {:induction false} PartsApart(d: Descriptor, j: nat, base: nat)
    requires j <= |d.unflattened| && PartsLaidOut(d, j)
    ensures Within(FlatParts(d, j, base), base, base + d.size) && Apart(FlatParts(d, j, base))
    decreases d, |d.unflattened| - j
  {
    hide Clear;
    if j < |d.unflattened| {
      var p := d.unflattened[j];
      FlatApart(p.desc, base + p.offset);
      PartsApart(d, j + 1, base);
      RestBeside(d, j + 1, base, p, Flat(p.desc, base + p.offset));
      ApartConcat(Flat(p.desc, base + p.offset), FlatParts(d, j + 1, base));
    }
  }

  // Slots in the room of a part are clear of the slots of the parts after it.
  lemma {:induction false} RestBeside(d: Descriptor, j: nat, base: nat, p: Part, slots: seq<nat>)
    requires j <= |d.unflattened| && PartsLaidOut(d, j)
    requires Within(slots, base + p.offset, base + p.offset + p.desc.size)
    requires forall k :: j <= k < |d.unflattened| ==> Clear(d.unflattened[k].offset, d.unflattened[k].desc.size, p)
    ensures Beside(slots, FlatParts(d, j, base))
    decreases d, |d.unflattened| - j
  {
    if j < |d.unflattened| {
      var q := d.unflattened[j];
      FlatApart(q.desc, base + q.offset);
      RestBeside(d, j + 1, base, p, slots);
      BesideConcat(slots, Flat(q.desc, base + q.offset), FlatParts(d, j + 1, base));
    }
  }

  // And the type's own fields are clear of all its parts.
  lemma {:induction false} FieldsBeside(d: Descriptor, j: nat, base: nat)
    requires j <= |d.unflattened| && PartsLaidOut(d, j)
    ensures Beside(Shift(d.fields, base), FlatParts(d, j, base))
    decreases d, |d.unflattened| - j
  {
    if j < |d.unflattened| {
      var q := d.unflattened[j];
      FlatApart(q.desc, base + q.offset);
      FieldsBeside(d, j + 1, base);
      BesideConcat(Shift(d.fields, base), Flat(q.desc, base + q.offset), FlatParts(d, j + 1, base));
    }
  }

  lemma BesideConcat(a: seq<nat>, b: seq<nat>, c: seq<nat>)
    ensures Beside(a, b + c) <==> Beside(a, b) && Beside(a, c)
  {
    if Beside(a, b + c) {
      assert forall j :: 0 <= j < |b| ==> b[j] == (b + c)[j];
      assert forall j :: 0 <= j < |c| ==> c[j] == (b + c)[|b| + j];
    }
  }

  // An element's slots are in the element's room.
  lemma ElementApart(d: Descriptor, k: nat, offsets: seq<nat>)
    requires Within(offsets, 0, d.size) && Apart(offsets)
    ensures Apart(ElementSlots(d, k, offsets))
    ensures Within(ElementSlots(d, k, offsets), k * d.size + ARRAY_HEADER_SIZE, k * d.size + d.size + ARRAY_HEADER_SIZE)
  {
  }

  lemma RoomsBeside(a: seq<nat>, b: seq<nat>, lo: nat, mid: nat, hi: nat)
    requires Within(a, lo, mid) && Within(b, mid, hi) && lo <= mid <= hi
    ensures Beside(a, b) && Within(a + b, lo, hi)
  {
  }

  lemma {:induction false} ArrayApart(d: Descriptor, len: nat, k: nat)
    requires k <= len && Within(Written(d, 0), 0, d.size) && Apart(Written(d, 0))
    ensures k * d.size <= len * d.size && Apart(ArraySlots(d, len, k))
    ensures Within(ArraySlots(d, len, k), k * d.size + ARRAY_HEADER_SIZE, len * d.size + ARRAY_HEADER_SIZE)
    decreases len - k
  {
    hide Written, ElementSlots, Within, Apart, Beside;
    if k < len {
      ElementApart(d, k, Written(d, 0));
      ArrayApart(d, len, k + 1);
      NextElement(d, k);
      RoomsBeside(ElementSlots(d, k, Written(d, 0)), ArraySlots(d, len, k + 1),
                  k * d.size + ARRAY_HEADER_SIZE, (k + 1) * d.size + ARRAY_HEADER_SIZE,
                  len * d.size + ARRAY_HEADER_SIZE);
      ApartConcat(ElementSlots(d, k, Written(d, 0)), ArraySlots(d, len, k + 1));
    } else {
      NoSlots(len * d.size + ARRAY_HEADER_SIZE);
    }
  }

  lemma NextElement(d: Descriptor, k: nat)
    ensures (k + 1) * d.size == k * d.size + d.size
  {
  }

  lemma NoSlots(at: nat)
    ensures Apart([]) && Within([], at, at)
  {
  }

  // The slots listed for an object of a laid out and straight type, array or not, are distinct,
  // eight bytes apart, clear of an array's header and inside the object's dynamic size.
  lemma SlotsInside(d: Descriptor, len: nat)
    requires LaidOut(d) && Straight(d, 0)
    ensures Apart(Written(d, 0)) && Within(Written(d, 0), 0, DynamicSize(d, false, len))
    ensures Apart(ArraySlots(d, len, 0))
    ensures Within(ArraySlots(d, len, 0), StaticSize(d, true), DynamicSize(d, true, len))
  {
    hide LaidOut, Straight, Written, Flat, Within, Apart, ArraySlots;
    FlatApart(d, 0);
    ListedRightIff(d);
    ArrayApart(d, len, 0);
    assert len * d.size == d.size * len;
  }

  // So with the object's header before them they are inside what is allocated and what is copied.
  lemma SlotsCopied(d: Descriptor, len: nat, x: nat)
    requires LaidOut(d) && Straight(d, 0)
    ensures x in Written(d, 0) ==> HEADER_SIZE + x + POINTER_SIZE <= CopiedSize(d, false, len)
    ensures x in ArraySlots(d, len, 0) ==>
      HEADER_SIZE + ARRAY_HEADER_SIZE <= HEADER_SIZE + x && HEADER_SIZE + x + POINTER_SIZE <= CopiedSize(d, true, len)
    ensures CopiedSize(d, true, len) == AllocatedSize(d, true, len * d.size)
    ensures CopiedSize(d, false, len) == AllocatedSize(d, false, 0)
  {
    hide LaidOut, Straight, Written, ArraySlots;
    SlotsInside(d, len);
    SizesAgreeIff(d, true, len, len * d.size);
    SizesAgreeIff(d, false, len, 0);
  }
}
