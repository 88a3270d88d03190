// The header of an object: a word that packs the mark bit, the barrier bit and the kind, and a
// payload that never changes. Marking is an atomic update of the word.
module Metadata {
  import Graph

  datatype Content = PlainOldData(len: bv64) | NotPlainOldData(id: bv64)

  datatype Expanded = Expanded(isMarked: Graph.Bit, barrier: bool, payload: Content)

  const MARK_BIT: bv64 := 1
  const WRITE_BARRIER_BIT: bv64 := 2
  const OBJECT_TYPE_MASK: bv64 := 4
  const OBJECT_TYPE_SHIFT: nat := 2
  const PAYLOAD_SHIFT: nat := 3

  function PayloadOf(d: Expanded): bv64 {
    match d.payload
    case PlainOldData(len) => len
    case NotPlainOldData(id) => id
  }

  function Base(c: Content): bv64 {
    match c
    case PlainOldData(len) => len << PAYLOAD_SHIFT
    case NotPlainOldData(_) => OBJECT_TYPE_MASK
  }

  function Pack(base: bv64, marked: bool, barrier: bool): bv64 {
    var v := if marked then base | MARK_BIT else base;
    if barrier then v | WRITE_BARRIER_BIT else v
  }

  function Encode(d: Expanded): bv64 {
    Pack(Base(d.payload), d.isMarked == Graph.Bit1, d.barrier)
  }

  function Decode(v: bv64, payload: bv64): Expanded {
    Expanded(
      if v & MARK_BIT != 0 then Graph.Bit1 else Graph.Bit0,
      v & WRITE_BARRIER_BIT != 0,
      if (v & OBJECT_TYPE_MASK) >> OBJECT_TYPE_SHIFT == 0 then PlainOldData(payload) else NotPlainOldData(payload))
  }

  // The length in the word never reaches the low three bits, however long it is.
  lemma BaseBits(c: Content)
    ensures if c.PlainOldData? then Base(c) & 7 == 0 else Base(c) == OBJECT_TYPE_MASK
  {
  }

  lemma PackBits(base: bv64, marked: bool, barrier: bool)
    requires base & 7 == 0 || base == OBJECT_TYPE_MASK
    ensures var v := Pack(base, marked, barrier);
      && (v & MARK_BIT != 0) == marked && (v & WRITE_BARRIER_BIT != 0) == barrier
      && ((v & OBJECT_TYPE_MASK) >> OBJECT_TYPE_SHIFT == 0) == (base & 7 == 0)
  {
  }

  // Every header reads back as it was written: a word is lossless together with its payload,
  // also for lengths whose top bits do not fit in it.
  lemma RoundTrip(d: Expanded)
    ensures Decode(Encode(d), PayloadOf(d)) == d
  {
    hide Base, Pack;
    BaseBits(d.payload);
    PackBits(Base(d.payload), d.isMarked == Graph.Bit1, d.barrier);
    Masked();
  }

  // Where each part is in the word: the mark in bit 0, the barrier in bit 1, the kind in bit 2.
  predicate Flags(v: bv64, marked: bool, barrier: bool, typed: bool) {
    (v & 1 == if marked then 1 else 0) && (v & 2 == if barrier then 2 else 0) && (v & 4 == if typed then 4 else 0)
  }

  lemma PackFlags(base: bv64, marked: bool, barrier: bool)
    requires base & 3 == 0
    ensures Flags(Pack(base, marked, barrier), marked, barrier, base & 4 == 4)
    ensures Pack(base, marked, barrier) >> 3 == base >> 3
  {
  }

  lemma BaseKind(c: Content)
    ensures Base(c) & 3 == 0 && (Base(c) & 4 == 4) == c.NotPlainOldData?
  {
  }

  lemma WordLayout(d: Expanded)
    ensures Flags(Encode(d), d.isMarked == Graph.Bit1, d.barrier, d.payload.NotPlainOldData?)
    ensures Encode(d) >> 3 == Base(d.payload) >> 3
  {
    assert Encode(d) == Pack(Base(d.payload), d.isMarked == Graph.Bit1, d.barrier) by { hide Pack, Base; }
    hide Flags, Encode, Pack, Base;
    BaseKind(d.payload);
    PackFlags(Base(d.payload), d.isMarked == Graph.Bit1, d.barrier);
  }

  // And above them the length of plain data, which can be read from the word below 2^61.
  lemma WordHoldsLength(d: Expanded)
    requires d.payload.PlainOldData? && d.payload.len < 0x2000_0000_0000_0000
    ensures Encode(d) >> 3 == d.payload.len
  {
    hide Encode, Base, Flags;
    WordLayout(d);
    LengthInBase(d.payload);
  }

  lemma LengthInBase(c: Content)
    requires c.PlainOldData? && c.len < 0x2000_0000_0000_0000
    ensures Base(c) >> 3 == c.len
  {
  }

  lemma Masked()
    ensures OBJECT_TYPE_MASK & 7 != 0
  {
  }

  // A header with its word, updated in place.
  class Header {
    var word: bv64
    const payload: bv64

    constructor (d: Expanded)
      ensures payload == PayloadOf(d) && Get() == d
    {
      payload := PayloadOf(d);
      word := Encode(d);
      new;
      RoundTrip(d);
    }

    function Get(): Expanded
      reads this
    {
      Decode(word, payload)
    }

    // The marker's update: succeeds exactly when the object was not marked yet, changes nothing
    // but the mark, and returns what was there before.
    method TryMark(bit: Graph.Bit) returns (marked: bool, before: Expanded)
      modifies this
      ensures before == old(Get())
      ensures marked <==> before.isMarked != bit
      ensures Get() == before.(isMarked := bit)
      ensures !marked ==> word == old(word)
    {
      hide Encode;
      before := Decode(word, payload);
      if before.isMarked == bit {
        return false, before;
      }
      var after := before.(isMarked := bit);
      word := Encode(after);
      RoundTrip(after);
      marked := true;
    }
  }

  // ----- Markers racing for one object -----

  // Where a marker's update is: not begun, with the word it read last, or over.
  datatype Stage = Before | Looked(seen: bv64) | Won | Lost

  datatype Race = Race(word: bv64, at: map<nat, Stage>)

  // Read the word; try to swap the word seen for the marked one, again with the new word if it has
  // changed; or fail for no reason, as a weak exchange may.
  datatype Move = Look(i: nat) | Swap(i: nat) | Spurious(i: nat)

  predicate Enabled(r: Race, m: Move) {
    m.i in r.at && if m.Look? then r.at[m.i].Before? else r.at[m.i].Looked?
  }

  function Next(r: Race, m: Move, payload: bv64, bit: Graph.Bit): Race
    requires Enabled(r, m)
  {
    match m
    case Look(i) => r.(at := r.at[i := Looked(r.word)])
    case Spurious(i) => r.(at := r.at[i := Looked(r.word)])
    case Swap(i) =>
      var seen := r.at[i].seen;
      var d := Decode(seen, payload);
      if d.isMarked == bit then r.(at := r.at[i := Lost])
      else if r.word != seen then r.(at := r.at[i := Looked(r.word)])
      else Race(Encode(d.(isMarked := bit)), r.at[i := Won])
  }

  predicate Run(r: Race, ms: seq<Move>, payload: bv64, bit: Graph.Bit, r': Race)
    decreases |ms|
  {
    if ms == [] then r' == r
    else Enabled(r, ms[0]) && Run(Next(r, ms[0], payload, bit), ms[1..], payload, bit, r')
  }

  function Winners(r: Race): set<nat> {
    set i | i in r.at && r.at[i].Won?
  }

  // The word is the old one while nobody has won, and the marked one once somebody has.
  ghost predicate RaceInv(d: Expanded, bit: Graph.Bit, r: Race) {
    var old_, new_ := Encode(d), Encode(d.(isMarked := bit));
    && (forall i :: i in r.at && r.at[i].Looked? ==> r.at[i].seen == old_ || r.at[i].seen == new_)
    && ((r.word == old_ && Winners(r) == {}
         && forall i :: i in r.at ==> !r.at[i].Lost? && (r.at[i].Looked? ==> r.at[i].seen == old_))
        || (r.word == new_ && |Winners(r)| == 1))
  }

  lemma WinnersAt(r: Race, word: bv64, i: nat, stage: Stage)
    requires i in r.at && !r.at[i].Won?
    ensures Winners(Race(word, r.at[i := stage])) == Winners(r) + if stage.Won? then {i} else {}
  {
    var r' := Race(word, r.at[i := stage]);
    assert Winners(r') == Winners(r) + if stage.Won? then {i} else {};
  }

  lemma LookStep(d: Expanded, bit: Graph.Bit, r: Race, i: nat)
    requires RaceInv(d, bit, r) && i in r.at && !r.at[i].Won? && !r.at[i].Lost?
    ensures RaceInv(d, bit, r.(at := r.at[i := Looked(r.word)]))
  {
    hide Encode, Winners;
    WinnersAt(r, r.word, i, Looked(r.word));
  }

  lemma LoseStep(d: Expanded, bit: Graph.Bit, r: Race, i: nat)
    requires RaceInv(d, bit, r) && i in r.at && r.at[i].Looked? && r.at[i].seen != Encode(d)
    ensures RaceInv(d, bit, r.(at := r.at[i := Lost]))
  {
    hide Encode, Winners;
    WinnersAt(r, r.word, i, Lost);
  }

  lemma WinStep(d: Expanded, bit: Graph.Bit, r: Race, i: nat)
    requires RaceInv(d, bit, r) && i in r.at && r.at[i].Looked? && r.word == Encode(d) != Encode(d.(isMarked := bit))
    ensures RaceInv(d, bit, Race(Encode(d.(isMarked := bit)), r.at[i := Won]))
  {
    hide Encode, Winners;
    WinnersAt(r, Encode(d.(isMarked := bit)), i, Won);
  }

  lemma RaceStep(d: Expanded, bit: Graph.Bit, r: Race, m: Move)
    requires d.isMarked != bit && RaceInv(d, bit, r) && Enabled(r, m)
    ensures RaceInv(d, bit, Next(r, m, PayloadOf(d), bit))
  {
    hide Encode, Decode, RaceInv;
    RoundTrip(d);
    RoundTrip(d.(isMarked := bit));
    match m {
      case Look(i) => LookStep(d, bit, r, i);
      case Spurious(i) => LookStep(d, bit, r, i);
      case Swap(i) =>
        SeenIs(d, bit, r, i);
        if r.at[i].seen != Encode(d) {
          LoseStep(d, bit, r, i);
        } else if r.word != r.at[i].seen {
          LookStep(d, bit, r, i);
        } else {
          WinStep(d, bit, r, i);
        }
    }
  }

  lemma SeenIs(d: Expanded, bit: Graph.Bit, r: Race, i: nat)
    requires RaceInv(d, bit, r) && i in r.at && r.at[i].Looked?
    ensures r.at[i].seen == Encode(d) || r.at[i].seen == Encode(d.(isMarked := bit))
  {
    hide Encode, Winners;
  }

  lemma {:induction false} RaceRun(d: Expanded, bit: Graph.Bit, r: Race, ms: seq<Move>, r': Race)
    requires d.isMarked != bit && RaceInv(d, bit, r) && Run(r, ms, PayloadOf(d), bit, r')
    ensures RaceInv(d, bit, r') && r'.at.Keys == r.at.Keys
    decreases |ms|
  {
    hide RaceInv, Encode, Decode;
    if ms != [] {
      RaceStep(d, bit, r, ms[0]);
      RaceRun(d, bit, Next(r, ms[0], PayloadOf(d), bit), ms[1..], r');
    }
  }

  // How many looks and exchanges marker i can still need.
  function ToGo(d: Expanded, r: Race, i: nat): nat {
    if i !in r.at then 0
    else match r.at[i]
      case Before => 3
      case Looked(seen) => if seen == Encode(d) then 2 else 1
      case _ => 0
  }

  function OwnMoves(ms: seq<Move>, i: nat): nat {
    if ms == [] then 0 else (if ms[0].i == i && !ms[0].Spurious? then 1 else 0) + OwnMoves(ms[1..], i)
  }

  lemma OneMove(d: Expanded, bit: Graph.Bit, r: Race, m: Move, i: nat)
    requires d.isMarked != bit && RaceInv(d, bit, r) && Enabled(r, m)
    ensures var r' := Next(r, m, PayloadOf(d), bit);
      if m.i == i && !m.Spurious? then ToGo(d, r', i) < ToGo(d, r, i) else ToGo(d, r', i) <= ToGo(d, r, i)
  {
    hide Encode, Decode, RaceInv, Next;
    WordIs(d, bit, r);
    match m {
      case Look(j) => LookIs(r, m, PayloadOf(d), bit);
      case Spurious(j) => LookIs(r, m, PayloadOf(d), bit); SeenIs(d, bit, r, j);
      case Swap(j) => SwapIs(d, bit, r, j);
    }
  }

  lemma LookIs(r: Race, m: Move, payload: bv64, bit: Graph.Bit)
    requires Enabled(r, m) && !m.Swap?
    ensures Next(r, m, payload, bit) == r.(at := r.at[m.i := Looked(r.word)])
  {
    hide Encode, Decode;
  }

  // An exchange wins, looks again or loses, by what it has seen and what is there.
  lemma SwapIs(d: Expanded, bit: Graph.Bit, r: Race, i: nat)
    requires d.isMarked != bit && RaceInv(d, bit, r) && Enabled(r, Swap(i))
    ensures Next(r, Swap(i), PayloadOf(d), bit)
         == if r.at[i].seen != Encode(d) then r.(at := r.at[i := Lost])
            else if r.word != Encode(d) then r.(at := r.at[i := Looked(r.word)])
            else Race(Encode(d.(isMarked := bit)), r.at[i := Won])
    ensures Encode(d) != Encode(d.(isMarked := bit))
  {
    hide Encode, Decode, RaceInv;
    RoundTrip(d);
    RoundTrip(d.(isMarked := bit));
    SeenIs(d, bit, r, i);
  }

  lemma WordIs(d: Expanded, bit: Graph.Bit, r: Race)
    requires RaceInv(d, bit, r)
    ensures r.word == Encode(d) || r.word == Encode(d.(isMarked := bit))
    ensures forall i :: i in r.at && r.at[i].Looked? && r.at[i].seen != Encode(d) ==> r.word != Encode(d)
  {
    hide Encode;
  }

  // Nobody goes round for ever: apart from exchanges that fail for no reason a marker is done after
  // one look and two exchanges, whatever the others do.
  lemma {:induction false} RaceEnds(d: Expanded, bit: Graph.Bit, r: Race, ms: seq<Move>, r': Race, i: nat)
    requires d.isMarked != bit && RaceInv(d, bit, r) && Run(r, ms, PayloadOf(d), bit, r')
    ensures OwnMoves(ms, i) + ToGo(d, r', i) <= ToGo(d, r, i) <= 3
    decreases |ms|
  {
    hide RaceInv, Encode, Decode, Next, Enabled;
    if ms != [] {
      RaceStep(d, bit, r, ms[0]);
      OneMove(d, bit, r, ms[0], i);
      RaceEnds(d, bit, Next(r, ms[0], PayloadOf(d), bit), ms[1..], r', i);
    }
  }

  predicate AllOver(r: Race, markers: set<nat>) {
    forall i :: i in markers ==> i in r.at && (r.at[i].Won? || r.at[i].Lost?)
  }

  // Of any number of markers that come to one unmarked object, in any interleaving, at most one
  // gets it, and exactly one when all are done; nothing but the mark changes.
  lemma OneMarkerWins(d: Expanded, bit: Graph.Bit, markers: set<nat>, ms: seq<Move>, r: Race)
    requires d.isMarked != bit
    requires Run(Race(Encode(d), map i | i in markers :: Before), ms, PayloadOf(d), bit, r)
    ensures |Winners(r)| <= 1
    ensures Decode(r.word, PayloadOf(d)) == if Winners(r) == {} then d else d.(isMarked := bit)
    ensures markers != {} && AllOver(r, markers) ==> |Winners(r)| == 1
  {
    var start := Race(Encode(d), map i | i in markers :: Before);
    assert Winners(start) == {};
    hide Encode, Decode;
    RaceRun(d, bit, start, ms, r);
    RoundTrip(d);
    RoundTrip(d.(isMarked := bit));
    if markers != {} && Winners(r) == {} {
      var i :| i in markers;
      assert i in r.at && !r.at[i].Lost?;
      assert i !in Winners(r);
    }
  }
}
