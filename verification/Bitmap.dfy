// The bitmap the copier tests and sets: bits packed into 64-bit words.
module Bitmap {
  import opened Prelude

  const WORD_BITS: nat := 64

  function Bit(idx: nat): bv6 { (idx % WORD_BITS) as bv6 }

  function Word(idx: nat): nat { idx / WORD_BITS }

  // One bit of a word, read and written through its mask.
  predicate IsSet(w: bv64, k: bv6) {
    w & ((1 as bv64) << k) != 0
  }

  function Changed(w: bv64, k: bv6, value: bool): bv64 {
    if value then w | ((1 as bv64) << k) else w & !((1 as bv64) << k)
  }

  lemma MasksApart(j: bv6, k: bv6)
    requires j != k
    ensures ((1 as bv64) << k) & ((1 as bv64) << j) == 0
  {
  }

  lemma MaskNonZero(k: bv6)
    ensures (1 as bv64) << k != 0
  {
  }

  lemma OrMask(w: bv64, m: bv64, n: bv64)
    requires m & n == 0
    ensures (w | m) & n == w & n
  {
  }

  lemma OrSelf(w: bv64, m: bv64)
    ensures (w | m) & m == m
  {
  }

  lemma BitOnOther(w: bv64, k: bv6, j: bv6)
    requires j != k
    ensures IsSet(w | ((1 as bv64) << k), j) == IsSet(w, j)
  {
    MasksApart(j, k);
    OrMask(w, (1 as bv64) << k, (1 as bv64) << j);
  }

  lemma BitOnSelf(w: bv64, k: bv6)
    ensures IsSet(w | ((1 as bv64) << k), k)
  {
    MaskNonZero(k);
    OrSelf(w, (1 as bv64) << k);
  }

  lemma BitOn(w: bv64, k: bv6, j: bv6)
    ensures IsSet(w | ((1 as bv64) << k), j) == (j == k || IsSet(w, j))
  {
    hide IsSet;
    if j == k { BitOnSelf(w, k); } else { BitOnOther(w, k, j); }
  }

  lemma BitOff(w: bv64, k: bv6, j: bv6)
    ensures IsSet(w & !((1 as bv64) << k), j) == (j != k && IsSet(w, j))
  {
  }

  // Writing one bit of a word leaves the others as they were.
  lemma ChangedBit(w: bv64, k: bv6, value: bool, j: bv6)
    ensures IsSet(Changed(w, k, value), j) == if j == k then value else IsSet(w, j)
  {
    hide IsSet;
    BitOn(w, k, j);
    BitOff(w, k, j);
  }

  lemma NothingSet(k: bv6)
    ensures !IsSet(0, k)
  {
  }

  // The packed words, one bit at a time.
  function At(mem: seq<bv64>, idx: nat): bool
    requires Word(idx) < |mem|
  {
    IsSet(mem[Word(idx)], Bit(idx))
  }

  lemma BitBack(idx: nat)
    ensures Bit(idx) as nat == idx % WORD_BITS
  {
  }

  // Two indices share a word and a bit only if they are the same.
  lemma PositionsApart(i: nat, j: nat)
    ensures Word(i) == Word(j) && Bit(i) == Bit(j) ==> i == j
  {
    hide Bit;
    BitBack(i);
    BitBack(j);
  }

  lemma ChangedAt(mem: seq<bv64>, idx: nat, value: bool, i: nat)
    requires Word(idx) < |mem| && Word(i) < |mem|
    ensures At(mem[Word(idx) := Changed(mem[Word(idx)], Bit(idx), value)], i) == if i == idx then value else At(mem, i)
  {
    hide Bit, IsSet, Changed, Word;
    PositionsApart(i, idx);
    if Word(i) == Word(idx) {
      ChangedBit(mem[Word(idx)], Bit(idx), value, Bit(i));
    }
  }

  lemma InRange(i: nat, len: nat)
    requires i < len
    ensures Word(i) < DivCeil(len, WORD_BITS)
  {
  }

  // The bitmap as a list of bits.
  ghost function BitsOf(mem: seq<bv64>, len: nat): seq<bool>
    requires |mem| == DivCeil(len, WORD_BITS)
  {
    seq(len, i requires 0 <= i < len => InRange(i, len); At(mem, i))
  }

  lemma NoBits(mem: seq<bv64>, len: nat)
    requires |mem| == DivCeil(len, WORD_BITS) && forall k :: 0 <= k < |mem| ==> mem[k] == 0
    ensures BitsOf(mem, len) == seq(len, _ => false)
  {
    hide Bit, IsSet, Word;
    forall i: nat | i < len ensures BitsOf(mem, len)[i] == false {
      InRange(i, len);
      NothingSet(Bit(i));
    }
  }

  lemma SetBits(mem: seq<bv64>, len: nat, idx: nat, value: bool)
    requires |mem| == DivCeil(len, WORD_BITS) && idx < len
    ensures Word(idx) < |mem| && At(mem, idx) == BitsOf(mem, len)[idx]
    ensures BitsOf(mem[Word(idx) := Changed(mem[Word(idx)], Bit(idx), value)], len) == BitsOf(mem, len)[idx := value]
  {
    hide Bit, IsSet, Word, Changed, At, DivCeil;
    InRange(idx, len);
    var after := mem[Word(idx) := Changed(mem[Word(idx)], Bit(idx), value)];
    forall i: nat | i < len ensures BitsOf(after, len)[i] == BitsOf(mem, len)[idx := value][i] {
      InRange(i, len);
      ChangedAt(mem, idx, value, i);
    }
  }

  class AtomicBitmap {
    var mem: seq<bv64>
    const len: nat

    constructor (len: nat)
      ensures this.len == len && Valid() && Bits() == seq(len, _ => false)
    {
      this.len := len;
      mem := seq(DivCeil(len, WORD_BITS), _ => 0 as bv64);
      new;
      NoBits(mem, len);
    }

    ghost predicate Valid()
      reads this
    {
      |mem| == DivCeil(len, WORD_BITS)
    }

    ghost function Bits(): seq<bool>
      requires Valid()
      reads this
    {
      BitsOf(mem, len)
    }

    // Sets one bit and returns what it was; an index out of range is refused.
    method Set(idx: nat, value: bool) returns (r: Option<bool>)
      requires Valid()
      modifies this`mem
      ensures Valid()
      ensures r == if idx < len then Some(old(Bits())[idx]) else None
      ensures Bits() == if idx < len then old(Bits())[idx := value] else old(Bits())
    {
      hide Bit, IsSet, Changed, Word, DivCeil, BitsOf;
      if idx >= len {
        return None;
      }
      SetBits(mem, len, idx, value);
      var word := Word(idx);
      r := Some(IsSet(mem[word], Bit(idx)));
      mem := mem[word := Changed(mem[word], Bit(idx), value)];
    }
  }
}
