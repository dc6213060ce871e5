/** 64-bit occupancy masks. Bit i of a mask stands for square i of the board,
    squares being numbered 0..63. */
module Bitboards {

  /** `Bitboard` in position.rs, an unsigned 64-bit integer. */
  type Bitboard = bv64

  /** Whether square i is occupied in mask b. */
  predicate IsSet(b: Bitboard, i: nat)
    requires i < 64
  {
    BitAt(b, i as bv7)
  }

  /** Bit k of b, the shift amount taken as a bit-vector so that the solver
      reasons about it without integer conversions. */
  predicate BitAt(b: Bitboard, k: bv7)
    requires k < 64
  {
    (b >> k) & 1 == 1
  }

  // The BitAt lemmas below are pure bit-vector facts; the BitOf lemmas
  // after them restate each one for a square number. Keeping the bit-vector
  // proof in its own small lemma keeps the integer-to-bv7 conversion out of
  // it, which the solver otherwise handles slowly.

  lemma BitAtUnion(a: Bitboard, b: Bitboard, k: bv7)
    requires k < 64
    ensures BitAt(a | b, k) <==> BitAt(a, k) || BitAt(b, k)
  {
  }

  lemma BitAtIntersection(a: Bitboard, b: Bitboard, k: bv7)
    requires k < 64
    ensures BitAt(a & b, k) <==> BitAt(a, k) && BitAt(b, k)
  {
  }

  lemma BitAtUnion6(a: Bitboard, b: Bitboard, c: Bitboard, d: Bitboard, e: Bitboard, f: Bitboard, k: bv7)
    requires k < 64
    ensures BitAt(a | b | c | d | e | f, k) <==>
              BitAt(a, k) || BitAt(b, k) || BitAt(c, k) || BitAt(d, k) || BitAt(e, k) || BitAt(f, k)
  {
  }

  lemma BitOfUnion(a: Bitboard, b: Bitboard, i: nat)
    requires i < 64
    ensures IsSet(a | b, i) <==> IsSet(a, i) || IsSet(b, i)
  {
    BitAtUnion(a, b, i as bv7);
  }

  lemma BitOfIntersection(a: Bitboard, b: Bitboard, i: nat)
    requires i < 64
    ensures IsSet(a & b, i) <==> IsSet(a, i) && IsSet(b, i)
  {
    BitAtIntersection(a, b, i as bv7);
  }

  /** A square is in a union of six masks exactly when it is in one of
      them. */
  lemma BitOfUnion6(a: Bitboard, b: Bitboard, c: Bitboard, d: Bitboard, e: Bitboard, f: Bitboard, i: nat)
    requires i < 64
    ensures IsSet(a | b | c | d | e | f, i) <==>
              IsSet(a, i) || IsSet(b, i) || IsSet(c, i) || IsSet(d, i) || IsSet(e, i) || IsSet(f, i)
  {
    BitAtUnion6(a, b, c, d, e, f, i as bv7);
  }

  lemma NoBitOfZero(i: nat)
    requires i < 64
    ensures !IsSet(0, i)
  {
  }

  /** The squares a mask occupies. */
  function Squares(b: Bitboard): set<nat>
  {
    set i: nat | i < 64 && IsSet(b, i)
  }

  /** The number of set bits of a mask. */
  function PopCount(b: Bitboard): nat
  {
    |Squares(b)|
  }

  /** The squares lo..hi-1. */
  function Range(lo: nat, hi: nat): (r: set<nat>)
    ensures forall i :: i in r <==> lo <= i < hi
    decreases hi
  {
    if hi <= lo then {} else Range(lo, hi - 1) + {hi - 1}
  }

  /** A range holds as many squares as its width. */
  lemma {:induction false} RangeSize(lo: nat, hi: nat)
    requires lo <= hi
    ensures |Range(lo, hi)| == hi - lo
    decreases hi
  {
    if lo < hi {
      var below := Range(lo, hi - 1);
      RangeSize(lo, hi - 1);
      assert hi - 1 !in below;
      assert |below + {hi - 1}| == |below| + 1;
    }
  }

  /** A bitwise OR occupies the union of the squares of its operands. */
  lemma SquaresOfUnion(a: Bitboard, b: Bitboard)
    ensures Squares(a | b) == Squares(a) + Squares(b)
  {
    forall i: nat | i < 64 {
      BitOfUnion(a, b, i);
    }
  }

  /** A bitwise AND occupies the squares both operands occupy. */
  lemma SquaresOfIntersection(a: Bitboard, b: Bitboard)
    ensures Squares(a & b) == Squares(a) * Squares(b)
  {
    forall i: nat | i < 64 {
      BitOfIntersection(a, b, i);
    }
  }

  /** Disjoint masks: the population of their union is the sum of theirs. */
  lemma PopCountOfDisjointUnion(a: Bitboard, b: Bitboard)
    requires a & b == 0
    ensures PopCount(a | b) == PopCount(a) + PopCount(b)
  {
    SquaresOfUnion(a, b);
    SquaresOfIntersection(a, b);
    assert Squares(a & b) == {};
  }
}
