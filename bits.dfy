// The C bitwise operators |, &, ^ and `& ~` on unsigned values, written on
// naturals one bit at a time, and what they do to each bit.

module Bits {

  function Pow2(k: nat): (p: nat)
    ensures p >= 1
  {
    if k == 0 then 1 else 2 * Pow2(k - 1)
  }

  /** Bit `p` of `a`, bit 0 being the least significant. */
  predicate Bit(a: nat, p: nat)
  {
    if p == 0 then a % 2 == 1 else Bit(a / 2, p - 1)
  }

  /** The bitwise operators: |, &, ^, and `a & ~b`. */
  datatype LogicOp = OrOp | AndOp | XorOp | AndNotOp

  predicate Apply(op: LogicOp, x: bool, y: bool)
  {
    match op
    case OrOp => x || y
    case AndOp => x && y
    case XorOp => x != y
    case AndNotOp => x && !y
  }

  /** The `w`-bit result of applying `op` to the low `w` bits of `a` and `b`. */
  function BitLogic(op: LogicOp, a: nat, b: nat, w: nat): (r: nat)
    ensures r < Pow2(w)
  {
    if w == 0 then 0
    else (if Apply(op, a % 2 == 1, b % 2 == 1) then 1 else 0) + 2 * BitLogic(op, a / 2, b / 2, w - 1)
  }

  /** Each of the low `w` bits of the result is `op` applied to the operands' bits. */
  lemma {:induction false} BitLogicBit(op: LogicOp, a: nat, b: nat, w: nat, p: nat)
    requires p < w
    ensures Bit(BitLogic(op, a, b, w), p) == Apply(op, Bit(a, p), Bit(b, p))
  {
    var r := BitLogic(op, a, b, w);
    var rest := BitLogic(op, a / 2, b / 2, w - 1);
    assert r / 2 == rest && r % 2 == (if Apply(op, a % 2 == 1, b % 2 == 1) then 1 else 0);
    if p > 0 {
      BitLogicBit(op, a / 2, b / 2, w - 1, p - 1);
    }
  }

  lemma {:induction false} ZeroBits(p: nat)
    ensures !Bit(0, p)
  {
    if p > 0 {
      ZeroBits(p - 1);
    }
  }

  lemma ZeroBitsAll()
    ensures forall p: nat :: !Bit(0, p)
  {
    forall p: nat
      ensures !Bit(0, p)
    {
      ZeroBits(p);
    }
  }

  /** `1 << k` has bit k and no other. */
  lemma {:induction false} Pow2Bit(k: nat, p: nat)
    ensures Bit(Pow2(k), p) == (p == k)
  {
    if k == 0 {
      if p > 0 {
        assert Pow2(0) / 2 == 0;
        ZeroBits(p - 1);
      }
    } else if p > 0 {
      assert Pow2(k) / 2 == Pow2(k - 1);
      Pow2Bit(k - 1, p - 1);
    }
  }

  /** Masking with `x & y` never gives more than `x`. */
  lemma {:induction false} AndAtMost(a: nat, b: nat, w: nat)
    ensures BitLogic(AndOp, a, b, w) <= a
  {
    if w > 0 {
      AndAtMost(a / 2, b / 2, w - 1);
    }
  }

  lemma Pow2Bits(k: nat)
    ensures forall p: nat :: Bit(Pow2(k), p) == (p == k)
  {
    forall p: nat
      ensures Bit(Pow2(k), p) == (p == k)
    {
      Pow2Bit(k, p);
    }
  }

  /** `x & 0` is 0. */
  lemma {:induction false} AndZero(a: nat, w: nat)
    ensures BitLogic(AndOp, a, 0, w) == 0
  {
    if w > 0 {
      AndZero(a / 2, w - 1);
    }
  }

  /** Two `w`-bit values with the same bits are equal. */
  lemma {:induction false} SameBits(a: nat, b: nat, w: nat)
    requires a < Pow2(w) && b < Pow2(w)
    requires forall p: nat :: p < w ==> Bit(a, p) == Bit(b, p)
    ensures a == b
  {
    if w > 0 {
      assert Bit(a, 0) == Bit(b, 0);
      forall p: nat | p < w - 1
        ensures Bit(a / 2, p) == Bit(b / 2, p)
      {
        assert Bit(a, p + 1) == Bit(b, p + 1);
      }
      SameBits(a / 2, b / 2, w - 1);
    }
  }

  /** x & (1 << k): the k-th bit of x in place, or 0. */
  lemma {:induction false} AndPow2(a: nat, k: nat, w: nat)
    requires k < w
    ensures BitLogic(AndOp, a, Pow2(k), w) == if Bit(a, k) then Pow2(k) else 0
  {
    var r := BitLogic(AndOp, a, Pow2(k), w);
    forall p: nat | p < w
      ensures Bit(r, p) == Bit(if Bit(a, k) then Pow2(k) else 0, p)
    {
      BitLogicBit(AndOp, a, Pow2(k), w, p);
      Pow2Bit(k, p);
      ZeroBits(p);
    }
    Pow2Below(k, w);
    SameBits(r, if Bit(a, k) then Pow2(k) else 0, w);
  }

  lemma {:induction false} Pow2Below(k: nat, w: nat)
    requires k < w
    ensures Pow2(k) < Pow2(w)
  {
    if k + 1 < w {
      Pow2Below(k, w - 1);
    }
  }

  /** Bit by bit, as a quantified statement. */
  lemma LogicBits(op: LogicOp, a: nat, b: nat, w: nat)
    ensures forall p: nat :: p < w ==> Bit(BitLogic(op, a, b, w), p) == Apply(op, Bit(a, p), Bit(b, p))
  {
    forall p: nat | p < w
      ensures Bit(BitLogic(op, a, b, w), p) == Apply(op, Bit(a, p), Bit(b, p))
    {
      BitLogicBit(op, a, b, w, p);
    }
  }

  lemma Pow2Values()
    ensures Pow2(8) == 0x100 && Pow2(16) == 0x1_0000
  {
  }
}
