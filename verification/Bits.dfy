/**
 Bitwise operators on natural numbers, bit by bit, and what they do to the low bits.
 */
module Bits {
  import opened Wrappers

  function Pow2(k: nat): (p: nat)
    ensures p > 0
  {
    if k == 0 then 1 else 2 * Pow2(k - 1)
  }

  type Operator = (bool, bool) -> bool

  const AND: Operator := (a, b) => a && b
  const OR: Operator := (a, b) => a || b
  const XOR: Operator := (a, b) => a != b

  /** Applies `op` to each pair of bits. */
  function Bitwise(op: Operator, x: nat, y: nat): nat
    decreases x + y
  {
    if x == 0 && y == 0 then 0
    else 2 * Bitwise(op, x / 2, y / 2) + One(op(x % 2 == 1, y % 2 == 1))
  }

  function And(x: nat, y: nat): nat { Bitwise(AND, x, y) }
  function Or(x: nat, y: nat): nat { Bitwise(OR, x, y) }
  function Xor(x: nat, y: nat): nat { Bitwise(XOR, x, y) }

  /** All the bits of a word of `width` bits flipped. */
  function Not(width: nat, x: nat): nat
    requires x < Pow2(width)
  {
    Pow2(width) - 1 - x
  }

  function ShiftLeft(x: nat, s: nat): nat { x * Pow2(s) }

  function ShiftRight(x: nat, s: nat): nat {
    QuotientIsNat(x, Pow2(s));
    x / Pow2(s)
  }

  // ---------------------------------------------------------------- remainders

  lemma QuotientIsNat(x: nat, d: nat)
    requires d > 0
    ensures x / d >= 0
  {
  }

  lemma AtLeast(q: int, d: int)
    requires q >= 1 && d > 0
    ensures q * d >= d
  {
  }

  lemma Distribute(a: int, b: int, d: int)
    ensures (a - b) * d == a * d - b * d
  {
  }

  lemma DivModUnique(x: int, d: int, q: int, r: int)
    requires d > 0 && x == q * d + r && 0 <= r < d
    ensures x / d == q && x % d == r
  {
    var q' := x / d;
    assert x == q' * d + x % d;
    Distribute(q, q', d);
    Distribute(q', q, d);
    if q > q' { AtLeast(q - q', d); }
    if q < q' { AtLeast(q' - q, d); }
  }

  lemma {:induction false} Pow2Sum(j: nat, k: nat)
    ensures Pow2(j + k) == Pow2(j) * Pow2(k)
  {
    if j > 0 { Pow2Sum(j - 1, k); }
  }

  /** Adding a multiple of the modulus changes nothing. */
  lemma ModShift(x: int, q: int, d: int)
    requires d > 0
    ensures (x + q * d) % d == x % d
  {
    assert x + q * d == (x / d + q) * d + x % d;
    DivModUnique(x + q * d, d, x / d + q, x % d);
  }

  lemma Split(x: int, d: int)
    requires d > 0
    ensures x == x / d * d + x % d
  {
  }

  lemma ModProduct(x: nat, y: nat, d: nat)
    requires d > 0
    ensures (x * y) % d == ((x % d) * y) % d
  {
    assert x * y == (x % d) * y + (x / d * y) * d;
    ModShift((x % d) * y, x / d * y, d);
  }

  lemma DoubleProduct(q: nat, m: nat)
    ensures 2 * (q * m) == q * (2 * m)
  {
  }

  lemma Halve(x: nat)
    ensures x == 2 * (x / 2) + x % 2
  {
  }

  lemma Unhalve(x: nat, h: nat, r: nat)
    requires x == 2 * h + r && r < 2
    ensures x / 2 == h && x % 2 == r
  {
  }

  lemma ModDouble(x: nat, m: nat)
    requires m > 0
    ensures x % (2 * m) == 2 * ((x / 2) % m) + x % 2
  {
    var h := x / 2;
    var q, r := h / m, h % m;
    assert h == q * m + r;
    QuotientIsNat(h, m);
    DoubleProduct(q, m);
    Halve(x);
    DivModUnique(x, 2 * m, q, 2 * r + x % 2);
  }

  lemma HalfMod(x: nat, k: nat)
    requires k > 0
    ensures x % Pow2(k) / 2 == (x / 2) % Pow2(k - 1)
    ensures x % Pow2(k) % 2 == x % 2
    ensures x % Pow2(k) == 2 * ((x / 2) % Pow2(k - 1)) + x % 2
  {
    var r := (x / 2) % Pow2(k - 1);
    ModDouble(x, Pow2(k - 1));
    Unhalve(x % Pow2(k), r, x % 2);
  }

  /** The low `k` bits of the low `w` bits are the low `k` bits. */
  lemma {:induction false} ModPow2Twice(x: nat, k: nat, w: nat)
    requires k <= w
    ensures (x % Pow2(w)) % Pow2(k) == x % Pow2(k)
    decreases k
  {
    if k > 0 {
      HalfMod(x, w);
      HalfMod(x, k);
      HalfMod(x % Pow2(w), k);
      ModPow2Twice(x / 2, k - 1, w - 1);
    }
  }

  lemma ShiftRightBound(x: nat, j: nat, k: nat)
    requires x < Pow2(j + k)
    ensures ShiftRight(x, k) < Pow2(j)
  {
    Pow2Sum(j, k);
    if ShiftRight(x, k) >= Pow2(j) { NotLess(ShiftRight(x, k), Pow2(j), Pow2(k)); }
  }

  lemma NotLess(a: nat, b: nat, d: nat)
    requires a >= b
    ensures a * d >= b * d
  {
  }

  lemma ShiftByNone(x: nat)
    ensures ShiftLeft(x, 0) == x
  {
  }

  lemma ShiftOnce(x: nat, s: nat)
    requires s > 0
    ensures ShiftLeft(x, s) == 2 * ShiftLeft(x, s - 1)
  {
    DoubleProduct(x, Pow2(s - 1));
  }

  /** A left shift by `s` keeps `j` bits in a word of `s + j` bits. */
  lemma {:induction false} ShiftMod(x: nat, s: nat, j: nat)
    ensures ShiftLeft(x, s) % Pow2(s + j) == ShiftLeft(x % Pow2(j), s)
    decreases s
  {
    hide ShiftLeft;
    if s == 0 {
      ShiftByNone(x);
      ShiftByNone(x % Pow2(j));
    } else {
      var half := ShiftLeft(x, s - 1);
      ShiftOnce(x, s);
      ShiftOnce(x % Pow2(j), s);
      Unhalve(2 * half, half, 0);
      HalfMod(2 * half, s + j);
      ShiftMod(x, s - 1, j);
    }
  }

  // ---------------------------------------------------------------- low bits

  /** The low bits of the result depend on the low bits of the operands only. */
  lemma {:induction false} BitwiseMod(op: Operator, x: nat, y: nat, k: nat)
    requires !op(false, false)
    ensures Bitwise(op, x, y) % Pow2(k) == Bitwise(op, x % Pow2(k), y % Pow2(k))
    decreases k
  {
    if k > 0 {
      HalfMod(x, k);
      HalfMod(y, k);
      HalfMod(Bitwise(op, x, y), k);
      BitwiseMod(op, x / 2, y / 2, k - 1);
    }
  }

  lemma {:induction false} BitwiseBound(op: Operator, x: nat, y: nat, k: nat)
    requires x < Pow2(k) && y < Pow2(k)
    ensures Bitwise(op, x, y) < Pow2(k)
    decreases k
  {
    if k > 0 { BitwiseBound(op, x / 2, y / 2, k - 1); }
  }

  /** Masking with the low `k` bits is the remainder modulo 2^k. */
  lemma {:induction false} MaskIsMod(x: nat, k: nat)
    ensures And(x, Pow2(k) - 1) == x % Pow2(k)
    decreases k
  {
    if k == 0 {
      MaskZero(x);
    } else {
      HalfMod(x, k);
      Unhalve(Pow2(k) - 1, Pow2(k - 1) - 1, 1);
      MaskIsMod(x / 2, k - 1);
    }
  }

  lemma {:induction false} MaskZero(x: nat)
    ensures And(x, 0) == 0
  {
    if x > 0 { MaskZero(x / 2); }
  }

  /** Or of numbers without common bits is their sum. */
  lemma {:induction false} OrIsSum(m: nat, v: nat, s: nat)
    requires v < Pow2(s)
    ensures Or(ShiftLeft(m, s), v) == ShiftLeft(m, s) + v
    decreases s
  {
    if s == 0 {
      OrZero(m);
    } else {
      assert ShiftLeft(m, s) == 2 * ShiftLeft(m, s - 1);
      OrIsSum(m, v / 2, s - 1);
    }
  }

  lemma {:induction false} OrZero(x: nat)
    ensures Or(x, 0) == x
  {
    if x > 0 { OrZero(x / 2); }
  }

  lemma NotHalf(w: nat, x: nat)
    requires w > 0 && x < Pow2(w)
    ensures x / 2 < Pow2(w - 1)
    ensures Not(w, x) / 2 == Not(w - 1, x / 2) && Not(w, x) % 2 == 1 - x % 2
  {
    Halve(x);
    Unhalve(Not(w, x), Not(w - 1, x / 2), 1 - x % 2);
  }

  lemma {:induction false} NotMod(w: nat, x: nat, k: nat)
    requires k <= w && x < Pow2(w)
    ensures Not(w, x) % Pow2(k) == Not(k, x % Pow2(k))
    decreases k
  {
    if k > 0 {
      NotHalf(w, x);
      HalfMod(x, k);
      HalfMod(Not(w, x), k);
      NotMod(w - 1, x / 2, k - 1);
    }
  }

  // ---------------------------------------------------------------- the algebra of the operators

  lemma BitwiseHalf(op: Operator, x: nat, y: nat)
    requires !op(false, false)
    ensures Bitwise(op, x, y) / 2 == Bitwise(op, x / 2, y / 2)
    ensures Bitwise(op, x, y) % 2 == One(op(x % 2 == 1, y % 2 == 1))
  {
  }

  lemma {:induction false} Commute(op: Operator, x: nat, y: nat)
    requires forall a, b :: op(a, b) == op(b, a)
    ensures Bitwise(op, x, y) == Bitwise(op, y, x)
    decreases x + y
  {
    if x != 0 || y != 0 { Commute(op, x / 2, y / 2); }
  }

  lemma {:induction false} XorAssociates(x: nat, y: nat, z: nat)
    ensures Xor(Xor(x, y), z) == Xor(x, Xor(y, z))
    decreases x + y + z
  {
    if x + y + z > 0 {
      BitwiseHalf(XOR, x, y);
      BitwiseHalf(XOR, y, z);
      BitwiseHalf(XOR, Xor(x, y), z);
      BitwiseHalf(XOR, x, Xor(y, z));
      XorAssociates(x / 2, y / 2, z / 2);
    }
  }

  lemma XorShuffle(x: nat, y: nat, z: nat)
    ensures Xor(Xor(x, y), z) == Xor(Xor(x, z), y)
  {
    XorAssociates(x, y, z);
    XorAssociates(x, z, y);
    Commute(XOR, y, z);
  }

  lemma {:induction false} XorZero(x: nat)
    ensures Xor(x, 0) == x
  {
    if x > 0 { XorZero(x / 2); }
  }

  lemma {:induction false} XorSelf(x: nat)
    ensures Xor(x, x) == 0
  {
    if x > 0 { XorSelf(x / 2); }
  }

  lemma {:induction false} XorTells(x: nat, y: nat)
    requires Xor(x, y) == 0
    ensures x == y
    decreases x + y
  {
    if x + y > 0 { XorTells(x / 2, y / 2); }
  }
}
