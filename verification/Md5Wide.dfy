/**
 One step of the MD5 code in words of any width from 32 bits up: its low 32 bits are those of the operation
 of RFC 1321, whatever the other bits of the registers and of the input word are.
 */
module Md5Wide {
  import opened Bits
  import opened LittleEndian
  import opened Md5Spec
  import opened Md5Table

  /** The macros F, G, H or H2, and I, in a word of `w` bits. */
  function WideAuxiliary(w: nat, i: nat, x: nat, y: nat, z: nat): nat
    requires z < Pow2(w)
  {
    if i < 16 then Xor(z, And(x, Xor(y, z)))
    else if i < 32 then Xor(y, And(z, Xor(x, y)))
    else if i < 48 then (if i % 2 == 0 then Xor(Xor(x, y), z) else Xor(x, Xor(y, z)))
    else Xor(y, Or(x, Not(w, z)))
  }

  function WideAdd(w: nat, x: nat, y: nat): (r: nat)
    ensures r < Pow2(w)
  {
    (x + y) % Pow2(w)
  }

  /** The rotation of the macro STEP, which clears the high bits before the right shift only. */
  function WideRotate(w: nat, a: nat, s: nat): nat
    requires s <= 32
  {
    Or(ShiftLeft(a, s) % Pow2(w), ShiftRight(And(a, 0xffff_ffff), 32 - s))
  }

  /** The macro STEP: the three assignments to `a`, with `f` already evaluated. */
  function WideTurn(w: nat, a: nat, f: nat, x: nat, t: nat, s: nat, b: nat): (r: nat)
    requires s <= 32
    ensures r < Pow2(w)
  {
    WideAdd(w, WideRotate(w, WideAdd(w, a, f + x + t), s), b)
  }

  /** The new value of the first register in line `i` of the code. */
  function WideStep(w: nat, i: nat, a: nat, b: nat, c: nat, d: nat, x: nat): (r: nat)
    requires i < 64 && d < Pow2(w)
    ensures r < Pow2(w)
  {
    WideTurn(w, a, WideAuxiliary(w, i, b, c, d), x, Constant(i), Amount(i), b)
  }

  function Low(x: nat): (r: nat)
    ensures r < WORD
  {
    x % WORD
  }

  // ---------------------------------------------------------------- bit by bit

  lemma {:induction false} SelectByX(x: nat, y: nat, z: nat, k: nat)
    requires x < Pow2(k) && y < Pow2(k) && z < Pow2(k)
    ensures Xor(z, And(x, Xor(y, z))) == Or(And(x, y), And(Not(k, x), z))
    decreases k
  {
    if k > 0 {
      hide Bitwise, Not;
      BitwiseHalf(XOR, y, z);
      BitwiseHalf(AND, x, Xor(y, z));
      BitwiseHalf(XOR, z, And(x, Xor(y, z)));
      BitwiseHalf(AND, x, y);
      NotHalf(k, x);
      BitwiseHalf(AND, Not(k, x), z);
      BitwiseHalf(OR, And(x, y), And(Not(k, x), z));
      SelectByX(x / 2, y / 2, z / 2, k - 1);
    }
  }

  lemma LowBitwise(op: Operator, x: nat, y: nat)
    requires !op(false, false)
    ensures Low(Bitwise(op, x, y)) == Bitwise(op, Low(x), Low(y))
  {
    Pow2Of32();
    BitwiseMod(op, x, y, 32);
  }

  /** The rewritten F and G, and both forms of H, are those of RFC 1321 in the low 32 bits. */
  lemma LowAuxiliary(w: nat, i: nat, x: nat, y: nat, z: nat)
    requires w >= 32 && z < Pow2(w)
    ensures Low(WideAuxiliary(w, i, x, y, z)) == Auxiliary(i, Low(x), Low(y), Low(z))
  {
    if i < 16 {
      LowF(x, y, z);
    } else if i < 32 {
      LowG(x, y, z);
    } else if i < 48 {
      XorAssociates(x, y, z);
      LowBitwise(XOR, x, y);
      LowBitwise(XOR, Xor(x, y), z);
    } else {
      LowI(w, x, y, z);
    }
  }

  lemma LowF(x: nat, y: nat, z: nat)
    ensures Low(Xor(z, And(x, Xor(y, z)))) == F(Low(x), Low(y), Low(z))
  {
    Pow2Of32();
    LowBitwise(XOR, y, z);
    LowBitwise(AND, x, Xor(y, z));
    LowBitwise(XOR, z, And(x, Xor(y, z)));
    SelectByX(Low(x), Low(y), Low(z), 32);
  }

  lemma LowG(x: nat, y: nat, z: nat)
    ensures Low(Xor(y, And(z, Xor(x, y)))) == G(Low(x), Low(y), Low(z))
  {
    LowF(z, x, y);
    Commute(AND, Low(x), Low(z));
    Commute(AND, Complement(Low(z)), Low(y));
  }

  lemma LowI(w: nat, x: nat, y: nat, z: nat)
    requires w >= 32 && z < Pow2(w)
    ensures Low(Xor(y, Or(x, Not(w, z)))) == I(Low(x), Low(y), Low(z))
  {
    Pow2Of32();
    LowBitwise(XOR, y, Or(x, Not(w, z)));
    LowBitwise(OR, x, Not(w, z));
    NotMod(w, z, 32);
  }

  // ---------------------------------------------------------------- sums and rotation

  lemma LowOfWord(w: nat, x: nat)
    requires w >= 32
    ensures Low(x % Pow2(w)) == Low(x)
  {
    Pow2Of32();
    ModPow2Twice(x, 32, w);
  }

  /** The two halves of a rotation have no bit in common. */
  lemma RotateIsOr(x: nat, s: nat)
    requires s <= 32 && x < WORD
    ensures Rotate(x, s) == Or(ShiftLeft(x, s) % WORD, ShiftRight(x, 32 - s))
  {
    Pow2Of32();
    ShiftMod(x, s, 32 - s);
    ShiftRightBound(x, s, 32 - s);
    OrIsSum(x % Pow2(32 - s), ShiftRight(x, 32 - s), s);
  }

  lemma ShiftRightLess(x: nat, s: nat)
    ensures ShiftRight(x, s) <= x
  {
    AtLeastOnce(ShiftRight(x, s), Pow2(s));
  }

  lemma AtLeastOnce(q: nat, d: nat)
    requires d >= 1
    ensures q * d >= q
  {
  }

  lemma LowShiftLeft(w: nat, a: nat, s: nat)
    requires w >= 32
    ensures Low(ShiftLeft(a, s) % Pow2(w)) == ShiftLeft(Low(a), s) % WORD
  {
    LowOfWord(w, ShiftLeft(a, s));
    ModProduct(a, Pow2(s), WORD);
  }

  lemma LowOfMasked(a: nat)
    ensures And(a, 0xffff_ffff) == Low(a)
  {
    Pow2Of32();
    MaskIsMod(a, 32);
  }

  lemma LowOfOr(left: nat, right: nat)
    requires right < WORD
    ensures Low(Or(left, right)) == Or(Low(left), right)
  {
    LowBitwise(OR, left, right);
  }

  lemma LowRotate(w: nat, a: nat, s: nat)
    requires w >= 32 && s <= 32
    ensures Low(WideRotate(w, a, s)) == Rotate(Low(a), s)
  {
    LowOfMasked(a);
    ShiftRightLess(Low(a), 32 - s);
    LowOfOr(ShiftLeft(a, s) % Pow2(w), ShiftRight(Low(a), 32 - s));
    LowShiftLeft(w, a, s);
    RotateIsOr(Low(a), s);
  }

  lemma LowTurn(w: nat, a: nat, f: nat, x: nat, t: nat, s: nat, b: nat)
    requires w >= 32 && s <= 32
    ensures Low(WideTurn(w, a, f, x, t, s, b)) == Turn(Low(a), Low(f), Low(x), t, s, Low(b))
  {
    var sum := WideAdd(w, a, f + x + t);
    LowAdd(w, a, f + x + t);
    LowSum4(a, f, x, t);
    LowRotate(w, sum, s);
    LowAdd(w, WideRotate(w, sum, s), b);
  }

  /** The whole step: only the low 32 bits of the registers and of the input word matter. */
  lemma LowStep(w: nat, i: nat, a: nat, b: nat, c: nat, d: nat, x: nat, block: seq<Byte>)
    requires w >= 32 && i < 64 && d < Pow2(w) && |block| == 64 && Low(x) == Word(block, Index(i))
    ensures Low(WideStep(w, i, a, b, c, d, x)) == Operation(i, Low(a), Low(b), Low(c), Low(d), block)
  {
    LowAuxiliary(w, i, b, c, d);
    TableIsRight(i);
    LowTurn(w, a, WideAuxiliary(w, i, b, c, d), x, Constant(i), Amount(i), b);
  }

  lemma LowAdd(w: nat, x: nat, y: nat)
    requires w >= 32
    ensures Low(WideAdd(w, x, y)) == (Low(x) + Low(y)) % WORD
  {
    LowOfWord(w, x + y);
    LowSum(x, y);
  }

  lemma LowSum(x: nat, y: nat)
    ensures Low(x + y) == (Low(x) + Low(y)) % WORD
  {
  }

  lemma LowSum4(a: nat, b: nat, c: nat, d: nat)
    ensures (Low(a) + Low(b + c + d)) % WORD == (Low(a) + Low(b) + Low(c) + d) % WORD
  {
  }
}
