/**
 The CRC-32 of a message followed by its own checksum is the same number for every message. The number is computed on
 bit-vectors, whose value is then read bit by bit; it is the residue of the CRC-32 polynomial and of no other.
 */
module Crc32Residue {
  import opened Bits
  import opened LittleEndian
  import opened Wrappers
  import opened Crc32

  const RESIDUE: nat := 0x2144_DF1C

  // ---------------------------------------------------------------- words as bit-vectors

  function Low(b: bv32): bool { b & 1 == 1 }

  function Half(b: bv32): bv32 { b >> 1 }

  function Both(x: bv32, y: bv32): bv32 { x ^ y }

  /** The value of the lowest `n` bits. */
  function Value(b: bv32, n: nat): nat
    decreases n
  {
    if n == 0 then 0 else 2 * Value(Half(b), n - 1) + One(Low(b))
  }

  lemma BothBits(x: bv32, y: bv32)
    ensures Half(Both(x, y)) == Both(Half(x), Half(y)) && (Low(Both(x, y)) <==> Low(x) != Low(y))
  {
  }

  lemma {:induction false} ValueOfBoth(x: bv32, y: bv32, n: nat)
    ensures Value(Both(x, y), n) == Xor(Value(x, n), Value(y, n))
    decreases n
  {
    hide Low, Half, Both, Bitwise;
    if n == 0 {
      XorSelf(0);
    } else {
      BothBits(x, y);
      ValueOfBoth(Half(x), Half(y), n - 1);
      var a, b := Value(x, n), Value(y, n);
      Unhalve(a, Value(Half(x), n - 1), One(Low(x)));
      Unhalve(b, Value(Half(y), n - 1), One(Low(y)));
      BitwiseHalf(XOR, a, b);
      Halve(Xor(a, b));
    }
  }

  /** No bit is left after `n` shifts. */
  predicate Fits(b: bv32, n: nat)
    decreases n
  {
    if n == 0 then b == 0 else Fits(Half(b), n - 1)
  }

  lemma {:induction false} OneMoreBit(b: bv32, n: nat)
    requires Fits(b, n)
    ensures Value(b, n + 1) == Value(b, n)
    decreases n
  {
    if n > 0 { OneMoreBit(Half(b), n - 1); }
  }

  /** One hexadecimal digit at a time. */
  function Digit(b: bv32): nat {
    8 * One(b & 8 == 8) + 4 * One(b & 4 == 4) + 2 * One(b & 2 == 2) + One(b & 1 == 1)
  }

  function Next(b: bv32): bv32 { b >> 4 }

  lemma FourBits(b: bv32)
    ensures Half(Half(Half(Half(b)))) == Next(b)
    ensures (Low(Half(b)) <==> b & 2 == 2) && (Low(Half(Half(b))) <==> b & 4 == 4)
    ensures Low(Half(Half(Half(b)))) <==> b & 8 == 8
  {
  }

  lemma NextDigit(b: bv32, n: nat)
    ensures Value(b, n + 4) == 16 * Value(Next(b), n) + Digit(b)
  {
    FourBits(b);
    hide Half, Next;
    assert Value(b, n + 4) == 2 * Value(Half(b), n + 3) + One(Low(b));
    assert Value(Half(b), n + 3) == 2 * Value(Half(Half(b)), n + 2) + One(Low(Half(b)));
    assert Value(Half(Half(b)), n + 2) == 2 * Value(Half(Half(Half(b))), n + 1) + One(Low(Half(Half(b))));
  }

  /** Four digits. */
  function Quad(b: bv32): nat {
    Digit(b) + 0x10 * Digit(Next(b)) + 0x100 * Digit(Next(Next(b))) + 0x1000 * Digit(Next(Next(Next(b))))
  }

  function Skip(b: bv32): bv32 { Next(Next(Next(Next(b)))) }

  function Hex(b: bv32): nat { Quad(b) + 0x1_0000 * Quad(Skip(b)) }

  lemma NextQuad(b: bv32, n: nat)
    ensures Value(b, n + 16) == 0x1_0000 * Value(Skip(b), n) + Quad(b)
  {
    hide Value, Digit, Next;
    NextDigit(b, n + 12);
    NextDigit(Next(b), n + 8);
    NextDigit(Next(Next(b)), n + 4);
    NextDigit(Next(Next(Next(b))), n);
  }

  lemma ValueIsHex(b: bv32, n: nat)
    requires n == 32
    ensures Value(b, n) == Hex(b)
  {
    hide Value, Quad, Skip;
    NextQuad(b, n - 16);
    NextQuad(Skip(b), n - 32);
    NoDigits(Skip(Skip(b)));
  }

  lemma NoDigits(b: bv32)
    ensures Value(b, 0) == 0
  {
  }

  lemma FitsNext(b: bv32, n: nat)
    requires Fits(Next(b), n)
    ensures Fits(b, n + 4)
  {
    FourBits(b);
    hide Half, Next;
    assert Fits(Half(Half(Half(b))), n + 1);
    assert Fits(Half(Half(b)), n + 2);
    assert Fits(Half(b), n + 3);
  }

  lemma TopFits(b: bv32)
    ensures Fits(Next(Next(Next(Skip(Half(b))))), 3)
  {
    var c := Next(Next(Next(Skip(Half(b)))));
    assert Half(Half(Half(c))) == 0;
    assert Fits(Half(Half(Half(c))), 0);
    assert Fits(Half(Half(c)), 1);
    assert Fits(Half(c), 2);
  }

  lemma HalfFits(b: bv32, n: nat)
    requires n == 31
    ensures Fits(Half(b), n)
  {
    TopFits(b);
    var c := Half(b);
    hide Half, Next, Fits;
    FitsNext(Next(Next(Skip(c))), n - 28);
    FitsNext(Next(Skip(c)), n - 24);
    FitsNext(Skip(c), n - 20);
    FitsNext(Next(Next(Next(c))), n - 16);
    FitsNext(Next(Next(c)), n - 12);
    FitsNext(Next(c), n - 8);
    FitsNext(c, n - 4);
  }

  lemma ValueOfHalf(b: bv32, n: nat)
    requires n == 32
    ensures Value(Half(b), n) == Value(b, n) / 2 && (Low(b) <==> Value(b, n) % 2 == 1)
  {
    HalfFits(b, n - 1);
    hide Half, Low, Fits;
    OneMoreBit(Half(b), n - 1);
    Unhalve(Value(b, n), Value(Half(b), n - 1), One(Low(b)));
  }

  lemma HexOnes()
    ensures Hex(0xFFFF_FFFF) == ONES
  {
  }

  lemma HexPolynomial()
    ensures Hex(0xEDB8_8320) == POLYNOMIAL
  {
  }

  lemma HexRest()
    ensures Hex(0xDEBB_20E3) == 0xDEBB_20E3
  {
  }

  lemma HexResidue()
    ensures Hex(0x2144_DF1C) == RESIDUE
  {
  }

  lemma HexEighth()
    ensures Hex(0x2DFD_1072) == 0x2DFD_1072
  {
  }

  lemma HexZeroByte()
    ensures Hex(0xD202_EF8D) == 0xD202_EF8D
  {
  }

  lemma Literals()
    ensures Hex(0xFFFF_FFFF) == ONES && Hex(0xEDB8_8320) == POLYNOMIAL
    ensures Hex(0xDEBB_20E3) == 0xDEBB_20E3 && Hex(0x2144_DF1C) == RESIDUE
    ensures Hex(0x2DFD_1072) == 0x2DFD_1072 && Hex(0xD202_EF8D) == 0xD202_EF8D
  {
    hide Hex;
    HexOnes();
    HexPolynomial();
    HexRest();
    HexResidue();
    HexEighth();
    HexZeroByte();
  }

  // ---------------------------------------------------------------- the shifts

  function Shift(b: bv32): bv32 { if Low(b) then Both(Half(b), 0xEDB8_8320) else Half(b) }

  function Shifts(b: bv32, n: nat): bv32
    decreases n
  {
    if n == 0 then b else Shifts(Shift(b), n - 1)
  }

  lemma ValueOfShift(b: bv32, n: nat)
    requires n == 32
    ensures Value(Shift(b), n) == Shifted(Value(b, n))
  {
    Literals();
    hide Half, Low, Both, Value, Hex, Xor;
    ValueOfHalf(b, n);
    ValueOfBoth(Half(b), 0xEDB8_8320, n);
    ValueIsHex(0xEDB8_8320, n);
  }

  lemma {:induction false} ValueOfShifts(b: bv32, k: nat, n: nat)
    requires n == 32
    ensures Value(Shifts(b, k), n) == Times(Value(b, n), k)
    decreases k
  {
    hide Value, Shift, Shifted;
    if k > 0 {
      ValueOfShift(b, n);
      ValueOfShifts(Shift(b), k - 1, n);
    }
  }

  lemma {:induction false} ShiftsConcat(b: bv32, j: nat, k: nat)
    ensures Shifts(b, j + k) == Shifts(Shifts(b, j), k)
    decreases j
  {
    hide Shift;
    if j > 0 { ShiftsConcat(Shift(b), j - 1, k); }
  }

  lemma FirstEight()
    ensures Shifts(0xFFFF_FFFF, 8) == 0x2DFD_1072
  {
  }

  lemma NextEight()
    ensures Shifts(0x2DFD_1072, 8) == 0xBE26_ED00 && Shifts(0xBE26_ED00, 8) == 0x00BE_26ED
  {
  }

  lemma LastEight()
    ensures Shifts(0x00BE_26ED, 8) == 0xDEBB_20E3
  {
  }

  /** Thirty-two shifts of all ones. */
  lemma OnesShifted(n: nat)
    requires n == 32
    ensures Times(ONES, n) == 0xDEBB_20E3
  {
    hide Shifts;
    FirstEight();
    NextEight();
    LastEight();
    ShiftsConcat(0xFFFF_FFFF, 8, 8);
    ShiftsConcat(0xFFFF_FFFF, 16, 8);
    ShiftsConcat(0xFFFF_FFFF, 24, 8);
    Literals();
    hide Value, Hex, Times;
    ValueIsHex(0xFFFF_FFFF, n);
    ValueIsHex(0xDEBB_20E3, n);
    ValueOfShifts(0xFFFF_FFFF, n, n);
  }

  lemma FlippedIs(b: bv32, c: bv32, n: nat)
    requires n == 32 && Both(b, 0xFFFF_FFFF) == c
    ensures Xor(Hex(b), Hex(0xFFFF_FFFF)) == Hex(c)
  {
    hide Value, Hex, Both, Xor;
    ValueIsHex(b, n);
    ValueIsHex(0xFFFF_FFFF, n);
    ValueIsHex(c, n);
    ValueOfBoth(b, 0xFFFF_FFFF, n);
  }

  lemma Flipped(n: nat)
    requires n == 32
    ensures Xor(0xDEBB_20E3, ONES) == RESIDUE && Xor(0x2DFD_1072, ONES) == 0xD202_EF8D
  {
    Literals();
    hide Hex, Xor;
    FlippedIs(0xDEBB_20E3, 0x2144_DF1C, n);
    FlippedIs(0x2DFD_1072, 0xD202_EF8D, n);
  }

  // ---------------------------------------------------------------- the residue

  /** Feeding a register its own flipped contents leaves what all ones leave. */
  lemma OwnChecksum(r: nat, n: nat)
    requires r < WORD && n == 32
    ensures Register(r, Bytes4(Xor(r, ONES))) == Times(ONES, n)
  {
    hide Register, Feed, Times, Xor, Bytes4, Word;
    var x := Xor(r, ONES);
    XorFits(r, ONES);
    ReadWritten(x);
    FourAtOnce(r, Bytes4(x));
    Pow2Of32();
    FeedUpFront(r, x, n);
    XorBack(r, ONES);
  }

  lemma XorBack(r: nat, y: nat)
    ensures Xor(r, Xor(r, y)) == y
  {
    XorAssociates(r, r, y);
    XorSelf(r);
    Commute(XOR, 0, y);
    XorZero(y);
  }

  /** The checksum of a message with its own checksum behind it is the residue of CRC-32, whatever the message. */
  lemma ResidueIsConstant(m: seq<Byte>)
    ensures Crc(m + Bytes4(Crc(m))) == RESIDUE
  {
    hide Register, Times, Xor, Bytes4;
    RegisterFits(ONES, m);
    RegisterConcat(ONES, m, Bytes4(Crc(m)));
    OwnChecksum(Register(ONES, m), 32);
    OnesShifted(32);
    Flipped(32);
  }

  lemma ZeroByte(n: nat)
    requires n == 32
    ensures Crc([0]) == 0xD202_EF8D
  {
    hide Feed, Times, Xor, Value, Hex, Shifts;
    assert [0][..0] == [];
    FeedByteIsTimes(ONES, 0);
    XorZero(ONES);
    FirstEight();
    Literals();
    ValueIsHex(0xFFFF_FFFF, n);
    ValueIsHex(0x2DFD_1072, n);
    ValueOfShifts(0xFFFF_FFFF, 8, n);
    Flipped(n);
  }

  /** The checksum of a single zero byte. */
  lemma ChecksumOfZeroByte()
    ensures Crc([0]) == 0xD202_EF8D
  {
    hide Crc;
    ZeroByte(32);
  }
}
