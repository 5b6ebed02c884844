/**
 The table-driven CRC-32 and what it must equal: the message fed one bit at a time, the least
 significant bit of each byte first, as section 8 of RFC 1952 defines it.
 */
module Crc32 {
  import opened Bits
  import opened LittleEndian
  import opened Wrappers

  const POLYNOMIAL: nat := 0xEDB8_8320
  const ONES: nat := 0xFFFF_FFFF
  const MB: nat := 1024 * 1024

  /** One step of the division. */
  function Shifted(crc: nat): nat {
    if crc % 2 == 1 then Xor(crc / 2, POLYNOMIAL) else crc / 2
  }

  // ---------------------------------------------------------------- one bit at a time

  /** The register after `n` bits of `bits`, lowest first. */
  function Feed(crc: nat, bits: nat, n: nat): nat
    decreases n
  {
    if n == 0 then crc else Feed(Shifted(Xor(crc, bits % 2)), bits / 2, n - 1)
  }

  function FeedByte(crc: nat, b: Byte): nat { Feed(crc, b, 8) }

  function Register(crc: nat, message: seq<Byte>): nat {
    if message == [] then crc
    else FeedByte(Register(crc, message[..|message| - 1]), message[|message| - 1])
  }

  function Crc(message: seq<Byte>): nat { Xor(Register(ONES, message), ONES) }

  // ---------------------------------------------------------------- eight bits at a time

  /** `n` shifts with no message bit coming in. */
  function Times(z: nat, n: nat): nat
    decreases n
  {
    if n == 0 then z else Times(Shifted(z), n - 1)
  }

  lemma ShiftedIsLinear(x: nat, y: nat)
    ensures Shifted(Xor(x, y)) == Xor(Shifted(x), Shifted(y))
  {
    var h, k, p := x / 2, y / 2, POLYNOMIAL;
    BitwiseHalf(XOR, x, y);
    XorShuffle(h, k, p);
    XorAssociates(h, k, p);
    XorAssociates(Xor(h, p), k, p);
    XorAssociates(Xor(h, k), p, p);
    XorSelf(p);
    XorZero(Xor(h, k));
  }

  lemma LateBits(crc: nat, bits: nat)
    ensures Xor(Shifted(Xor(crc, bits % 2)), bits / 2) == Shifted(Xor(crc, bits))
  {
    BitwiseHalf(XOR, crc, bits);
    BitwiseHalf(XOR, crc, bits % 2);
    XorZero(crc / 2);
    XorShuffle(crc / 2, POLYNOMIAL, bits / 2);
  }

  /** Message bits may all be put in before the first shift. */
  lemma {:induction false} FeedUpFront(crc: nat, bits: nat, n: nat)
    requires bits < Pow2(n)
    ensures Feed(crc, bits, n) == Times(Xor(crc, bits), n)
    decreases n
  {
    if n == 0 {
      XorZero(crc);
    } else {
      LateBits(crc, bits);
      FeedUpFront(Shifted(Xor(crc, bits % 2)), bits / 2, n - 1);
    }
  }

  lemma {:induction false} TimesIsLinear(x: nat, y: nat, n: nat)
    ensures Times(Xor(x, y), n) == Xor(Times(x, n), Times(y, n))
    decreases n
  {
    if n > 0 {
      ShiftedIsLinear(x, y);
      TimesIsLinear(Shifted(x), Shifted(y), n - 1);
    }
  }

  lemma ShiftRightOnce(z: nat, n: nat)
    requires n > 0
    ensures ShiftRight(z, n) == ShiftRight(z / 2, n - 1)
  {
    var m := Pow2(n - 1);
    var q, r := z / 2 / m, z / 2 % m;
    Split(z / 2, m);
    Halve(z);
    DoubleProduct(q, m);
    DivModUnique(z, 2 * m, q, 2 * r + z % 2);
  }

  /** The bits above the lowest `n` only move. */
  lemma {:induction false} HighBitsMove(z: nat, n: nat)
    ensures Times(z, n) == Xor(ShiftRight(z, n), Times(z % Pow2(n), n))
    decreases n
  {
    if n == 0 {
      assert ShiftRight(z, 0) == z;
      XorZero(z);
    } else {
      var h, r := z / 2, (z / 2) % Pow2(n - 1);
      ShiftRightOnce(z, n);
      HalfMod(z, n);
      HighBitsMove(h, n - 1);
      TimesIsLinear(h, POLYNOMIAL, n - 1);
      TimesIsLinear(r, POLYNOMIAL, n - 1);
      XorAssociates(ShiftRight(h, n - 1), Times(r, n - 1), Times(POLYNOMIAL, n - 1));
    }
  }

  lemma HighBitsOfXor(crc: nat, b: nat, n: nat)
    requires b < Pow2(n)
    ensures ShiftRight(Xor(crc, b), n) == ShiftRight(crc, n)
    decreases n
  {
    if n == 0 {
      XorZero(crc);
    } else {
      BitwiseHalf(XOR, crc, b);
      ShiftRightOnce(crc, n);
      ShiftRightOnce(Xor(crc, b), n);
      HighBitsOfXor(crc / 2, b / 2, n - 1);
    }
  }

  /** One table look-up does the work of `n` shifts. */
  lemma ManyAtATime(crc: nat, b: nat, n: nat)
    requires b < Pow2(n)
    ensures Feed(crc, b, n) == Xor(ShiftRight(crc, n), Times(And(Xor(crc, b), Pow2(n) - 1), n))
  {
    FeedUpFront(crc, b, n);
    HighBitsMove(Xor(crc, b), n);
    HighBitsOfXor(crc, b, n);
    MaskIsMod(Xor(crc, b), n);
  }

  lemma ByteWidth()
    ensures Pow2(8) == 256
  {
  }

  lemma MaskedIsByte(x: nat)
    ensures And(x, 0xFF) < 256
  {
    ByteWidth();
    MaskIsMod(x, 8);
  }

  lemma OneMoreTime(z: nat, n: nat)
    ensures Times(z, n + 1) == Times(Shifted(z), n)
  {
  }

  lemma NoTime(z: nat)
    ensures Times(z, 0) == z
  {
  }

  /** An entry of the table. */
  method Entry(i: nat) returns (crc: nat)
    ensures crc == Times(i, 8)
  {
    hide Times, Xor;
    crc := i;
    for j := 0 to 8
      invariant Times(crc, 8 - j) == Times(i, 8)
    {
      OneMoreTime(crc, 7 - j);
      crc := if crc % 2 != 0 then Xor(crc / 2, POLYNOMIAL) else crc / 2;
    }
    NoTime(crc);
  }

  // ---------------------------------------------------------------- reads

  function Least(a: nat, b: nat): nat { if a < b then a else b }

  /** What a read returns when the stream offers it `offer` bytes: never more than is asked for or is there. */
  function Got(available: nat, size: nat, total: nat, offer: nat): nat
    requires total <= size && total <= available
  {
    Least(offer, Least(Least(size - total, MB), available - total))
  }

  /** The bytes that these reads bring. */
  function Fetched(available: nat, size: nat, offers: seq<nat>): (n: nat)
    ensures n <= size && n <= available
  {
    if offers == [] then 0
    else
      var total := Fetched(available, size, offers[..|offers| - 1]);
      total + Got(available, size, total, offers[|offers| - 1])
  }

  lemma {:induction false} FetchedStays(available: nat, size: nat, offers: seq<nat>, next: nat)
    requires next <= |offers| && (next == |offers| || Fetched(available, size, offers[..next]) == size)
    ensures Fetched(available, size, offers) == Fetched(available, size, offers[..next])
  {
    if next < |offers| {
      var n := |offers| - 1;
      assert offers[..n][..next] == offers[..next];
      FetchedStays(available, size, offers[..n], next);
    } else {
      assert offers[..next] == offers;
    }
  }

  /** As many non-empty reads as there are bytes are always enough, if the stream holds them. */
  lemma {:induction false} NonEmptyReadsFetch(available: nat, size: nat, offers: seq<nat>)
    requires size <= available && forall i | 0 <= i < |offers| :: offers[i] > 0
    ensures Fetched(available, size, offers) >= Least(size, |offers|)
  {
    if offers != [] { NonEmptyReadsFetch(available, size, offers[..|offers| - 1]); }
  }

  /** The loop can end exactly when the stream holds enough bytes; on a shorter one it reads forever. */
  lemma StreamEnds(available: nat, size: nat)
    ensures (exists offers :: Fetched(available, size, offers) == size) <==> size <= available
  {
    if size <= available {
      var offers := seq(size, _ => 1);
      NonEmptyReadsFetch(available, size, offers);
      assert Fetched(available, size, offers) == size;
    }
  }

  class Calculator {
    const table: array<nat>

    ghost predicate Valid()
      reads table
    {
      table.Length == 256 && forall i: nat :: i < 256 ==> table[i] == Times(i, 8)
    }

    constructor ()
      ensures Valid() && fresh(table)
    {
      table := new nat[256];
      new;
      hide Times;
      GenerateTable();
    }

    method GenerateTable()
      requires table.Length == 256
      modifies table
      ensures Valid()
    {
      hide Times;
      for i := 0 to 256
        invariant forall k: nat :: k < i ==> table[k] == Times(k, 8)
      {
        var entry := Entry(i);
        table[i] := entry;
      }
    }

    method Advance(crc: nat, b: Byte) returns (next: nat)
      requires Valid()
      ensures next == FeedByte(crc, b)
    {
      var index := And(Xor(crc, b), 0xFF);
      MaskedIsByte(Xor(crc, b));
      next := Xor(ShiftRight(crc, 8), table[index]);
      ByteWidth();
      ManyAtATime(crc, b, 8);
    }

    method Calculate(buffer: seq<Byte>) returns (crc: nat)
      requires Valid()
      ensures crc == Crc(buffer)
    {
      hide FeedByte, Valid;
      crc := ONES;
      for i := 0 to |buffer|
        invariant crc == Register(ONES, buffer[..i])
      {
        assert buffer[..i + 1][..i] == buffer[..i];
        crc := Advance(crc, buffer[i]);
      }
      assert buffer[..|buffer|] == buffer;
      crc := Xor(crc, ONES);
    }

    /** The loop, for as long as reads are given: no checksum if it is still reading after all of them. */
    method CalculateStream(stream: seq<Byte>, size: nat, offers: seq<nat>) returns (crc: Option<nat>)
      requires Valid()
      ensures crc.Some? <==> Fetched(|stream|, size, offers) == size
      ensures crc.Some? ==> size <= |stream| && crc.value == Crc(stream[..size])
    {
      hide FeedByte, Valid;
      var register, total, next := ONES, 0, 0;
      assert offers[..0] == [];
      while total < size && next < |offers|
        invariant total <= size && total <= |stream| && next <= |offers|
        invariant total == Fetched(|stream|, size, offers[..next])
        invariant register == Register(ONES, stream[..total])
      {
        var got := Got(|stream|, size, total, offers[next]);
        for i := 0 to got
          invariant register == Register(ONES, stream[..total + i])
        {
          assert stream[..total + i + 1][..total + i] == stream[..total + i];
          register := Advance(register, stream[total + i]);
        }
        assert offers[..next + 1][..next] == offers[..next];
        total, next := total + got, next + 1;
      }
      FetchedStays(|stream|, size, offers, next);
      crc := if total == size then Some(Xor(register, ONES)) else None;
    }
  }

  method CrcOnBuffer(buffer: seq<Byte>) returns (crc: nat)
    ensures crc == Crc(buffer)
  {
    var calculator := new Calculator();
    crc := calculator.Calculate(buffer);
  }

  method CrcOnStream(stream: seq<Byte>, size: nat, offers: seq<nat>) returns (crc: Option<nat>)
    ensures crc.Some? <==> Fetched(|stream|, size, offers) == size
    ensures crc.Some? ==> size <= |stream| && crc.value == Crc(stream[..size])
  {
    var calculator := new Calculator();
    crc := calculator.CalculateStream(stream, size, offers);
  }

  // ---------------------------------------------------------------- what the checksum is for

  lemma ShiftedFits(z: nat)
    requires z < WORD
    ensures Shifted(z) < WORD
  {
    Pow2Of32();
    BitwiseBound(XOR, z / 2, POLYNOMIAL, 32);
  }

  /** The polynomial has the highest bit, which no half has, so no bit is ever lost. */
  lemma {:induction false} NothingIsLost(z: nat, n: nat)
    requires z < WORD && Times(z, n) == 0
    ensures z == 0
    decreases n
  {
    if n > 0 {
      ShiftedFits(z);
      NothingIsLost(Shifted(z), n - 1);
      if z % 2 == 1 { XorTells(z / 2, POLYNOMIAL); }
    }
  }

  lemma TimesIsOneToOne(x: nat, y: nat, n: nat)
    requires x < WORD && y < WORD && Times(x, n) == Times(y, n)
    ensures x == y
  {
    Pow2Of32();
    BitwiseBound(XOR, x, y, 32);
    TimesIsLinear(x, y, n);
    XorSelf(Times(x, n));
    NothingIsLost(Xor(x, y), n);
    XorTells(x, y);
  }

  lemma {:induction false} TimesFits(z: nat, n: nat)
    requires z < WORD
    ensures Times(z, n) < WORD
    decreases n
  {
    if n > 0 {
      ShiftedFits(z);
      TimesFits(Shifted(z), n - 1);
    }
  }

  lemma XorFits(x: nat, y: nat)
    requires x < WORD && y < WORD
    ensures Xor(x, y) < WORD
  {
    Pow2Of32();
    BitwiseBound(XOR, x, y, 32);
  }

  lemma XorIsOneToOne(x: nat, y: nat, z: nat)
    requires Xor(x, z) == Xor(y, z)
    ensures x == y
  {
    XorAssociates(x, z, z);
    XorAssociates(y, z, z);
    XorSelf(z);
    XorZero(x);
    XorZero(y);
  }

  lemma FeedByteIsTimes(crc: nat, b: Byte)
    requires crc < WORD
    ensures FeedByte(crc, b) == Times(Xor(crc, b), 8) < WORD && Xor(crc, b) < WORD
  {
    ByteWidth();
    FeedUpFront(crc, b, 8);
    XorFits(crc, b);
    TimesFits(Xor(crc, b), 8);
  }

  /** Different registers stay different. */
  lemma FeedByteTells(x: nat, y: nat, b: Byte)
    requires x < WORD && y < WORD && FeedByte(x, b) == FeedByte(y, b)
    ensures x == y
  {
    FeedByteIsTimes(x, b);
    FeedByteIsTimes(y, b);
    TimesIsOneToOne(Xor(x, b), Xor(y, b), 8);
    XorIsOneToOne(x, y, b);
  }

  lemma {:induction false} RegisterFits(crc: nat, message: seq<Byte>)
    requires crc < WORD
    ensures Register(crc, message) < WORD
  {
    if message != [] {
      RegisterFits(crc, message[..|message| - 1]);
      FeedByteIsTimes(Register(crc, message[..|message| - 1]), message[|message| - 1]);
    }
  }

  lemma {:induction false} RegisterTells(x: nat, y: nat, tail: seq<Byte>)
    requires x < WORD && y < WORD && Register(x, tail) == Register(y, tail)
    ensures x == y
  {
    if tail != [] {
      var rest, b := tail[..|tail| - 1], tail[|tail| - 1];
      RegisterFits(x, rest);
      RegisterFits(y, rest);
      FeedByteTells(Register(x, rest), Register(y, rest), b);
      RegisterTells(x, y, rest);
    }
  }

  lemma {:induction false} RegisterConcat(crc: nat, a: seq<Byte>, b: seq<Byte>)
    ensures Register(crc, a + b) == Register(Register(crc, a), b)
  {
    hide FeedByte;
    if b == [] {
      assert a + b == a;
    } else {
      var n := |b| - 1;
      assert (a + b)[..|a| + n] == a + b[..n];
      RegisterConcat(crc, a, b[..n]);
    }
  }

  // ---------------------------------------------------------------- bursts

  lemma {:induction false} FeedSplits(crc: nat, bits: nat, n: nat, m: nat)
    ensures Feed(crc, bits, n + m) == Feed(Feed(crc, bits, n), ShiftRight(bits, n), m)
    decreases n
  {
    hide Shifted, Xor, ShiftRight;
    if n == 0 {
      NoShift(bits);
    } else {
      ShiftRightOnce(bits, n);
      FeedSplits(Shifted(Xor(crc, bits % 2)), bits / 2, n - 1, m);
    }
  }

  lemma NoShift(bits: nat)
    ensures ShiftRight(bits, 0) == bits
  {
  }

  /** Only the low bits are fed. */
  lemma {:induction false} FeedLow(crc: nat, bits: nat, n: nat)
    ensures Feed(crc, bits, n) == Feed(crc, bits % Pow2(n), n)
    decreases n
  {
    hide Shifted, Xor;
    if n > 0 {
      HalfMod(bits, n);
      FeedLow(Shifted(Xor(crc, bits % 2)), bits / 2, n - 1);
    }
  }

  lemma NextByte(crc: nat, bits: nat, m: nat, b: Byte)
    requires bits % 0x100 == b
    ensures Feed(crc, bits, 8 + m) == Feed(FeedByte(crc, b), bits / 0x100, m)
  {
    hide Feed;
    ByteWidth();
    FeedSplits(crc, bits, 8, m);
    FeedLow(crc, bits, 8);
    assert ShiftRight(bits, 8) == bits / 0x100;
  }

  lemma LastByte(crc: nat, bits: nat, b: Byte)
    requires bits % 0x100 == b
    ensures Feed(crc, bits, 8) == FeedByte(crc, b)
  {
    hide Feed;
    ByteWidth();
    FeedLow(crc, bits, 8);
  }

  lemma RegisterOne(crc: nat, m: seq<Byte>, b: Byte)
    ensures Register(crc, m + [b]) == FeedByte(Register(crc, m), b)
  {
    hide FeedByte;
    assert (m + [b])[..|m|] == m;
  }

  lemma RegisterFour(crc: nat, x: seq<Byte>)
    requires |x| == 4
    ensures Register(crc, x) == FeedByte(FeedByte(FeedByte(FeedByte(crc, x[0]), x[1]), x[2]), x[3])
  {
    hide FeedByte, Register;
    RegisterNone(crc);
    RegisterOne(crc, [], x[0]);
    RegisterOne(crc, [x[0]], x[1]);
    RegisterOne(crc, [x[0], x[1]], x[2]);
    RegisterOne(crc, [x[0], x[1], x[2]], x[3]);
    assert [] + [x[0]] == [x[0]] && [x[0]] + [x[1]] == [x[0], x[1]];
    assert [x[0], x[1]] + [x[2]] == [x[0], x[1], x[2]] && [x[0], x[1], x[2]] + [x[3]] == x;
  }

  lemma RegisterNone(crc: nat)
    ensures Register(crc, []) == crc
  {
  }

  /** Four bytes are fed as one word of 32 bits. */
  lemma FourAtOnce(crc: nat, x: seq<Byte>)
    requires |x| == 4
    ensures Register(crc, x) == Feed(crc, Word(x, 0), 32)
  {
    hide Feed, FeedByte, Register, Word;
    var w := Word(x, 0);
    WrittenRead(x, 0);
    assert Bytes4(w) == x[0..4] == x;
    DigitsAgree(w);
    NextByte(crc, w, 24, x[0]);
    var c := FeedByte(crc, x[0]);
    NextByte(c, w / 0x100, 16, x[1]);
    c := FeedByte(c, x[1]);
    NextByte(c, w / 0x100 / 0x100, 8, x[2]);
    c := FeedByte(c, x[2]);
    LastByte(c, w / 0x100 / 0x100 / 0x100, x[3]);
    RegisterFour(crc, x);
  }

  lemma FourBytesTell(crc: nat, x: seq<Byte>, y: seq<Byte>)
    requires crc < WORD && |x| == |y| == 4 && Register(crc, x) == Register(crc, y)
    ensures x == y
  {
    hide Feed, Register, Times, Xor, Word;
    var v, w := Word(x, 0), Word(y, 0);
    FourAtOnce(crc, x);
    FourAtOnce(crc, y);
    Pow2Of32();
    FeedUpFront(crc, v, 32);
    FeedUpFront(crc, w, 32);
    XorFits(crc, v);
    XorFits(crc, w);
    TimesIsOneToOne(Xor(crc, v), Xor(crc, w), 32);
    XorIsOneToOneRight(crc, v, w);
    WrittenRead(x, 0);
    WrittenRead(y, 0);
    assert x[0..4] == x && y[0..4] == y;
  }

  lemma XorIsOneToOneRight(z: nat, x: nat, y: nat)
    requires Xor(z, x) == Xor(z, y)
    ensures x == y
  {
    Commute(XOR, z, x);
    Commute(XOR, z, y);
    XorIsOneToOne(x, y, z);
  }

  /** Messages that differ only within four bytes in a row always have different checksums. */
  lemma BurstIsSeen(head: seq<Byte>, x: seq<Byte>, y: seq<Byte>, tail: seq<Byte>)
    requires |x| == |y| == 4
    ensures Crc(head + x + tail) == Crc(head + y + tail) ==> x == y
  {
    hide Register, Xor;
    var r := Register(ONES, head);
    RegisterConcat(ONES, head + x, tail);
    RegisterConcat(ONES, head + y, tail);
    RegisterConcat(ONES, head, x);
    RegisterConcat(ONES, head, y);
    RegisterFits(ONES, head);
    RegisterFits(r, x);
    RegisterFits(r, y);
    if Crc(head + x + tail) == Crc(head + y + tail) {
      XorIsOneToOne(Register(ONES, head + x + tail), Register(ONES, head + y + tail), ONES);
      RegisterTells(Register(r, x), Register(r, y), tail);
      FourBytesTell(r, x, y);
    }
  }
}
