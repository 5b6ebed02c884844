/**
 Bytes and 32-bit words, the least significant byte first.
 */
module LittleEndian {
  import opened Bits

  type Byte = b: nat | b < 256

  const WORD: nat := 0x1_0000_0000

  lemma Pow2Of32()
    ensures Pow2(32) == WORD && Pow2(29) == 0x2000_0000
  {
    assert Pow2(8) == 256;
    Pow2Sum(8, 8);
    Pow2Sum(16, 16);
    assert Pow2(32) == 8 * Pow2(29);
  }

  /** Word number `n` of a block. */
  function Word(block: seq<Byte>, n: nat): (x: nat)
    requires 4 * n + 4 <= |block|
    ensures x < WORD
  {
    var b0, b1 := block[4 * n] as nat, block[4 * n + 1] as nat;
    var b2, b3 := block[4 * n + 2] as nat, block[4 * n + 3] as nat;
    b0 + 0x100 * b1 + 0x1_0000 * b2 + 0x100_0000 * b3
  }

  function Bytes4(x: nat): (r: seq<Byte>)
    ensures |r| == 4
  {
    [x % 0x100, x / 0x100 % 0x100, x / 0x1_0000 % 0x100, x / 0x100_0000 % 0x100]
  }

  /** A word from its four bytes, and the bytes from the word. */
  lemma FourBytes(x: nat, b0: Byte, b1: Byte, b2: Byte, b3: Byte)
    requires x == b0 + 0x100 * b1 + 0x1_0000 * b2 + 0x100_0000 * b3
    ensures Bytes4(x) == [b0, b1, b2, b3]
  {
    DivModUnique(x, 0x100, b1 + 0x100 * b2 + 0x1_0000 * b3, b0);
    DivModUnique(x, 0x1_0000, b2 + 0x100 * b3, b0 + 0x100 * b1);
    DivModUnique(x, 0x100_0000, b3, b0 + 0x100 * b1 + 0x1_0000 * b2);
    DivModUnique(b1 + 0x100 * b2 + 0x1_0000 * b3, 0x100, b2 + 0x100 * b3, b1);
    DivModUnique(b2 + 0x100 * b3, 0x100, b3, b2);
  }

  /** Reading four bytes and writing them back. */
  lemma WrittenRead(block: seq<Byte>, n: nat)
    requires 4 * n + 4 <= |block|
    ensures Bytes4(Word(block, n)) == block[4 * n..4 * n + 4]
  {
    FourBytes(Word(block, n), block[4 * n], block[4 * n + 1], block[4 * n + 2], block[4 * n + 3]);
    assert block[4 * n..4 * n + 4] == [block[4 * n], block[4 * n + 1], block[4 * n + 2], block[4 * n + 3]];
  }

  lemma Digit(x: nat, q: nat)
    requires q == x / 0x100
    ensures x == 0x100 * q + x % 0x100
  {
  }

  lemma DigitsAgree(x: nat)
    ensures x / 0x100 / 0x100 == x / 0x1_0000 && x / 0x1_0000 / 0x100 == x / 0x100_0000
  {
  }

  /** Writing a word and reading it back. */
  lemma ReadWritten(x: nat)
    requires x < WORD
    ensures Word(Bytes4(x), 0) == x
  {
    Digit(x, x / 0x100);
    Digit(x / 0x100, x / 0x1_0000);
    Digit(x / 0x1_0000, x / 0x100_0000);
    DigitsAgree(x);
    assert x / 0x100_0000 < 0x100;
  }

  // ---------------------------------------------------------------- bytes within bytes

  function Flatten(chunks: seq<seq<Byte>>): seq<Byte> {
    if chunks == [] then [] else Flatten(chunks[..|chunks| - 1]) + chunks[|chunks| - 1]
  }

  /** `part` stands in `bytes` from `at` on. */
  predicate Stands(bytes: seq<Byte>, at: nat, part: seq<Byte>) {
    at + |part| <= |bytes| && bytes[at..at + |part|] == part
  }

  lemma StandsSplit(bytes: seq<Byte>, at: nat, x: seq<Byte>, y: seq<Byte>)
    ensures Stands(bytes, at, x + y) <==> Stands(bytes, at, x) && Stands(bytes, at + |x|, y)
  {
    if at + |x| + |y| <= |bytes| {
      var slice := bytes[at..at + |x + y|];
      assert slice[..|x|] == bytes[at..at + |x|] && slice[|x|..] == bytes[at + |x|..at + |x| + |y|];
      assert (x + y)[..|x|] == x && (x + y)[|x|..] == y;
      assert slice == slice[..|x|] + slice[|x|..];
    }
  }

  /** The word that starts at `at`. */
  function Field(bytes: seq<Byte>, at: nat): (x: nat)
    requires at + 4 <= |bytes|
    ensures x < WORD
  {
    Word(bytes[at..at + 4], 0)
  }

  lemma FieldStands(bytes: seq<Byte>, at: nat, x: nat)
    requires x < WORD
    ensures Stands(bytes, at, Bytes4(x)) <==> at + 4 <= |bytes| && Field(bytes, at) == x
  {
    ReadWritten(x);
    if at + 4 <= |bytes| {
      WrittenRead(bytes[at..at + 4], 0);
      assert bytes[at..at + 4][0..4] == bytes[at..at + 4];
    }
  }
}
