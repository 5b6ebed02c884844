/**
 The MD5 message digest as RFC 1321 defines it, over natural numbers below 2^32.
 */
module Md5Spec {
  import opened Bits
  import opened LittleEndian
  import opened Md5Sine

  /** Section 2: words are little-endian, X <<< s is the circular shift, + is addition modulo 2^32. */
  function Rotate(x: nat, s: nat): nat
    requires s <= 32
  {
    ShiftLeft(x, s) % WORD + ShiftRight(x, 32 - s)
  }

  function Complement(x: nat): nat
    requires x < WORD
  {
    WORD - 1 - x
  }

  /** Section 3.4: the auxiliary functions. */
  function F(x: nat, y: nat, z: nat): nat
    requires x < WORD
  {
    Or(And(x, y), And(Complement(x), z))
  }

  function G(x: nat, y: nat, z: nat): nat
    requires z < WORD
  {
    Or(And(x, z), And(y, Complement(z)))
  }

  function H(x: nat, y: nat, z: nat): nat { Xor(Xor(x, y), z) }

  function I(x: nat, y: nat, z: nat): nat
    requires z < WORD
  {
    Xor(y, Or(x, Complement(z)))
  }

  function Auxiliary(i: nat, x: nat, y: nat, z: nat): nat
    requires x < WORD && z < WORD
  {
    if i < 16 then F(x, y, z) else if i < 32 then G(x, y, z) else if i < 48 then H(x, y, z) else I(x, y, z)
  }

  /** The word of the block that operation `i` adds. */
  function Index(i: nat): (k: nat)
    ensures k < 16
  {
    if i < 16 then i else if i < 32 then (5 * i + 1) % 16 else if i < 48 then (3 * i + 5) % 16 else 7 * i % 16
  }

  function Shift(i: nat): (s: nat)
    requires i < 64
    ensures 0 < s < 32
  {
    var four := if i < 16 then [7, 12, 17, 22]
                else if i < 32 then [5, 9, 14, 20]
                else if i < 48 then [4, 11, 16, 23]
                else [6, 10, 15, 21];
    four[i % 4]
  }

  /** The integer part of 2^32 times abs(sin(i + 1)). */
  function T(i: nat): nat
  {
    var s := Sine(i + 1);
    (if s < 0 then -s else s) / WORD
  }

  datatype Quad = Quad(a: nat, b: nat, c: nat, d: nat)

  predicate Words(q: Quad) { q.a < WORD && q.b < WORD && q.c < WORD && q.d < WORD }

  /** b + ((a + f + x + t) <<< s). */
  function Turn(a: nat, f: nat, x: nat, t: nat, s: nat, b: nat): (r: nat)
    requires s <= 32
    ensures r < WORD
  {
    (b + Rotate((a + f + x + t) % WORD, s)) % WORD
  }

  /** The new value of `a` in [abcd k s i]. */
  function Operation(i: nat, a: nat, b: nat, c: nat, d: nat, block: seq<Byte>): (r: nat)
    requires i < 64 && |block| == 64 && b < WORD && d < WORD
    ensures r < WORD
  {
    Turn(a, Auxiliary(i, b, c, d), Word(block, Index(i)), T(i), Shift(i), b)
  }

  /** The first `n` operations; the registers change names after each one. */
  function Operations(q: Quad, block: seq<Byte>, n: nat): (r: Quad)
    requires n <= 64 && |block| == 64 && Words(q)
    ensures Words(r)
  {
    if n == 0 then q
    else
      var p := Operations(q, block, n - 1);
      Quad(p.d, Operation(n - 1, p.a, p.b, p.c, p.d, block), p.b, p.c)
  }

  function Compress(q: Quad, block: seq<Byte>): (r: Quad)
    requires |block| == 64 && Words(q)
    ensures Words(r)
  {
    var p := Operations(q, block, |block|);
    Quad((p.a + q.a) % WORD, (p.b + q.b) % WORD, (p.c + q.c) % WORD, (p.d + q.d) % WORD)
  }

  lemma WithoutFirstBlock(n: nat)
    requires n > 0 && n % 64 == 0
    ensures n >= 64 && (n - 64) % 64 == 0
  {
  }

  /** Section 3.4: all the blocks in turn. */
  function Process(q: Quad, data: seq<Byte>): (r: Quad)
    requires |data| % 64 == 0 && Words(q)
    ensures Words(r)
    decreases |data|
  {
    if data == [] then q
    else
      WithoutFirstBlock(|data|);
      Process(Compress(q, data[..64]), data[64..])
  }

  /** Section 3.3. */
  const START := Quad(0x67452301, 0xefcdab89, 0x98badcfe, 0x10325476)

  function Zeros(n: nat): (r: seq<Byte>)
    ensures |r| == n
  {
    seq(n, _ => 0)
  }

  /** Section 3.2: the length in bits before padding, modulo 2^64, low word first. */
  function LengthBytes(length: nat): (r: seq<Byte>)
    ensures |r| == 8
  {
    var bits := 8 * length % 0x1_0000_0000_0000_0000;
    Bytes4(bits % WORD) + Bytes4(bits / WORD)
  }

  /** Section 3.1: how many bytes 0 follow the byte 0x80, so that the length becomes 56 modulo 64. */
  function ZeroCount(length: nat): (n: nat)
    ensures n < 64 && (length + 1 + n) % 64 == 56
  {
    var used := length % 64;
    if used < 56 then 55 - used else 119 - used
  }

  lemma BlockEnd(n: nat)
    requires n % 64 == 56
    ensures (n + 8) % 64 == 0
  {
  }

  function Padded(message: seq<Byte>): (r: seq<Byte>)
    ensures |r| % 64 == 0
  {
    var zeros := ZeroCount(|message|);
    BlockEnd(|message| + 1 + zeros);
    message + [0x80] + Zeros(zeros) + LengthBytes(|message|)
  }

  /** Section 3.5. */
  function Output(q: Quad): (r: seq<Byte>)
    ensures |r| == 16
  {
    Bytes4(q.a) + Bytes4(q.b) + Bytes4(q.c) + Bytes4(q.d)
  }

  function Md5(message: seq<Byte>): (r: seq<Byte>)
    ensures |r| == 16
  {
    Output(Process(START, Padded(message)))
  }

  lemma {:induction false} ProcessConcat(q: Quad, x: seq<Byte>, y: seq<Byte>)
    requires |x| % 64 == 0 && |y| % 64 == 0 && Words(q)
    ensures Process(q, x + y) == Process(Process(q, x), y)
    decreases |x|
  {
    if x == [] {
      assert x + y == y;
    } else {
      WithoutFirstBlock(|x|);
      assert (x + y)[..64] == x[..64] && (x + y)[64..] == x[64..] + y;
      ProcessConcat(Compress(q, x[..64]), x[64..], y);
    }
  }
}
