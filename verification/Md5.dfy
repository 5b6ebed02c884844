/**
 The streaming MD5 code: a context with registers and counters in words of `width` bits (MD5_u32plus) and a
 64-byte buffer, fed by any sequence of updates.
 */
module Md5 {
  import opened Bits
  import opened LittleEndian
  import opened Md5Spec
  import opened Md5Wide

  /** The input word of each of the 64 lines of the code, as written there. */
  function Input(i: nat): (n: nat)
    requires i < 64
    ensures n == Index(i)
  {
    match i
    case 0 => 0 case 1 => 1 case 2 => 2 case 3 => 3 case 4 => 4 case 5 => 5 case 6 => 6 case 7 => 7
    case 8 => 8 case 9 => 9 case 10 => 10 case 11 => 11 case 12 => 12 case 13 => 13 case 14 => 14 case 15 => 15
    case 16 => 1 case 17 => 6 case 18 => 11 case 19 => 0 case 20 => 5 case 21 => 10 case 22 => 15 case 23 => 4
    case 24 => 9 case 25 => 14 case 26 => 3 case 27 => 8 case 28 => 13 case 29 => 2 case 30 => 7 case 31 => 12
    case 32 => 5 case 33 => 8 case 34 => 11 case 35 => 14 case 36 => 1 case 37 => 4 case 38 => 7 case 39 => 10
    case 40 => 13 case 41 => 0 case 42 => 3 case 43 => 6 case 44 => 9 case 45 => 12 case 46 => 15 case 47 => 2
    case 48 => 0 case 49 => 7 case 50 => 14 case 51 => 5 case 52 => 12 case 53 => 3 case 54 => 10 case 55 => 1
    case 56 => 8 case 57 => 15 case 58 => 6 case 59 => 13 case 60 => 4 case 61 => 11 case 62 => 2 case _ => 9
  }

  /** SET and GET: on some targets the word is wider than the four bytes and holds anything above them. */
  method ReadWord(width: nat, block: seq<Byte>, n: nat) returns (x: nat)
    requires width >= 32 && |block| == 64 && n < 16
    ensures x < Pow2(width) && Low(x) == Word(block, n)
  {
    x := Word(block, n);
    WordFits(width);
  }

  lemma WordFits(width: nat)
    requires width >= 32
    ensures WORD <= Pow2(width)
  {
    Pow2Of32();
    Pow2Sum(width - 32, 32);
    NotLess(Pow2(width - 32), 1, WORD);
  }

  function Lows(a: nat, b: nat, c: nat, d: nat): (q: Quad)
    ensures Words(q)
  {
    Quad(Low(a), Low(b), Low(c), Low(d))
  }

  /** One line of the code. */
  method Step(width: nat, block: seq<Byte>, i: nat, a: nat, b: nat, c: nat, d: nat) returns (r: nat)
    requires width >= 32 && |block| == 64 && i < 64 && d < Pow2(width)
    ensures r < Pow2(width) && Low(r) == Operation(i, Low(a), Low(b), Low(c), Low(d), block)
  {
    var x := ReadWord(width, block, Input(i));
    r := WideStep(width, i, a, b, c, d, x);
    LowStep(width, i, a, b, c, d, x, block);
  }

  lemma NoOperation(q: Quad, block: seq<Byte>)
    requires |block| == 64 && Words(q)
    ensures Operations(q, block, 0) == q
  {
  }

  lemma NextOperation(q: Quad, block: seq<Byte>, n: nat, p: Quad)
    requires n < 64 && |block| == 64 && Words(q) && p == Operations(q, block, n)
    ensures Operations(q, block, n + 1) == Quad(p.d, Operation(n, p.a, p.b, p.c, p.d, block), p.b, p.c)
  {
  }

  /** After four operations the registers are back at their names. */
  lemma FourOperations(q: Quad, block: seq<Byte>, i: nat, p: Quad, r: Quad)
    requires i + 4 <= 64 && |block| == 64 && Words(q) && p == Operations(q, block, i) && Words(r)
    requires r.a == Operation(i, p.a, p.b, p.c, p.d, block)
    requires r.d == Operation(i + 1, p.d, r.a, p.b, p.c, block)
    requires r.c == Operation(i + 2, p.c, r.d, r.a, p.b, block)
    requires r.b == Operation(i + 3, p.b, r.c, r.d, r.a, block)
    ensures Operations(q, block, i + 4) == r
  {
    NextOperation(q, block, i, p);
    NextOperation(q, block, i + 1, Quad(p.d, r.a, p.b, p.c));
    NextOperation(q, block, i + 2, Quad(p.c, r.d, r.a, p.b));
    NextOperation(q, block, i + 3, Quad(p.b, r.c, r.d, r.a));
  }

  /** Four lines of the code. */
  method FourSteps(width: nat, block: seq<Byte>, i: nat, ghost q: Quad, a0: nat, b0: nat, c0: nat, d0: nat)
    returns (a: nat, b: nat, c: nat, d: nat)
    requires width >= 32 && |block| == 64 && i + 4 <= 64
    requires b0 < Pow2(width) && c0 < Pow2(width) && d0 < Pow2(width)
    requires Words(q) && Lows(a0, b0, c0, d0) == Operations(q, block, i)
    ensures a < Pow2(width) && b < Pow2(width) && c < Pow2(width) && d < Pow2(width)
    ensures Lows(a, b, c, d) == Operations(q, block, i + 4)
  {
    a := Step(width, block, i, a0, b0, c0, d0);
    d := Step(width, block, i + 1, d0, a, b0, c0);
    c := Step(width, block, i + 2, c0, d, a, b0);
    b := Step(width, block, i + 3, b0, c, d, a);
    FourOperations(q, block, i, Lows(a0, b0, c0, d0), Lows(a, b, c, d));
  }

  method Rounds(width: nat, block: seq<Byte>, a0: nat, b0: nat, c0: nat, d0: nat)
    returns (a: nat, b: nat, c: nat, d: nat)
    requires width >= 32 && |block| == 64
    requires a0 < Pow2(width) && b0 < Pow2(width) && c0 < Pow2(width) && d0 < Pow2(width)
    ensures a < Pow2(width) && b < Pow2(width) && c < Pow2(width) && d < Pow2(width)
    ensures Lows(a, b, c, d) == Operations(Lows(a0, b0, c0, d0), block, |block|)
  {
    hide Operations;
    a, b, c, d := a0, b0, c0, d0;
    ghost var q := Lows(a0, b0, c0, d0);
    NoOperation(q, block);
    var i := 0;
    while i < 64
      invariant i <= 64 && i % 4 == 0
      invariant a < Pow2(width) && b < Pow2(width) && c < Pow2(width) && d < Pow2(width)
      invariant Lows(a, b, c, d) == Operations(q, block, i)
    {
      a, b, c, d := FourSteps(width, block, i, q, a, b, c, d);
      i := i + 4;
    }
  }

  lemma NoBlock(q: Quad, data: seq<Byte>)
    requires Words(q) && data == []
    ensures Process(q, data) == q
  {
  }

  lemma NextBlock(q: Quad, data: seq<Byte>, ptr: nat)
    requires Words(q) && ptr < |data| && |data| % 64 == 0 && ptr % 64 == 0
    ensures ptr + 64 <= |data| && (ptr + 64) % 64 == 0 && |data[ptr..]| % 64 == 0 && |data[ptr + 64..]| % 64 == 0
    ensures Process(q, data[ptr..]) == Process(Compress(q, data[ptr..ptr + 64]), data[ptr + 64..])
  {
    WithoutFirstBlock(|data| - ptr);
    assert data[ptr..][..64] == data[ptr..ptr + 64] && data[ptr..][64..] == data[ptr + 64..];
  }

  // ---------------------------------------------------------------- the context

  const COUNTED: nat := 0x2000_0000  // lo holds 29 bits of the length in bytes

  /** The whole blocks of the message so far, and what is left in the buffer. */
  function Whole(m: seq<Byte>): (r: seq<Byte>)
    ensures |r| % 64 == 0 && |r| == |m| - |m| % 64
  {
    m[..|m| - |m| % 64]
  }

  function Rest(m: seq<Byte>): (r: seq<Byte>)
    ensures |r| == |m| % 64 && Whole(m) + r == m
  {
    m[|m| - |m| % 64..]
  }

  lemma WholeIsKept(m: seq<Byte>, x: seq<Byte>)
    requires |Rest(m)| + |x| < 64
    ensures Whole(m + x) == Whole(m) && Rest(m + x) == Rest(m) + x
  {
    LengthSplit(|Whole(m)|, |Rest(m)| + |x|);
  }

  /** `x` completes the block in the buffer and `y` follows. */
  lemma WholeGrows(m: seq<Byte>, x: seq<Byte>, y: seq<Byte>)
    requires |Rest(m)| + |x| == 0 || |Rest(m)| + |x| == 64
    ensures Rest(m + (x + y)) == Rest(y) && |m + (x + y)| % 64 == |y| % 64
    ensures Whole(m + (x + y)) == Whole(m) + ((Rest(m) + x) + Whole(y))
  {
    var all := m + (x + y);
    assert all == Whole(m) + ((Rest(m) + x) + Whole(y)) + Rest(y);
    LengthSum(|Whole(m)|, |Rest(m)| + |x|, |Whole(y)|, |Rest(y)|);
  }

  lemma LengthSum(n: nat, b: nat, y: nat, z: nat)
    requires n % 64 == 0 && (b == 0 || b == 64) && y % 64 == 0 && z < 64
    ensures (n + b + y + z) % 64 == z
  {
  }

  lemma ProcessThree(q: Quad, u: seq<Byte>, v: seq<Byte>, y: seq<Byte>)
    requires Words(q) && |u| % 64 == 0 && |v| % 64 == 0 && |y| % 64 == 0
    ensures Process(q, u + (v + y)) == Process(Process(Process(q, u), v), y)
  {
    hide *;
    SumOfBlocks(|v|, |y|);
    ProcessConcat(q, u, v + y);
    ProcessConcat(Process(q, u), v, y);
  }

  lemma SumOfBlocks(n: nat, k: nat)
    requires n % 64 == 0 && k % 64 == 0
    ensures (n + k) % 64 == 0
  {
  }

  lemma LengthSplit(n: nat, r: nat)
    requires n % 64 == 0 && r < 64
    ensures (n + r) % 64 == r
  {
  }

  class Context {
    const width: nat
    var lo: nat
    var hi: nat
    var a: nat
    var b: nat
    var c: nat
    var d: nat
    const buffer: array<Byte>

    ghost predicate Valid()
      reads this
    {
      && width >= 32 && buffer.Length == 64
      && a < Pow2(width) && b < Pow2(width) && c < Pow2(width) && d < Pow2(width)
    }

    ghost function Registers(): (q: Quad)
      reads this
      ensures Words(q)
    {
      Lows(a, b, c, d)
    }

    /** The counters stand for the length: 29 bits in lo and the rest, as far as it matters, in hi. */
    ghost predicate Counts(length: nat)
      reads this
    {
      lo == length % COUNTED && Low(hi) == Low(length / COUNTED)
    }

    /** The whole blocks of `m` are in the registers and the rest is in the buffer. */
    ghost predicate Absorbed(m: seq<Byte>)
      reads this, buffer
      requires buffer.Length == 64
    {
      Registers() == Process(START, Whole(m)) && buffer[..|m| % 64] == Rest(m)
    }

    /** The context after the bytes of `m`. */
    ghost predicate Holds(m: seq<Byte>)
      reads this, buffer
      requires buffer.Length == 64
    {
      Counts(|m|) && Absorbed(m)
    }

    constructor (width: nat)
      requires width >= 32
      ensures Valid() && Holds([]) && fresh(buffer) && this.width == width
    {
      this.width := width;
      a, b, c, d := 0x67452301, 0xefcdab89, 0x98badcfe, 0x10325476;
      lo, hi := 0, 0;
      buffer := new Byte[64](_ => 0);
      WordFits(width);
    }

    method OneBlock(block: seq<Byte>)
      requires Valid() && |block| == 64
      modifies this`a, this`b, this`c, this`d
      ensures Valid() && Registers() == Compress(old(Registers()), block)
    {
      hide Operations, WideAdd, Compress;
      var a', b', c', d' := Rounds(width, block, a, b, c, d);
      AddSaved(width, a', b', c', d', a, b, c, d, block);
      a, b, c, d := WideAdd(width, a', a), WideAdd(width, b', b), WideAdd(width, c', c), WideAdd(width, d', d);
    }

    /** One or more blocks. */
    method Body(data: seq<Byte>)
      requires Valid() && data != [] && |data| % 64 == 0
      modifies this`a, this`b, this`c, this`d
      ensures Valid() && Registers() == Process(old(Registers()), data)
    {
      hide Process, Compress, Registers;
      var ptr := 0;
      var going := true;
      assert data[0..] == data;
      while going
        invariant Valid() && 0 <= ptr <= |data| && ptr % 64 == 0 && (going <==> ptr < |data|)
        invariant Process(old(Registers()), data) == Process(Registers(), data[ptr..])
        decreases |data| - ptr
      {
        NextBlock(Registers(), data, ptr);
        OneBlock(data[ptr..ptr + 64]);
        ptr := ptr + 64;
        going := ptr < |data|;
      }
      NoBlock(Registers(), data[ptr..]);
    }

    /** memcpy into the buffer. */
    method CopyIn(at: nat, data: seq<Byte>)
      requires buffer.Length == 64 && at + |data| <= 64
      modifies buffer
      ensures buffer[..] == old(buffer[..])[..at] + data + old(buffer[..])[at + |data|..]
    {
      for i := 0 to |data|
        invariant buffer[..] == old(buffer[..])[..at] + data[..i] + old(buffer[..])[at + i..]
      {
        buffer[at + i] := data[i];
      }
    }

    /** The counters of MD5_Update: 29 bits, a carry, and the rest of the size. */
    method Count(size: nat, ghost length: nat)
      requires Valid() && Counts(length)
      modifies this`lo, this`hi
      ensures Counts(length + size)
    {
      var saved := lo;
      lo := And(WideAdd(width, saved, size), COUNTED - 1);
      LowCounter(width, saved, size);
      if lo < saved {
        hi := WideAdd(width, hi, 1);
      }
      hi := WideAdd(width, hi, size / COUNTED);
      CarryIsSeen(length, size);
      CountCarries(width, length / COUNTED, if lo < saved then 1 else 0, size / COUNTED, old(hi), hi);
    }

    /** Whole blocks go to the registers and what is left to the start of the buffer. */
    method TakeBlocks(data: seq<Byte>)
      requires Valid()
      modifies this`a, this`b, this`c, this`d, buffer
      ensures Valid() && Registers() == Process(old(Registers()), Whole(data))
      ensures buffer[..|data| % 64] == Rest(data)
    {
      hide Process;
      var blocks := |data| - |data| % 64;
      if |data| >= 64 {
        Body(data[..blocks]);
      } else {
        NoBlock(Registers(), Whole(data));
      }
      CopyIn(0, data[blocks..]);
      assert buffer[..|data| % 64] == data[blocks..];
    }

    /** Completes the block in the buffer. */
    method TakeHead(head: seq<Byte>, used: nat)
      requires Valid() && used < 64 && used + |head| == 64
      modifies this`a, this`b, this`c, this`d, buffer
      ensures Valid() && Registers() == Process(old(Registers()), old(buffer[..used]) + head)
    {
      hide Process;
      CopyIn(used, head);
      assert buffer[..] == old(buffer[..used]) + head;
      Body(buffer[..]);
    }

    /** The data goes to the registers and to the buffer. */
    method Absorb(data: seq<Byte>, used: nat, ghost m: seq<Byte>)
      requires Valid() && Absorbed(m) && used == |m| % 64
      modifies this`a, this`b, this`c, this`d, buffer
      ensures Valid() && Absorbed(m + data)
    {
      hide Process, Whole, Rest, Registers;
      if used == 0 {
        TakeBlocks(data);
        assert [] + data == data;
        WholeGrows(m, [], data);
        ProcessThree(START, Whole(m), Rest(m) + [], Whole(data));
        NoBlock(Process(START, Whole(m)), Rest(m) + []);
      } else if |data| < 64 - used {
        CopyIn(used, data);
        WholeIsKept(m, data);
        assert buffer[..used + |data|] == Rest(m) + data;
      } else {
        var head := 64 - used;
        assert data == data[..head] + data[head..];
        TakeHead(data[..head], used);
        TakeBlocks(data[head..]);
        WholeGrows(m, data[..head], data[head..]);
        ProcessThree(START, Whole(m), Rest(m) + data[..head], Whole(data[head..]));
      }
    }

    /** The context goes from `m` to `m + data`, for any data. */
    method Update(data: seq<Byte>, ghost m: seq<Byte>)
      requires Valid() && Holds(m)
      modifies this, buffer
      ensures Valid() && Holds(m + data)
    {
      hide Process;
      var used := lo % 64;
      UsedIsRest(|m|);
      Count(|data|, |m|);
      Absorb(data, used, m);
    }

    /** memset of the buffer to zero from `at` up to `end`. */
    method Clear(at: nat, end: nat)
      requires buffer.Length == 64 && at <= end <= 64
      modifies buffer
      ensures buffer[..] == old(buffer[..])[..at] + Zeros(end - at) + old(buffer[..])[end..]
    {
      for i := at to end
        invariant buffer[..] == old(buffer[..])[..at] + Zeros(i - at) + old(buffer[..])[i..]
      {
        buffer[i] := 0;
      }
    }

    /** The byte 0x80 and the zeros, through an extra block if the length would not fit. */
    method Pad(ghost m: seq<Byte>)
      requires Valid() && Absorbed(m) && lo % 64 == |m| % 64
      modifies this`a, this`b, this`c, this`d, buffer
      ensures Valid() && buffer[..56] == LastFill(m)
      ensures Registers() == Process(Process(START, Whole(m)), ExtraBlock(m))
    {
      hide Process;
      EmptyProcess();
      var used := lo % 64;
      CopyIn(used, [0x80]);
      used := used + 1;
      assert buffer[..used] == Rest(m) + [0x80];
      if 64 - used < 8 {
        Clear(used, 64);
        assert buffer[..] == ExtraBlock(m);
        Body(buffer[..]);
        used := 0;
      }
      Clear(used, 56);
    }

    /** OUT: four bytes of a counter or of a register. */
    method PutLength(ghost length: nat)
      requires Valid() && Counts(length)
      modifies this`lo, buffer
      ensures buffer[..] == old(buffer[..])[..56] + LengthBytes(length)
    {
      LengthWords(width, length, hi);
      lo := ShiftLeft(lo, 3) % Pow2(width);
      CopyIn(56, Bytes4(lo));
      CopyIn(60, Bytes4(hi));
    }

    /** The digest of the message, and a context wiped clean. */
    method Final(ghost m: seq<Byte>) returns (result: seq<Byte>)
      requires Valid() && Holds(m)
      modifies this, buffer
      ensures result == Md5(m)
      ensures lo == hi == a == b == c == d == 0 && buffer[..] == Zeros(64)
    {
      hide Process;
      UsedIsRest(|m|);
      Pad(m);
      PutLength(|m|);
      Body(buffer[..]);
      PaddedSplit(m);
      ProcessThree(START, Whole(m), ExtraBlock(m), LastFill(m) + LengthBytes(|m|));
      LowBytes(a);
      LowBytes(b);
      LowBytes(c);
      LowBytes(d);
      result := Bytes4(a) + Bytes4(b) + Bytes4(c) + Bytes4(d);
      lo, hi, a, b, c, d := 0, 0, 0, 0, 0, 0;
      Clear(0, 64);
    }
  }

  function ExtraBlock(m: seq<Byte>): (r: seq<Byte>)
    ensures |r| % 64 == 0
  {
    if |m| % 64 < 56 then [] else Rest(m) + [0x80] + Zeros(63 - |m| % 64)
  }

  function LastFill(m: seq<Byte>): (r: seq<Byte>)
    ensures |r| == 56
  {
    if |m| % 64 < 56 then Rest(m) + [0x80] + Zeros(55 - |m| % 64) else Zeros(56)
  }

  lemma PaddedSplit(m: seq<Byte>)
    ensures Padded(m) == Whole(m) + (ExtraBlock(m) + (LastFill(m) + LengthBytes(|m|)))
  {
    assert m == Whole(m) + Rest(m);
    if |m| % 64 >= 56 {
      assert Zeros(119 - |m| % 64) == Zeros(63 - |m| % 64) + Zeros(56);
    }
  }

  /** The length in bits modulo 2^64 is lo shifted by three below the low half of hi. */
  lemma LengthWords(width: nat, length: nat, hi: nat)
    requires width >= 32 && Low(hi) == Low(length / COUNTED)
    ensures LengthBytes(length) == Bytes4(ShiftLeft(length % COUNTED, 3) % Pow2(width)) + Bytes4(hi)
  {
    hide Bytes4;
    ShiftByThree(width, length % COUNTED);
    LowBytes(hi);
    BitLength(length);
  }

  lemma ShiftByThree(width: nat, lo: nat)
    requires width >= 32 && lo < COUNTED
    ensures ShiftLeft(lo, 3) % Pow2(width) == 8 * lo
  {
    WordFits(width);
    assert ShiftLeft(lo, 3) == 8 * lo;
    SmallMod(8 * lo, Pow2(width));
  }

  lemma SmallMod(x: nat, d: nat)
    requires x < d
    ensures x % d == x
  {
    DivModUnique(x, d, 0, x);
  }

  lemma BitLength(length: nat)
    ensures var bits := 8 * length % 0x1_0000_0000_0000_0000;
      bits % WORD == 8 * (length % COUNTED) && bits / WORD == Low(length / COUNTED)
  {
  }

  lemma LowBytes(x: nat)
    ensures Bytes4(x) == Bytes4(Low(x))
  {
    ByteOfLow(x, 1, 0x100_0000);
    ByteOfLow(x, 0x100, 0x1_0000);
    ByteOfLow(x, 0x1_0000, 0x100);
    ByteOfLow(x, 0x100_0000, 1);
  }

  lemma ByteOfLow(x: nat, d: nat, g: nat)
    requires d > 0 && WORD == 256 * g * d
    ensures x / d % 256 == Low(x) / d % 256
  {
    var q, r := x / WORD, x % WORD;
    Regroup(q, g, d);
    DivShift(q * g * 256, d, r);
    ModShift(r / d, q * g, 256);
  }

  lemma Regroup(q: nat, g: nat, d: nat)
    ensures q * (256 * g * d) == q * g * 256 * d
  {
  }

  lemma DivShift(p: nat, d: nat, r: nat)
    requires d > 0
    ensures (p * d + r) / d == p + r / d
  {
    Distribute(p + r / d, p, d);
    DivModUnique(p * d + r, d, p + r / d, r % d);
  }

  lemma EmptyProcess()
    ensures forall q | Words(q) :: Process(q, []) == q
  {
  }

  lemma UsedIsRest(length: nat)
    ensures length % COUNTED % 64 == length % 64
  {
  }

  /** The mask of the low counter, and the wrap-around of the sum before it. */
  lemma LowCounter(width: nat, saved: nat, size: nat)
    requires width >= 32
    ensures And(WideAdd(width, saved, size), COUNTED - 1) == (saved + size) % COUNTED
  {
    Pow2Of32();
    MaskIsMod(WideAdd(width, saved, size), 29);
    ModPow2Twice(saved + size, 29, width);
  }

  lemma CarryIsSeen(length: nat, size: nat)
    ensures var lo, lo' := length % COUNTED, (length % COUNTED + size) % COUNTED;
      && lo' == (length + size) % COUNTED
      && (length + size) / COUNTED == length / COUNTED + (if lo' < lo then 1 else 0) + size / COUNTED
  {
  }

  lemma CountCarries(width: nat, q: nat, carry: nat, more: nat, hi: nat, hi': nat)
    requires width >= 32 && Low(hi) == Low(q) && carry <= 1
    requires hi' == WideAdd(width, if carry == 1 then WideAdd(width, hi, 1) else hi, more)
    ensures Low(hi') == Low(q + carry + more)
  {
    hide WideAdd;
    LowAdd(width, hi, 1);
    LowAdd(width, if carry == 1 then WideAdd(width, hi, 1) else hi, more);
    LowSum(q + carry, more);
    LowSum(q, carry);
  }

  lemma AddSaved(width: nat, a': nat, b': nat, c': nat, d': nat, a: nat, b: nat, c: nat, d: nat, block: seq<Byte>)
    requires width >= 32 && |block| == 64
    requires Lows(a', b', c', d') == Operations(Lows(a, b, c, d), block, |block|)
    ensures Lows(WideAdd(width, a', a), WideAdd(width, b', b), WideAdd(width, c', c), WideAdd(width, d', d))
         == Compress(Lows(a, b, c, d), block)
  {
    hide Operations, WideAdd;
    LowAdd(width, a', a);
    LowAdd(width, b', b);
    LowAdd(width, c', c);
    LowAdd(width, d', d);
  }

  // ---------------------------------------------------------------- any way of splitting the message

  /** Init, one update for each chunk, final: the digest of the whole message, in words of any width. */
  method DigestOfChunks(width: nat, chunks: seq<seq<Byte>>) returns (digest: seq<Byte>)
    requires width >= 32
    ensures digest == Md5(Flatten(chunks))
  {
    hide Md5;
    var context := new Context(width);
    assert chunks[..0] == [];
    for i := 0 to |chunks|
      invariant context.Valid() && context.Holds(Flatten(chunks[..i])) && fresh(context) && fresh(context.buffer)
    {
      assert chunks[..i + 1][..i] == chunks[..i];
      context.Update(chunks[i], Flatten(chunks[..i]));
    }
    assert chunks[..|chunks|] == chunks;
    digest := context.Final(Flatten(chunks));
  }
}
