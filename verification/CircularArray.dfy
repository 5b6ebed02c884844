/**
 The ring over a fixed array, with the index reduced by a mask or by a remainder, and the bounded FIFO that it
 stands for.
 */
module CircularArray {
  import opened Bits

  const INT_MAX: nat := 0x7FFF_FFFF

  // ---------------------------------------------------------------- mask and remainder

  /** is_powerof2, for a size that is not zero. */
  predicate IsPowerOf2(v: nat)
    requires v > 0
  {
    And(v, v - 1) == 0
  }

  ghost predicate IsPower(v: nat) { exists k: nat :: v == Pow2(k) }

  lemma PowerOfHalf(v: nat)
    requires v > 1
    ensures IsPower(v) <==> v % 2 == 0 && IsPower(v / 2)
  {
    if k: nat :| v == Pow2(k) {
      assert v == 2 * Pow2(k - 1);
      Unhalve(v, Pow2(k - 1), 0);
    }
    if v % 2 == 0 && IsPower(v / 2) {
      var k: nat :| v / 2 == Pow2(k);
      Halve(v);
      assert v == Pow2(k + 1);
    }
  }

  lemma {:induction false} AndSelf(x: nat)
    ensures And(x, x) == x
  {
    if x > 0 { AndSelf(x / 2); }
  }

  /** The bit trick recognises the powers of two. */
  lemma {:induction false} BitTrick(v: nat)
    requires v > 0
    ensures IsPowerOf2(v) <==> IsPower(v)
  {
    if v == 1 {
      assert v == Pow2(0) && And(1, 0) == 0;
    } else {
      PowerOfHalf(v);
      BitwiseHalf(AND, v, v - 1);
      if v % 2 == 0 {
        Halve(v);
        Unhalve(v - 1, v / 2 - 1, 1);
        BitTrick(v / 2);
      } else {
        Halve(v);
        Unhalve(v - 1, v / 2, 0);
        AndSelf(v / 2);
      }
    }
  }

  /** The mask is the remainder for every value exactly when the size is a power of two. */
  lemma MaskAgrees(size: nat)
    requires size > 0
    ensures IsPowerOf2(size) <==> forall val: nat :: And(val, size - 1) == val % size
  {
    if IsPowerOf2(size) {
      BitTrick(size);
      var k: nat :| size == Pow2(k);
      forall val: nat
        ensures And(val, size - 1) == val % size
      {
        MaskIsMod(val, k);
      }
    } else {
      DivModUnique(size, size, 1, 0);
      assert And(size, size - 1) != size % size;
    }
  }

  lemma WrapOnce(val: nat, size: nat)
    requires size > 0 && val < 2 * size
    ensures val % size == if val < size then val else val - size
  {
    if val < size { DivModUnique(val, size, 0, val); } else { DivModUnique(val, size, 1, val - size); }
  }

  // ---------------------------------------------------------------- the ring

  class Ring<T> {
    const masked: bool     // IsPow2Tag or IsNotPow2Tag
    const size: nat
    const blank: T         // T()
    const slots: array<T>
    var head: nat
    var tail: nat

    ghost predicate Shape()
      reads this
    {
      && 0 < size == slots.Length && (masked ==> IsPowerOf2(size))
      && head < size && tail < size
    }

    /** Slots outside the contents hold nothing. */
    ghost predicate Valid()
      reads this, slots
    {
      Shape() && forall j :: 0 <= j < size && !Live(j) ==> slots[j] == blank
    }

    ghost function Length(): nat
      requires Shape()
      reads this
    {
      if head >= tail then head - tail else head + size - tail
    }

    /** Where element number `i` is. */
    ghost function Place(i: nat): (j: nat)
      requires Shape() && i < size
      reads this
      ensures j < size
    {
      if tail + i < size then tail + i else tail + i - size
    }

    ghost predicate Live(j: nat)
      requires Shape() && j < size
      reads this
    {
      (if j >= tail then j - tail else j + size - tail) < Length()
    }

    /** The elements, oldest first. */
    ghost function Contents(): (s: seq<T>)
      requires Shape()
      reads this, slots
      ensures |s| == Length()
    {
      if head >= tail then slots[tail..head] else slots[tail..] + slots[..head]
    }

    lemma ElementAt(i: nat)
      requires Shape() && i < Length()
      ensures Contents()[i] == slots[Place(i)]
    {
    }

    constructor (storageSize: nat, masked: bool, blank: T)
      requires storageSize > 0 && (masked ==> IsPowerOf2(storageSize))
      ensures Valid() && fresh(slots) && Contents() == [] && head == tail == 0
      ensures size == storageSize && this.masked == masked && this.blank == blank
    {
      this.masked, size, this.blank := masked, storageSize, blank;
      slots := new T[storageSize](_ => blank);
      head, tail := 0, 0;
    }

    /** The two forms of modulo; no value comes near twice the size. */
    function Modulo(val: nat): (r: nat)
      requires Shape() && val < 2 * size
      reads this
      ensures r == if val < size then val else val - size
    {
      WrapOnce(val, size);
      if masked then
        MaskAgrees(size);
        And(val, size - 1)
      else val % size
    }

    predicate Empty()
      requires Shape()
      reads this, slots
      ensures Empty() <==> Contents() == []
    {
      head == tail
    }

    predicate Full()
      requires Shape()
      reads this, slots
      ensures Full() <==> |Contents()| == Capacity()
    {
      Modulo(size - 1 + tail - head) == 0
    }

    function Size(): (n: nat)
      requires Shape()
      reads this, slots
      ensures n == |Contents()| <= Capacity()
    {
      Modulo(size + head - tail)
    }

    function Capacity(): nat
      requires Shape()
      reads this
    {
      size - 1
    }

    function Front(): (x: T)
      requires Shape() && !Empty()
      reads this, slots
      ensures x == Contents()[0]
    {
      slots[tail]
    }

    method PushBack(element: T)
      requires Valid() && !Full()
      modifies this`head, slots
      ensures Valid() && Contents() == old(Contents()) + [element]
      ensures head == if old(head) == size - 1 then 0 else old(head) + 1
    {
      hide Modulo, IsPowerOf2;
      slots[head] := element;
      head := Modulo(head + 1);
    }

    method PopFront()
      requires Valid() && !Empty()
      modifies this`tail, slots
      ensures Valid() && Contents() == old(Contents())[1..]
    {
      hide Modulo, IsPowerOf2;
      slots[tail] := blank;
      tail := Modulo(tail + 1);
    }

    /** Pops every element, so that every slot is cleared. */
    method Reset()
      requires Valid()
      modifies this`tail, slots
      ensures Valid() && Contents() == [] && forall j :: 0 <= j < size ==> slots[j] == blank
    {
      var originalSize := Size();
      for i := 0 to originalSize
        invariant Valid() && head == old(head)
        invariant |Contents()| == originalSize - i
      {
        PopFront();
      }
    }

    /** From begin to end, one step of the iterator at a time. */
    method Elements() returns (s: seq<T>)
      requires Valid()
      ensures s == Contents()
    {
      hide Modulo, IsPowerOf2, Contents;
      var index := tail;
      s := [];
      while index != head
        invariant index < size && |s| <= Length() && (index == head <==> |s| == Length())
        invariant |s| < Length() ==> index == Place(|s|)
        invariant s == Contents()[..|s|]
        decreases Length() - |s|
      {
        ElementAt(|s|);
        s := s + [slots[index]];
        index := Modulo(index + 1);
      }
    }
  }

  // ---------------------------------------------------------------- the sums in a 32-bit int

  /** The largest sums that push, full and size form from these indices. */
  predicate SumsFit(size: nat, head: nat, tail: nat) {
    head + 1 <= INT_MAX && tail + 1 <= INT_MAX && size - 1 + tail <= INT_MAX && size + head <= INT_MAX
  }

  /** A ring whose head is at `n`. */
  method Reach(size: nat, n: nat) returns (ring: Ring<bool>)
    requires n < size
    ensures fresh(ring) && ring.Valid() && ring.size == size && ring.head == n && ring.tail == 0
  {
    ring := new Ring<bool>(size, false, false);
    for i := 0 to n
      invariant fresh(ring) && fresh(ring.slots) && ring.Valid() && ring.size == size
      invariant ring.head == i && ring.tail == 0
    {
      ring.PushBack(true);
    }
  }

  /** Every pair of indices keeps within an int exactly up to a size of 2^30; a ring of a larger size gets there by
      being filled. */
  lemma SumsFitExactly(size: nat)
    requires size > 0
    ensures (forall head, tail :: 0 <= head < size && 0 <= tail < size ==> SumsFit(size, head, tail))
            <==> size <= 0x4000_0000
  {
    if size > 0x4000_0000 { assert !SumsFit(size, size - 1, 0); }
  }
}
