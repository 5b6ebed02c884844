/**
 The sines of 1 to 64 to 64 binary places, from which section 3.4 of RFC 1321 takes its table.
 */
module Md5Sine {
  const UNIT: nat := 0x1_0000_0000_0000_0000

  /** The integer parts of 2^64 sin(1) and of 2^64 times 2 cos(1). */
  const SINE: nat := 15522399902203605024
  const TWICE_COSINE: nat := 19933636717569423651

  /** 2^64 sin(n) by the addition theorem, sin(n) == 2 cos(1) sin(n - 1) - sin(n - 2). */
  function Sine(n: nat): int
  {
    if n == 0 then 0 else if n == 1 then SINE else TWICE_COSINE * Sine(n - 1) / UNIT - Sine(n - 2)
  }

  // ---------------------------------------------------------------- the two seeds, by their series

  /** 1 / n!: the term of degree n, without its sign, of the series at 1 of the sine (odd n) and the cosine (even n). */
  function Term(n: nat): (t: real)
    ensures t > 0.0
  {
    if n == 0 then 1.0 else Term(n - 1) / n as real
  }

  /** The series up to the term of degree n. */
  function Partial(n: nat): real
  {
    if n < 2 then 1.0 else if n % 4 < 2 then Partial(n - 2) + Term(n) else Partial(n - 2) - Term(n)
  }

  lemma TermFalls(n: nat)
    ensures Term(n + 1) <= Term(n)
  {
    assert Term(n + 1) == Term(n) / (n + 1) as real;
  }

  lemma NextPartial(n: nat)
    ensures n % 4 < 2 ==> Partial(n + 2) == Partial(n) - Term(n + 2)
    ensures n % 4 >= 2 ==> Partial(n + 2) == Partial(n) + Term(n + 2)
    ensures Term(n + 2) <= Term(n)
  {
    hide Term;
    TermFalls(n);
    TermFalls(n + 1);
  }

  /** Every later sum lies between two neighbouring ones. */
  lemma {:induction false} Squeezed(n: nat, m: nat)
    requires n + 2 <= m && (m - n) % 2 == 0
    ensures n % 4 < 2 ==> Partial(n + 2) <= Partial(m) <= Partial(n)
    ensures n % 4 >= 2 ==> Partial(n) <= Partial(m) <= Partial(n + 2)
    decreases m - n
  {
    hide Partial, Term;
    NextPartial(n);
    if n + 2 < m {
      NextPartial(n + 2);
      Squeezed(n + 2, m);
    }
  }

  lemma Next(n: nat, d: real)
    requires n >= 2 && d == n as real
    ensures Term(n) * d == Term(n - 1)
    ensures Partial(n) == if n % 4 < 2 then Partial(n - 2) + Term(n) else Partial(n - 2) - Term(n)
  {
  }

  lemma SumsAtTwelve()
    ensures Term(12) == 1.0 / 479001600.0
    ensures Partial(11) == 33588829.0 / 39916800.0 && Partial(12) == 258805669.0 / 479001600.0
  {
    assert Term(1) == 1.0 && Partial(0) == 1.0 && Partial(1) == 1.0;
    hide Partial, Term;
    Next(2, 2.0); Next(3, 3.0); Next(4, 4.0); Next(5, 5.0); Next(6, 6.0); Next(7, 7.0);
    Next(8, 8.0); Next(9, 9.0); Next(10, 10.0); Next(11, 11.0); Next(12, 12.0);
  }

  lemma FirstSums()
    ensures SINE as real <= UNIT as real * Partial(23) && UNIT as real * Partial(21) < (SINE + 1) as real
    ensures TWICE_COSINE as real <= UNIT as real * 2.0 * Partial(22)
    ensures UNIT as real * 2.0 * Partial(20) < (TWICE_COSINE + 1) as real
  {
    hide Partial, Term;
    SumsAtTwelve();
    Next(13, 13.0); Next(14, 14.0); Next(15, 15.0); Next(16, 16.0); Next(17, 17.0); Next(18, 18.0);
    Next(19, 19.0); Next(20, 20.0); Next(21, 21.0); Next(22, 22.0); Next(23, 23.0);
  }

  /** The seeds are the integer parts they are said to be: so says every longer sum. */
  lemma SeedsAreIntegerParts(n: nat)
    requires n >= 22
    ensures n % 2 == 1 ==> SINE as real <= UNIT as real * Partial(n) < (SINE + 1) as real
    ensures n % 2 == 0 ==> TWICE_COSINE as real <= UNIT as real * 2.0 * Partial(n) < (TWICE_COSINE + 1) as real
  {
    hide Partial, Term;
    FirstSums();
    Squeezed(if n % 2 == 1 then 21 else 20, n);
  }
}
