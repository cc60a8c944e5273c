/** 64-bit words and addresses.

    Masks and shifts of the C source are written as remainders and quotients by
    powers of two, which is what they compute on unsigned words. */
module Words {

  const TWO_64: int := 0x1_0000_0000_0000_0000

  type Word = w: int | 0 <= w < TWO_64

  // A 16-bit field.
  type Half = h: int | 0 <= h < 0x1_0000

  // A read-only image: the 64-bit word found at each byte address.
  type Rom = Word -> Word

  // Pointer arithmetic: wraps at 2^64, also for a negative displacement.
  function Plus(a: Word, d: int): Word {
    (a + d) % TWO_64
  }

  // Division with remainder is unique: how a word is cut into fields.
  lemma Cut(n: int, q: int, r: int, d: int)
    requires 0 <= r < d && n == q * d + r
    ensures n / d == q && n % d == r
  {
    assert n == n / d * d + n % d;
    Multiple(n / d - q, d);
  }

  lemma Multiple(k: int, d: int)
    requires d > 0
    ensures k >= 1 ==> k * d >= d
    ensures k <= -1 ==> k * d <= -d
  {
    if k >= 1 {
      assert (k - 1) * d >= 0;
    } else if k <= -1 {
      assert (-k - 1) * d >= 0;
    }
  }

  lemma PlusPlus(a: Word, d: int, e: int)
    ensures Plus(Plus(a, d), e) == Plus(a, d + e)
    ensures Plus(Plus(a, d), e) == Plus(Plus(a, e), d)
  {
  }

  lemma PlusZero(a: Word)
    ensures Plus(a, 0) == a
  {
  }

  // Two displacements below 2^64 that reach the same address are the same.
  lemma PlusInjective(a: Word, d: Word, e: Word)
    requires Plus(a, d) == Plus(a, e)
    ensures d == e
  {
  }

  lemma PlusDistinct(a: Word, d: Word, e: Word)
    ensures Plus(a, d) == Plus(a, e) <==> d == e
  {
    if Plus(a, d) == Plus(a, e) {
      PlusInjective(a, d, e);
    }
  }

  // Moving an address by a word undoes itself with the opposite displacement.
  lemma PlusInverse(a: Word, d: int)
    ensures Plus(Plus(a, d), -d) == a
  {
  }
}
