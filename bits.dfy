/**
 * Powers of two and the few facts about them that the 4-, 6- and 8-bit
 * channels of both streams rely on. The C code shifts (`<<`, `>>`) and masks
 * (`& 0x0F`, `& 0x3F`, `& 0xFF`); on the non-negative values the model keeps,
 * a shift is a multiplication or division by a power of two and a mask is a
 * remainder.
 */
module SexpBits {

  function Pow2(n: nat): (p: nat)
    ensures p > 0
  {
    if n == 0 then 1 else 2 * Pow2(n - 1)
  }

  lemma {:induction false} Pow2Add(a: nat, b: nat)
    ensures Pow2(a + b) == Pow2(a) * Pow2(b)
  {
    if a > 0 {
      Pow2Add(a - 1, b);
    }
  }

  lemma Pow2Values()
    ensures Pow2(0) == 1 && Pow2(1) == 2 && Pow2(2) == 4 && Pow2(3) == 8
    ensures Pow2(4) == 16 && Pow2(5) == 32 && Pow2(6) == 64 && Pow2(8) == 256
  {
    assert Pow2(2) == 4;
    assert Pow2(4) == 16;
    assert Pow2(6) == 64;
  }

  /** Taking the top 8 bits of a (k+8)-bit value gives a byte. */
  lemma {:induction false} TopByte(b: nat, k: nat)
    requires b < Pow2(k + 8)
    ensures b / Pow2(k) < 256
  {
    Pow2Add(k, 8);
    Pow2Values();
    DivLess(b, Pow2(k), 256);
  }

  lemma DivLess(b: nat, d: nat, m: nat)
    requires d > 0 && b < d * m
    ensures b / d < m
  {
  }

  /** Appending a digit of `size` bits to a value of `n` bits gives a value of n + size bits. */
  lemma {:induction false} ShiftIn(bits: nat, n: nat, v: nat, size: nat)
    requires bits < Pow2(n) && v < Pow2(size)
    ensures bits * Pow2(size) + v < Pow2(n + size)
  {
    Pow2Add(n, size);
    MulMono(bits + 1, Pow2(n), Pow2(size));
  }

  lemma MulMono(a: nat, b: nat, c: nat)
    requires a <= b
    ensures a * c <= b * c
  {
  }

  /** Splitting a value of k + m bits: the high part is below 2^m. */
  lemma {:induction false} HighPart(b: nat, k: nat, m: nat)
    requires b < Pow2(k + m)
    ensures b / Pow2(k) < Pow2(m)
  {
    Pow2Add(k, m);
    DivLess(b, Pow2(k), Pow2(m));
  }

  /** Quotient and remainder are the unique pair with n == q * k + r and 0 <= r < k. */
  lemma DivUnique(n: nat, k: nat, q: nat, r: nat)
    requires k > 0 && r < k && n == q * k + r
    ensures n / k == q && n % k == r
  {
    var q', r' := n / k, n % k;
    assert (q - q') * k == r' - r;
    if q > q' {
      MulMono(1, q - q', k);
    } else if q < q' {
      MulMono(1, q' - q, k);
    }
  }

  /**
   * A byte b shifted in below the x pending bits of a base64 group, split
   * two bits down (no bits pending): the six bits above the split are the
   * high bits of b, and the bits below it are its low bits.
   */
  lemma SplitByte4(x: nat, b: nat)
    requires b < 256 && x < 1
    ensures (x * 256 + b) / 4 % 64 == b / 4
    ensures (x * 256 + b) % 4 == b % 4
  {
    DivUnique(b / 4, 64, 0, b / 4);
  }

  /** The same four bits down, below two pending bits x. */
  lemma SplitByte16(x: nat, b: nat)
    requires b < 256 && x < 4
    ensures (x * 256 + b) / 16 % 64 == x * 16 + b / 16
    ensures (x * 256 + b) % 16 == b % 16
  {
    DivUnique(x * 256 + b, 16, x * 16 + b / 16, b % 16);
    DivUnique(x * 16 + b / 16, 64, 0, x * 16 + b / 16);
  }

  /** The same six bits down, below four pending bits x. */
  lemma SplitByte64(x: nat, b: nat)
    requires b < 256 && x < 16
    ensures (x * 256 + b) / 64 % 64 == x * 4 + b / 64
    ensures (x * 256 + b) % 64 == b % 64
  {
    DivUnique(x * 256 + b, 64, x * 4 + b / 64, b % 64);
    DivUnique(x * 4 + b / 64, 64, 0, x * 4 + b / 64);
  }

  /** One more digit brings a partial group one step nearer to whole. */
  lemma GroupCountdown(n: int)
    requires n >= 0 && n % 4 != 0
    ensures (4 - (n + 1) % 4) % 4 == (4 - n % 4) % 4 - 1
  {
    var q, r := n / 4, n % 4;
    if r == 3 {
      DivUnique(n + 1, 4, q + 1, 0);
    } else {
      DivUnique(n + 1, 4, q, r + 1);
    }
  }

  /**
   * A digit of six bits taken from the pending bits moves the digit count
   * one place on in its group of four.
   */
  lemma AlignStep(nBits: int, count: int)
    requires count >= 0
    ensures 6 <= nBits < 14 && nBits % 8 == 2 * (count % 4) ==> (nBits - 6) % 8 == 2 * ((count + 1) % 4)
  {
    var q := count / 4;
    if count % 4 == 3 {
      DivUnique(count + 1, 4, q + 1, 0);
    } else {
      DivUnique(count + 1, 4, q, count % 4 + 1);
    }
  }

  lemma MulBelow(x: nat, m: nat, k: nat)
    ensures x < m && k > 0 ==> x * k < m * k
  {
    if x < m {
      MulMono(x + 1, m, k);
      assert (x + 1) * k == x * k + k;
    }
  }
}
