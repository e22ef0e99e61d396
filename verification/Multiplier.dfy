/** The 32 by 32 bit multiplication of nachos64/code/machine/mipssim.cc, done by shifting and adding. */
module Multiplier {
  import opened Bytes

  /** 2 to the power 32: unsigned arithmetic is modulo this. */
  const W: int := 0x1_0000_0000

  /** Negation of a 32-bit int, which leaves -2^31 as it is. */
  function Negated(x: int): (r: int)
    requires IsInt(x)
    ensures IsInt(r)
    ensures x < 0 ==> Unsigned(r) == -x
  {
    Signed((W - Unsigned(x)) % W)
  }

  /** A double word. */
  function Wide(hi: word, lo: word): int {
    hi * W + lo
  }

  /** The addition with its carry test, when the true sum fits. */
  method AddWide(hi: word, lo: word, bHi: word, bLo: word) returns (hi': word, lo': word)
    requires Wide(hi, lo) + Wide(bHi, bLo) < W * W
    ensures Wide(hi', lo') == Wide(hi, lo) + Wide(bHi, bLo)
  {
    lo' := (lo + bLo) % W;
    hi' := hi;
    if lo' < bLo {
      hi' := (hi' + 1) % W;
    }
    hi' := (hi' + bHi) % W;
  }

  /** The left shift by one, which drops the top bit. */
  method ShiftWide(bHi: word, bLo: word) returns (hi: word, lo: word)
    ensures Wide(hi, lo) == 2 * Wide(bHi, bLo) || Wide(hi, lo) == 2 * Wide(bHi, bLo) - W * W
  {
    hi := (bHi * 2) % W;
    if bLo >= 0x8000_0000 {
      hi := hi + 1;
    }
    lo := (bLo * 2) % W;
  }

  /** Ones' complement and one more: the two's complement negation. */
  method NegateWide(hi: word, lo: word) returns (hi': word, lo': word)
    requires Wide(hi, lo) > 0
    ensures Wide(hi', lo') == W * W - Wide(hi, lo)
  {
    hi', lo' := W - 1 - hi, W - 1 - lo;
    lo' := (lo' + 1) % W;
    if lo' == 0 {
      hi' := (hi' + 1) % W;
    }
  }

  /**
   * What the loop keeps, for a multiplier of word value `A`: the low bits done so far are worth `low`, the others
   * `rest`; `p` and `q` are the powers of two for the bits done and to do, and `a` is what arithmetic shifts have left
   * of the int.
   */
  ghost predicate Split(A: word, a: int, top: int, low: int, rest: int, p: int, q: int) {
    && A == low + p * rest && 0 <= low < p && 0 <= rest < q && p * q == W
    && 0 <= top <= 1 && a == rest - top * q && IsInt(a)
  }

  /** The shifted multiplicand: exact but for bits lost at the top. */
  ghost predicate Shifted(B: word, p: int, bHi: word, bLo: word, lost: int) {
    p * B == Wide(bHi, bLo) + lost * (W * W) && lost >= 0
  }

  lemma NextSplit(A: word, a: int, top: int, low: int, rest: int, p: int, q: int)
    requires Split(A, a, top, low, rest, p, q) && q % 2 == 0 && q > 0
    ensures a % 2 == rest % 2
    ensures Split(A, a / 2, top, if a % 2 == 1 then low + p else low, rest / 2, p * 2, q / 2)
  {
    var half := q / 2;
    assert top * q == 2 * (top * half);
    assert rest == 2 * (rest / 2) + rest % 2;
    if rest % 2 == 0 {
      assert p * rest == p * (2 * (rest / 2));
    } else {
      assert p * rest == p * (2 * (rest / 2)) + p;
    }
    assert p * (2 * (rest / 2)) == p * 2 * (rest / 2);
    assert p * 2 * half == p * q;
  }

  lemma Monotone(x: int, y: int, z: int)
    requires 0 <= x && y <= z
    ensures x * y <= x * z
  {
  }

  lemma Below(x: int, B: int, A: int)
    requires 0 <= x <= A < W && 0 <= B < W
    ensures x * B < W * W && x * B <= A * B
  {
    Monotone(B, x, A);
    Monotone(A, B, W);
  }

  /** A set bit of the multiplier means that nothing of the shifted multiplicand is lost and that the sum fits. */
  lemma SumFits(A: word, B: word, low: int, p: int, bHi: word, bLo: word, lost: int)
    requires 0 <= low && 0 < p && low + p <= A && Shifted(B, p, bHi, bLo, lost)
    ensures lost == 0 && low * B + Wide(bHi, bLo) == (low + p) * B && (low + p) * B < W * W
  {
    Below(low + p, B, A);
    Below(p, B, A);
    Below(low, B, A);
    assert (low + p) * B == low * B + p * B;
  }

  lemma NextShift(B: word, p: int, bHi: word, bLo: word, lost: int, hi: word, lo: word) returns (lost': int)
    requires Shifted(B, p, bHi, bLo, lost)
    requires Wide(hi, lo) == 2 * Wide(bHi, bLo) || Wide(hi, lo) == 2 * Wide(bHi, bLo) - W * W
    ensures Shifted(B, p * 2, hi, lo, lost')
  {
    lost' := if Wide(hi, lo) == 2 * Wide(bHi, bLo) then 2 * lost else 2 * lost + 1;
    assert p * 2 * B == 2 * (p * B);
    assert (2 * lost) * (W * W) == 2 * (lost * (W * W));
    assert (2 * lost + 1) * (W * W) == 2 * (lost * (W * W)) + W * W;
  }

  /** Once the last set bit is taken, all of the multiplier is done. */
  lemma LastBit(A: word, top: int, low: int, rest: int, p: int, q: int)
    requires Split(A, 1, top, low, rest, p, q)
    ensures low + p == A
  {
    assert top == 0;
  }

  /** The product of the word values of `a` and `b`, although `a` is shifted as a signed int. */
  method MultWords(a0: int, b: int) returns (hi: word, lo: word)
    requires IsInt(a0) && IsInt(b)
    ensures Wide(hi, lo) == Unsigned(a0) * Unsigned(b)
  {
    var a := a0;
    var bHi: word, bLo: word := 0, Unsigned(b);
    hi, lo := 0, 0;
    ghost var A: word, B: word, top := Unsigned(a0), Unsigned(b), if a0 < 0 then 1 else 0;
    ghost var low: int, rest: int, p, q, lost := 0, A, 1, W, 0;
    Pow2Of32();
    var i := 0;
    while i < 32
      invariant 0 <= i <= 32 && Split(A, a, top, low, rest, p, q) && Shifted(B, p, bHi, bLo, lost)
      invariant q == Pow2(32 - i) && Wide(hi, lo) == low * B
      decreases 32 - i
    {
      assert q == 2 * Pow2(31 - i);
      NextSplit(A, a, top, low, rest, p, q);
      ghost var low' := if a % 2 == 1 then low + p else low;
      if a % 2 == 1 {
        Rest(A, low, rest, p);
        SumFits(A, B, low, p, bHi, bLo, lost);
        hi, lo := AddWide(hi, lo, bHi, bLo);
        assert Wide(hi, lo) == low' * B;
        if Unsigned(a) / 2 == 0 {
          LastBit(A, top, low, rest, p, q);
          return;
        }
      }
      ghost var bHi', bLo' := bHi, bLo;
      bHi, bLo := ShiftWide(bHi, bLo);
      lost := NextShift(B, p, bHi', bLo', lost, bHi, bLo);
      a := a / 2;
      low, rest, p, q := low', rest / 2, p * 2, q / 2;
      i := i + 1;
    }
    assert rest == 0;
  }

  lemma Rest(A: word, low: int, rest: int, p: int)
    requires A == low + p * rest && p > 0 && rest >= 1
    ensures low + p <= A
  {
    Monotone(p, 1, rest);
  }

  /** What hi and lo stand for as a signed or an unsigned number of 64 bits. */
  function Value(hi: int, lo: int, signedArith: bool): int
    requires IsInt(hi) && IsInt(lo)
  {
    (if signedArith then hi else Unsigned(hi)) * W + Unsigned(lo)
  }

  lemma SmallProduct(x: int, y: int)
    requires 0 < x <= 0x8000_0000 && 0 < y <= 0x8000_0000
    ensures 0 < x * y <= 0x4000_0000 * W
  {
    Monotone(x, 1, y);
    Monotone(x, y, 0x8000_0000);
  }

  lemma SignRule(a: int, b: int, x: int, y: int)
    requires (x == a >= 0 || x == -a > 0) && (y == b >= 0 || y == -b > 0)
    ensures a * b == if (x == a) == (y == b) then x * y else -(x * y)
  {
    if x != a && y != b {
      assert (-a) * (-b) == a * b;
    } else if x != a {
      assert (-a) * b == -(a * b);
    } else if y != b {
      assert a * (-b) == -(a * b);
    }
  }

  /** Read as signed, a double word below 2^63 is itself and the complement of one that is no larger is its negation. */
  lemma SignedValue(hi: word, lo: word, v: int)
    requires 0 < v <= 0x4000_0000 * W
    ensures Wide(hi, lo) == v ==> Signed(hi) * W + lo == v
    ensures Wide(hi, lo) == W * W - v ==> Signed(hi) * W + lo == -v
  {
  }

  /** Exactly the 64-bit product, for every pair of ints. */
  method Mult(a0: int, b0: int, signedArith: bool) returns (hiPtr: int, loPtr: int)
    requires IsInt(a0) && IsInt(b0)
    ensures IsInt(hiPtr) && IsInt(loPtr)
    ensures Value(hiPtr, loPtr, signedArith) == if signedArith then a0 * b0 else Unsigned(a0) * Unsigned(b0)
  {
    if a0 == 0 || b0 == 0 {
      return 0, 0;
    }
    var a, b, negative := a0, b0, false;
    if signedArith {
      if a < 0 {
        negative := !negative;
        a := Negated(a);
      }
      if b < 0 {
        negative := !negative;
        b := Negated(b);
      }
      SmallProduct(Unsigned(a), Unsigned(b));
      SignRule(a0, b0, Unsigned(a), Unsigned(b));
    }
    var hi, lo := MultWords(a, b);
    ghost var v := Wide(hi, lo);
    if negative {
      hi, lo := NegateWide(hi, lo);
    }
    if signedArith {
      SignedValue(hi, lo, v);
    }
    hiPtr, loPtr := Signed(hi), Signed(lo);
  }
}
