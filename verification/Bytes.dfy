/** Raw memory: bytes, 32-bit words with their bit operations, the little-endian image of words, and splicing. */
module Bytes {
  newtype byte = x: int | 0 <= x < 0x100

  /** An `unsigned int`. */
  type word = x: int | 0 <= x < 0x1_0000_0000

  // Bit operations on unsigned numbers, digit by digit

  /** Binary digit `k` of `w`. */
  predicate Bit(w: nat, k: nat) {
    if k == 0 then w % 2 == 1 else Bit(w / 2, k - 1)
  }

  function Digit(b: bool): nat {
    if b then 1 else 0
  }

  /** `a | b` on `n`-bit numbers. */
  function Or(a: nat, b: nat, n: nat): nat {
    if n == 0 then 0 else 2 * Or(a / 2, b / 2, n - 1) + Digit(a % 2 == 1 || b % 2 == 1)
  }

  /** `a & ~b` on `n`-bit numbers. */
  function AndNot(a: nat, b: nat, n: nat): nat {
    if n == 0 then 0 else 2 * AndNot(a / 2, b / 2, n - 1) + Digit(a % 2 == 1 && b % 2 == 0)
  }

  /** `a & b` on `n`-bit numbers. */
  function And(a: nat, b: nat, n: nat): nat {
    if n == 0 then 0 else 2 * And(a / 2, b / 2, n - 1) + Digit(a % 2 == 1 && b % 2 == 1)
  }

  /** `1 << k`. */
  function Pow2(k: nat): (p: nat)
    ensures p > 0
  {
    if k == 0 then 1 else 2 * Pow2(k - 1)
  }

  lemma Pow2Of32()
    ensures Pow2(32) == 0x1_0000_0000
  {
    assert Pow2(8) == 0x100;
    assert Pow2(16) == 0x1_0000;
    assert Pow2(24) == 0x100_0000;
  }

  lemma {:induction false} BitwiseOps(a: nat, b: nat, n: nat, k: nat)
    requires k < n
    ensures Bit(Or(a, b, n), k) == (Bit(a, k) || Bit(b, k))
    ensures Bit(AndNot(a, b, n), k) == (Bit(a, k) && !Bit(b, k))
    ensures Bit(And(a, b, n), k) == (Bit(a, k) && Bit(b, k))
  {
    if k > 0 {
      BitwiseOps(a / 2, b / 2, n - 1, k - 1);
    }
  }

  lemma {:induction false} BitwiseBound(a: nat, b: nat, n: nat)
    ensures Or(a, b, n) < Pow2(n) && AndNot(a, b, n) < Pow2(n) && And(a, b, n) < Pow2(n)
  {
    if n > 0 {
      BitwiseBound(a / 2, b / 2, n - 1);
    }
  }

  lemma {:induction false} BitOfPow2(k: nat, j: nat)
    ensures Bit(Pow2(k), j) == (j == k)
  {
    if k > 0 && j > 0 {
      BitOfPow2(k - 1, j - 1);
    } else if k == 0 && j > 0 {
      NoBits(j - 1);
    }
  }

  lemma {:induction false} NoBits(j: nat)
    ensures !Bit(0, j)
  {
    if j > 0 {
      NoBits(j - 1);
    }
  }

  lemma {:induction false} SomeBit(w: nat, n: nat) returns (k: nat)
    requires 0 < w < Pow2(n)
    ensures k < n && Bit(w, k)
  {
    if w % 2 == 1 {
      k := 0;
    } else {
      k := SomeBit(w / 2, n - 1);
      k := k + 1;
    }
  }

  /** `w & (1 << k)` is nonzero exactly when digit `k` of `w` is one: the bitmap's test. */
  lemma MaskTest(w: nat, k: nat, n: nat)
    requires k < n
    ensures And(w, Pow2(k), n) != 0 <==> Bit(w, k)
  {
    var m := And(w, Pow2(k), n);
    BitwiseOps(w, Pow2(k), n, k);
    BitOfPow2(k, k);
    NoBits(k);
    if m != 0 {
      BitwiseBound(w, Pow2(k), n);
      var j := SomeBit(m, n);
      BitwiseOps(w, Pow2(k), n, j);
      BitOfPow2(k, j);
    }
  }

  // The memory image of words: little-endian

  function ByteOf(w: word, j: nat): byte
    requires j < 4
  {
    if j == 0 then (w % 0x100) as byte
    else if j == 1 then (w / 0x100 % 0x100) as byte
    else if j == 2 then (w / 0x1_0000 % 0x100) as byte
    else (w / 0x100_0000) as byte
  }

  function Pack(w: word): (s: seq<byte>)
    ensures |s| == 4
  {
    [ByteOf(w, 0), ByteOf(w, 1), ByteOf(w, 2), ByteOf(w, 3)]
  }

  /** The word stored in the four bytes of `s` that start at `at`. */
  function WordAt(s: seq<byte>, at: nat): word
    requires at + 4 <= |s|
  {
    s[at] as int + 0x100 * (s[at + 1] as int) + 0x1_0000 * (s[at + 2] as int) + 0x100_0000 * (s[at + 3] as int)
  }

  lemma Digits(n: nat)
    ensures n == n % 0x100 + 0x100 * (n / 0x100 % 0x100) + 0x1_0000 * (n / 0x1_0000 % 0x100)
                 + 0x100_0000 * (n / 0x100_0000)
  {
    assert n / 0x100 / 0x100 == n / 0x1_0000;
    assert n / 0x1_0000 / 0x100 == n / 0x100_0000;
  }

  lemma WordRoundTrip(w: word, s: seq<byte>, at: nat)
    requires at + 4 <= |s|
    requires s[at..at + 4] == Pack(w)
    ensures WordAt(s, at) == w
  {
    var t := s[at..at + 4];
    assert t[0] == s[at] && t[1] == s[at + 1] && t[2] == s[at + 2] && t[3] == s[at + 3];
    Digits(w);
  }

  function WordsImage(ws: seq<word>): (s: seq<byte>)
    ensures |s| == 4 * |ws|
  {
    seq(4 * |ws|, i requires 0 <= i < 4 * |ws| => ByteOf(ws[i / 4], i % 4))
  }

  /** The words held in a memory image. */
  function WordsOf(s: seq<byte>): (ws: seq<word>)
    requires |s| % 4 == 0
    ensures 4 * |ws| == |s|
  {
    seq(|s| / 4, k requires 0 <= k < |s| / 4 => WordAt(s, 4 * k))
  }

  lemma WordImageAt(ws: seq<word>, k: nat)
    requires k < |ws|
    ensures WordAt(WordsImage(ws), 4 * k) == ws[k]
  {
    var s := WordsImage(ws);
    assert s[4 * k..4 * k + 4] == Pack(ws[k]);
    WordRoundTrip(ws[k], s, 4 * k);
  }

  /** Writing an array of words to bytes and reading it back is the identity. */
  lemma WordsRoundTrip(ws: seq<word>)
    ensures WordsOf(WordsImage(ws)) == ws
  {
    forall k | 0 <= k < |ws| ensures WordsOf(WordsImage(ws))[k] == ws[k] {
      WordImageAt(ws, k);
    }
  }

  // Signed `int`s are stored as the word of the same bit pattern

  predicate IsInt(x: int) {
    -0x8000_0000 <= x < 0x8000_0000
  }

  function Unsigned(x: int): word
    requires IsInt(x)
  {
    if x < 0 then x + 0x1_0000_0000 else x
  }

  function Signed(w: word): (x: int)
    ensures IsInt(x) && Unsigned(x) == w
  {
    if w < 0x8000_0000 then w else w - 0x1_0000_0000
  }

  function IntAt(s: seq<byte>, at: nat): int
    requires at + 4 <= |s|
  {
    Signed(WordAt(s, at))
  }

  lemma IntImageAt(ws: seq<word>, k: nat, x: int)
    requires k < |ws| && IsInt(x) && ws[k] == Unsigned(x)
    ensures IntAt(WordsImage(ws), 4 * k) == x
  {
    WordImageAt(ws, k);
  }

  /** `s` with the elements from `at` on replaced by `data`. */
  function Splice<T>(s: seq<T>, at: nat, data: seq<T>): (r: seq<T>)
    requires at + |data| <= |s|
    ensures |r| == |s|
    ensures forall k | 0 <= k < |s| :: r[k] == if at <= k < at + |data| then data[k - at] else s[k]
  {
    s[..at] + data + s[at + |data|..]
  }
}
