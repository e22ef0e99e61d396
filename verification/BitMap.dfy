/** The bitmap of nachos64/code/userprog/bitmap.cc: bits packed into 32-bit words. */
module BitMaps {
  import opened Bytes

  const BITS_IN_WORD := 32

  /** `w | (1 << k)`. */
  function WithBit(w: word, k: nat): (r: word)
    ensures k < 32 ==> forall j | 0 <= j < 32 :: Bit(r, j) == (j == k || Bit(w, j))
  {
    Pow2Of32();
    BitwiseBound(w, Pow2(k), 32);
    var r: word := Or(w, Pow2(k), 32);
    assert k < 32 ==> forall j | 0 <= j < 32 :: Bit(r, j) == (j == k || Bit(w, j)) by {
      forall j | 0 <= j < 32 ensures Bit(r, j) == (j == k || Bit(w, j)) {
        BitwiseOps(w, Pow2(k), 32, j);
        BitOfPow2(k, j);
      }
    }
    r
  }

  /** `w & ~(1 << k)`. */
  function WithoutBit(w: word, k: nat): (r: word)
    ensures forall j | 0 <= j < 32 :: Bit(r, j) == (j != k && Bit(w, j))
  {
    Pow2Of32();
    BitwiseBound(w, Pow2(k), 32);
    var r: word := AndNot(w, Pow2(k), 32);
    assert forall j | 0 <= j < 32 :: Bit(r, j) == (j != k && Bit(w, j)) by {
      forall j | 0 <= j < 32 ensures Bit(r, j) == (j != k && Bit(w, j)) {
        BitwiseOps(w, Pow2(k), 32, j);
        BitOfPow2(k, j);
      }
    }
    r
  }

  /** The bits held by an array of words: what the bitmap denotes. */
  function BitsOf(words: seq<word>, n: nat): (bits: seq<bool>)
    requires n <= 32 * |words|
    ensures |bits| == n
  {
    seq(n, i requires 0 <= i < n => Bit(words[i / 32], i % 32))
  }

  lemma UpdateWord(words: seq<word>, n: nat, which: nat)
    requires which < n <= 32 * |words|
    ensures var (i, k) := (which / 32, which % 32);
            && BitsOf(words[i := WithBit(words[i], k)], n) == BitsOf(words, n)[which := true]
            && BitsOf(words[i := WithoutBit(words[i], k)], n) == BitsOf(words, n)[which := false]
  {
  }

  /** How many of the first `n` bits are clear. */
  function CountClear(bits: seq<bool>, n: nat): (c: nat)
    requires n <= |bits|
    ensures c <= n
  {
    if n == 0 then 0 else CountClear(bits, n - 1) + if bits[n - 1] then 0 else 1
  }

  function ClearCount(bits: seq<bool>): nat {
    CountClear(bits, |bits|)
  }

  lemma {:induction false} CountClearUpdate(bits: seq<bool>, which: nat, n: nat)
    requires which < |bits| && n <= |bits| && !bits[which]
    ensures CountClear(bits[which := true], n) == CountClear(bits, n) - if which < n then 1 else 0
  {
    if n > 0 {
      CountClearUpdate(bits, which, n - 1);
    }
  }

  lemma {:induction false} CountClearPositive(bits: seq<bool>, n: nat)
    requires n <= |bits|
    ensures CountClear(bits, n) > 0 <==> exists i :: 0 <= i < n && !bits[i]
  {
    if n > 0 {
      CountClearPositive(bits, n - 1);
    }
  }

  class BitMap {
    const numBits: nat
    var words: array<word>

    ghost predicate Valid()
      reads this
    {
      numBits <= 32 * words.Length
    }

    ghost function Bits(): seq<bool>
      requires Valid()
      reads this, words
    {
      BitsOf(words[..], numBits)
    }

    constructor (nitems: nat)
      ensures Valid() && fresh(words) && numBits == nitems
      ensures words.Length == (nitems + 31) / 32
      ensures Bits() == seq(nitems, i => false)
    {
      numBits := nitems;
      words := new word[(nitems + 31) / 32];
      new;
      var i := 0;
      while i < numBits
        invariant i <= numBits
        invariant fresh(words) && words.Length == (nitems + 31) / 32
        invariant forall k | 0 <= k < i :: !Bits()[k]
      {
        Clear(i);
        i := i + 1;
      }
    }

    method Mark(which: int)
      requires Valid() && 0 <= which < numBits
      modifies words
      ensures Bits() == old(Bits())[which := true]
    {
      UpdateWord(words[..], numBits, which);
      ghost var before := words[..];
      words[which / 32] := WithBit(words[which / 32], which % 32);
      assert words[..] == before[which / 32 := WithBit(before[which / 32], which % 32)];
    }

    method Clear(which: int)
      requires Valid() && 0 <= which < numBits
      modifies words
      ensures Bits() == old(Bits())[which := false]
    {
      UpdateWord(words[..], numBits, which);
      ghost var before := words[..];
      words[which / 32] := WithoutBit(words[which / 32], which % 32);
      assert words[..] == before[which / 32 := WithoutBit(before[which / 32], which % 32)];
    }

    method Test(which: int) returns (isSet: bool)
      requires Valid() && 0 <= which < numBits
      ensures isSet == Bits()[which]
    {
      MaskTest(words[which / 32], which % 32, 32);
      isSet := And(words[which / 32], Pow2(which % 32), 32) != 0;
    }

    /** Takes the lowest clear bit and marks it; -1 exactly when every bit is set. */
    method Find() returns (r: int)
      requires Valid()
      modifies words
      ensures -1 <= r < numBits
      ensures r == -1 <==> ClearCount(old(Bits())) == 0
      ensures r == -1 ==> Bits() == old(Bits())
      ensures r >= 0 ==>
                !old(Bits())[r] && (forall k | 0 <= k < r :: old(Bits())[k]) && Bits() == old(Bits())[r := true]
    {
      CountClearPositive(Bits(), numBits);
      var i := 0;
      while i < numBits
        invariant 0 <= i <= numBits
        invariant forall k | 0 <= k < i :: Bits()[k]
        invariant Bits() == old(Bits())
      {
        var t := Test(i);
        if !t {
          Mark(i);
          return i;
        }
        i := i + 1;
      }
      return -1;
    }

    method NumClear() returns (count: nat)
      requires Valid()
      ensures count == ClearCount(Bits())
    {
      count := 0;
      var i := 0;
      while i < numBits
        invariant 0 <= i <= numBits
        invariant count == CountClear(Bits(), i)
      {
        var t := Test(i);
        if !t {
          count := count + 1;
        }
        i := i + 1;
      }
    }
  }
}
