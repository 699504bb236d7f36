/** libfree/in_cksum.c: the Internet checksum, with its 32-bit accumulator. */
module Cksum {
  import opened Text

  const U16 := 0x1_0000
  const U32 := 0x1_0000_0000

  /** Two bytes of memory as the host reads them. */
  function WordOf(x: byte, y: byte, big: bool): nat {
    if big then x as int * 0x100 + y as int else y as int * 0x100 + x as int
  }

  /** The 16-bit words from `i` on, added up; an odd last byte is followed by a zero byte. */
  function Sum(b: seq<byte>, i: nat, big: bool): nat
    requires i <= |b|
    decreases |b| - i
  {
    if i == |b| then 0
    else if i + 1 == |b| then WordOf(b[i], 0, big)
    else WordOf(b[i], b[i + 1], big) + Sum(b, i + 2, big)
  }

  /** The two folds, truncated to 16 bits. */
  function Folded(sum: nat): nat {
    var once := sum / U16 + sum % U16;
    (once + once / U16) % U16
  }

  function Checksum(b: seq<byte>, big: bool): nat { 0xffff - Folded(Sum(b, 0, big) % U32) }

  lemma {:induction false} WrapAdd(x: nat, y: nat, z: nat)
    ensures ((x + y) % U32 + z) % U32 == (x + y + z) % U32
  {}

  lemma {:induction false} WordStep(b: seq<byte>, w: nat, big: bool, sum: nat)
    requires w + 1 < |b|
    ensures ((sum + WordOf(b[w], b[w + 1], big)) % U32 + Sum(b, w + 2, big)) % U32 == (sum + Sum(b, w, big)) % U32
  {
    hide WordOf;
    WrapAdd(sum, WordOf(b[w], b[w + 1], big), Sum(b, w + 2, big));
  }

  lemma {:induction false} SumEnd(b: seq<byte>, w: nat, big: bool)
    requires |b| - 1 <= w <= |b|
    ensures Sum(b, w, big) == if w == |b| then 0 else WordOf(b[w], 0, big)
  {}

  /** The buffer is read as words of the host's byte order. */
  method InCksum(b: seq<byte>, big: bool) returns (answer: nat)
    ensures answer == Checksum(b, big)
  {
    hide WordOf, Sum, OnesSum, Residue;
    var nleft := |b|;
    var sum: nat := 0;
    var w := 0;
    while nleft > 1
      invariant 0 <= nleft == |b| - w && sum < U32
      invariant (sum + Sum(b, w, big)) % U32 == Sum(b, 0, big) % U32
    {
      WordStep(b, w, big, sum);
      sum := (sum + WordOf(b[w], b[w + 1], big)) % U32;
      w := w + 2;
      nleft := nleft - 2;
    }
    SumEnd(b, w, big);
    if nleft == 1 {
      sum := (sum + WordOf(b[w], 0, big)) % U32;
    }
    ghost var total := sum;
    assert total == Sum(b, 0, big) % U32;
    sum := sum / U16 + sum % U16;
    sum := sum + sum / U16;
    answer := 0xffff - sum % U16;
    assert answer == 0xffff - Folded(total);
  }

  // ---------------------------------------------------------------- ones' complement arithmetic

  /** Section 1 of RFC 1071: a carry out of the top comes back in at the bottom. */
  function OnesAdd(x: nat, y: nat): (z: nat)
    requires x < U16 && y < U16
    ensures z < U16
  {
    if x + y < U16 then x + y else x + y - U16 + 1
  }

  /** The ones' complement sum of the words from `i` on. */
  function OnesSum(b: seq<byte>, i: nat, big: bool): (z: nat)
    requires i <= |b|
    ensures z < U16
    decreases |b| - i
  {
    if i == |b| then 0
    else if i + 1 == |b| then WordOf(b[i], 0, big)
    else OnesAdd(WordOf(b[i], b[i + 1], big), OnesSum(b, i + 2, big))
  }

  /** The number of 16 bits that is congruent modulo 0xffff, zero only for zero. */
  function Residue(n: nat): (r: nat)
    ensures r < U16
  {
    if n == 0 then 0 else 1 + (n - 1) % 0xffff
  }

  lemma {:induction false} ResidueAdd(x: nat, n: nat)
    requires x < U16
    ensures OnesAdd(x, Residue(n)) == Residue(x + n)
  {}

  lemma {:induction false} OnesSumIsResidue(b: seq<byte>, i: nat, big: bool)
    requires i <= |b|
    ensures OnesSum(b, i, big) == Residue(Sum(b, i, big))
    decreases |b| - i
  {
    if i + 1 < |b| {
      OnesSumIsResidue(b, i + 2, big);
      ResidueAdd(WordOf(b[i], b[i + 1], big), Sum(b, i + 2, big));
    }
  }

  /** Two folds of a 32-bit sum always suffice. */
  lemma {:induction false} TwoFoldsSuffice(sum: nat)
    requires sum < U32
    ensures Folded(sum) == Residue(sum)
  {
    var h, l := sum / U16, sum % U16;
    assert sum == h * U16 + l;
    var once := h + l;
    assert sum == once + h * 0xffff;
    SameResidue(once, h);
  }

  lemma {:induction false} SameResidue(x: nat, k: nat)
    requires x > 0 || k == 0
    ensures Residue(x + k * 0xffff) == Residue(x)
  {}

  /** With no overflow of the accumulator, the result is the complement of the ones' complement sum. */
  lemma {:induction false} ComplementOfOnesSum(b: seq<byte>, big: bool)
    requires Sum(b, 0, big) < U32
    ensures Checksum(b, big) == 0xffff - OnesSum(b, 0, big)
  {
    hide Sum, OnesSum, Folded, Residue;
    OnesSumIsResidue(b, 0, big);
    TwoFoldsSuffice(Sum(b, 0, big));
  }

  lemma {:induction false} SumBound(b: seq<byte>, i: nat, big: bool)
    requires i <= |b|
    ensures Sum(b, i, big) <= (|b| - i + 1) / 2 * 0xffff
    decreases |b| - i
  {
    if i + 1 < |b| {
      SumBound(b, i + 2, big);
      assert (|b| - i + 1) / 2 == (|b| - (i + 2) + 1) / 2 + 1;
    }
  }

  /** 131074 bytes are always short enough. */
  lemma {:induction false} ShortBuffers(b: seq<byte>, big: bool)
    requires |b| <= 131074
    ensures Sum(b, 0, big) < U32 && Checksum(b, big) == 0xffff - OnesSum(b, 0, big)
  {
    SumBound(b, 0, big);
    assert (|b| + 1) / 2 <= 65537;
    ComplementOfOnesSum(b, big);
  }

  /** For every length that fits C's int, the result is right exactly when the accumulator did not overflow. */
  lemma {:induction false} RightIffNoOverflow(b: seq<byte>, big: bool)
    requires |b| < 0x8000_0000
    ensures Checksum(b, big) == 0xffff - OnesSum(b, 0, big) <==> Sum(b, 0, big) < U32
  {
    hide Sum, OnesSum, Folded, Residue;
    var sum := Sum(b, 0, big);
    SumBound(b, 0, big);
    OnesSumIsResidue(b, 0, big);
    var q, r := sum / U32, sum % U32;
    TwoFoldsSuffice(r);
    assert (|b| - 0 + 1) / 2 <= 0x4000_0000;
    assert sum <= 0x4000_0000 * 0xffff;
    assert sum == q * U32 + r && q <= 0x4000;
    if q > 0 {
      OverflowShows(q, r);
    }
  }

  /** A carry lost at 2^32 is worth one. */
  lemma {:induction false} OverflowShows(q: nat, r: nat)
    requires 0 < q < 0xffff
    ensures Residue(q * U32 + r) != Residue(r)
  {}

  lemma {:induction false} AllOnesSum(n: nat, i: nat, big: bool)
    requires i <= n && n % 2 == 0 && i % 2 == 0
    ensures Sum(seq(n, _ => 0xff), i, big) == (n - i) / 2 * 0xffff
    decreases n - i
  {
    if i < n {
      AllOnesSum(n, i + 2, big);
      assert (n - i) / 2 == (n - (i + 2)) / 2 + 1;
    }
  }

  /** Two bytes more can be too many: 131076 bytes of ones have a wrong checksum. */
  lemma {:induction false} OverflowExample(big: bool)
    ensures var b: seq<byte> := seq(131076, _ => 0xff);
            Sum(b, 0, big) >= U32 && Checksum(b, big) != 0xffff - OnesSum(b, 0, big)
  {
    hide Sum, OnesSum, Checksum;
    AllOnesSum(131076, 0, big);
    RightIffNoOverflow(seq(131076, _ => 0xff), big);
  }

  /** The bytes 1 and 2, and 1 alone, on hosts of either byte order. */
  lemma {:induction false} SmallExamples()
    ensures Checksum([1, 2], true) == 0xfefd && Checksum([1, 2], false) == 0xfdfe
    ensures Checksum([1], true) == 0xfeff && Checksum([1], false) == 0xfffe
  {
    SumOfTwo(1, 2, true);
    SumOfTwo(1, 2, false);
  }

  /** The eight bytes of section 3 of RFC 1071. */
  lemma {:induction false} Rfc1071Example()
    ensures Checksum([0x00, 0x01, 0xf2, 0x03, 0xf4, 0xf5, 0xf6, 0xf7], true) == 0xffff - 0xddf2
  {
    var b: seq<byte> := [0x00, 0x01, 0xf2, 0x03, 0xf4, 0xf5, 0xf6, 0xf7];
    assert Sum(b, 8, true) == 0;
    assert Sum(b, 6, true) == 0xf6f7;
    assert Sum(b, 4, true) == 0xf4f5 + 0xf6f7;
    assert Sum(b, 2, true) == 0xf203 + 0xf4f5 + 0xf6f7;
    assert Sum(b, 0, true) == 0x2_ddf0;
  }

  lemma {:induction false} SumOfTwo(x: byte, y: byte, big: bool)
    ensures Sum([x, y], 0, big) == WordOf(x, y, big)
  {
    assert Sum([x, y], 2, big) == 0;
  }

  // ---------------------------------------------------------------- use

  lemma {:induction false} SumUpdate(b: seq<byte>, i: nat, k: nat, x: byte, y: byte, big: bool)
    requires i <= |b| && k + 1 < |b| && i % 2 == k % 2
    ensures Sum(b[k := x][k + 1 := y], i, big)
         == Sum(b, i, big) + if i <= k then WordOf(x, y, big) - WordOf(b[k], b[k + 1], big) else 0
    decreases |b| - i
  {
    hide WordOf;
    if i + 1 < |b| {
      SumUpdate(b, i + 2, k, x, y, big);
    }
  }

  /** A packet with its checksum in a word that was zero checks out: computing again gives zero. */
  lemma {:induction false} StoredChecksumVerifies(b: seq<byte>, k: nat, x: byte, y: byte, big: bool)
    requires k % 2 == 0 && k + 1 < |b| && b[k] == 0 && b[k + 1] == 0
    requires WordOf(x, y, big) == Checksum(b, big)
    requires Sum(b[k := x][k + 1 := y], 0, big) < U32
    ensures Checksum(b[k := x][k + 1 := y], big) == 0
  {
    hide Folded, Residue, Sum;
    SumUpdate(b, 0, k, x, y, big);
    var s, c := Sum(b, 0, big), Checksum(b, big);
    TwoFoldsSuffice(s);
    TwoFoldsSuffice(s + c);
    AddComplement(s);
  }

  lemma {:induction false} AddComplement(s: nat)
    ensures Residue(s + (0xffff - Residue(s))) == 0xffff
  {}

  /** A word with its two bytes exchanged. */
  function Swap(w: nat): nat
    requires w < U16
  {
    w % 0x100 * 0x100 + w / 0x100
  }

  /** Exchanging the bytes of a 16-bit number multiplies it by 256, modulo 0xffff. */
  lemma {:induction false} SwapResidue(n: nat, m: nat)
    requires (m - 256 * n) % 0xffff == 0 && (m == 0 <==> n == 0)
    ensures Residue(m) == Swap(Residue(n))
  {
    if n > 0 {
      var r := Residue(n);
      var h, l := r / 0x100, r % 0x100;
      assert 256 * r == Swap(r) + h * 0xffff;
      var a := (n - 1) / 0xffff;
      assert n == r + a * 0xffff;
      var d := (m - 256 * n) / 0xffff;
      assert m == 256 * n + d * 0xffff;
      assert m == Swap(r) + (h + 256 * a + d) * 0xffff;
      ResidueOf(m, Swap(r), h + 256 * a + d);
    }
  }

  lemma {:induction false} ResidueOf(m: nat, r: nat, k: int)
    requires m > 0 && 0 < r < U16 && m == r + k * 0xffff
    ensures Residue(m) == r
  {}

  lemma {:induction false} AddMultiple(x: int, k: int)
    requires x % 0xffff == 0
    ensures (x + k * 0xffff) % 0xffff == 0
  {}

  /** Reading the same bytes in the other order multiplies the sum by 256, modulo 0xffff. */
  lemma {:induction false} SumSwapped(b: seq<byte>, i: nat)
    requires i <= |b|
    ensures (Sum(b, i, false) - 256 * Sum(b, i, true)) % 0xffff == 0
    ensures Sum(b, i, false) == 0 <==> Sum(b, i, true) == 0
    decreases |b| - i
  {
    if i + 1 < |b| {
      SumSwapped(b, i + 2);
      AddMultiple(Sum(b, i + 2, false) - 256 * Sum(b, i + 2, true), -(b[i] as int));
    } else if i < |b| {
      AddMultiple(0, -(b[i] as int));
    }
  }

  /** Section 2 of RFC 1071: the checksum's bytes in memory do not depend on the host's byte order. */
  lemma {:induction false} ByteOrderIndependent(b: seq<byte>)
    requires Sum(b, 0, true) < U32 && Sum(b, 0, false) < U32
    ensures Checksum(b, true) < U16 && Checksum(b, false) == Swap(Checksum(b, true))
  {
    hide Folded, Residue, Swap, Sum;
    TwoFoldsSuffice(Sum(b, 0, true));
    TwoFoldsSuffice(Sum(b, 0, false));
    SumSwapped(b, 0);
    SwapResidue(Sum(b, 0, true), Sum(b, 0, false));
    SwapComplement(Residue(Sum(b, 0, true)));
  }

  lemma {:induction false} SwapComplement(r: nat)
    requires r < U16
    ensures 0xffff - Swap(r) == Swap(0xffff - r)
  {
    var h, l := r / 0x100, r % 0x100;
    Halves(h, l);
    Halves(0xff - h, 0xff - l);
    assert 0xffff - r == (0xff - h) * 0x100 + (0xff - l);
  }

  lemma {:induction false} Halves(h: nat, l: nat)
    requires h < 0x100 && l < 0x100
    ensures Swap(h * 0x100 + l) == l * 0x100 + h < U16
  {}

  /** The bytes of each word exchanged. */
  function Swapped(b: seq<byte>): (s: seq<byte>)
    requires |b| % 2 == 0
    ensures |s| == |b|
  {
    seq(|b|, i requires 0 <= i < |b| => if i % 2 == 0 then b[i + 1] else b[i - 1])
  }

  lemma {:induction false} SwappedSum(b: seq<byte>, i: nat, big: bool)
    requires |b| % 2 == 0 && i <= |b| && i % 2 == 0
    ensures Sum(Swapped(b), i, big) == Sum(b, i, !big)
    decreases |b| - i
  {
    if i + 1 < |b| {
      SwappedSum(b, i + 2, big);
    }
  }

  /** Exchanging the bytes of every word exchanges the bytes of the result. */
  lemma {:induction false} SwappedWordsSwapResult(b: seq<byte>, big: bool)
    requires |b| % 2 == 0 && Sum(b, 0, true) < U32 && Sum(b, 0, false) < U32
    ensures Checksum(b, big) < U16 && Checksum(Swapped(b), big) == Swap(Checksum(b, big))
  {
    SwappedSum(b, 0, big);
    ByteOrderIndependent(b);
    SwapTwice(Checksum(b, true));
  }

  lemma {:induction false} SwapTwice(w: nat)
    requires w < U16
    ensures Swap(w) < U16 && Swap(Swap(w)) == w
  {
    var h, l := w / 0x100, w % 0x100;
    assert w == h * 0x100 + l;
    Halves(h, l);
    Halves(l, h);
  }
}
