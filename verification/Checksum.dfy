/** The Internet checksum of inf22-1/main.c, defined in section 1 of RFC 1071, and the echo request that
    carries it. The code sums native 16-bit words into a 32-bit accumulator, so the byte order of the host
    is a parameter. */
module Checksum {
  import opened Bytes
  import opened Sums

  type Word = x: int | 0 <= x < 0x1_0000

  /** One more than the largest value of the 32-bit accumulator. */
  const WRAP: int := 0x1_0000_0000

  function WordAt(first: Byte, second: Byte, little: bool): Word {
    if little then first + 256 * second else 256 * first + second
  }

  /** What the loop adds up: the words of the buffer, and an odd last byte as it is. */
  function Words(buf: seq<Byte>, little: bool): seq<Word> {
    if buf == [] then []
    else if |buf| == 1 then [buf[0] as Word]
    else [WordAt(buf[0], buf[1], little)] + Words(buf[2..], little)
  }

  /** Addition of 16-bit words in one's complement: the carry comes round to the other end. */
  function OnesAdd(a: Word, b: Word): Word {
    if a + b < 0x1_0000 then a + b else a + b - 0xFFFF
  }

  function OnesSum(words: seq<Word>): Word {
    if words == [] then 0 else OnesAdd(words[0], OnesSum(words[1..]))
  }

  /** The two folds and the complement, with the shifts and masks of 32-bit arithmetic. */
  function Folded(sum: int): Word
    requires 0 <= sum < WRAP
  {
    var once := sum / 0x1_0000 + sum % 0x1_0000;
    var twice := (once + once / 0x1_0000) % WRAP;
    (WRAP - 1 - twice) % 0x1_0000
  }

  /** The one's-complement representative of a total. */
  function Canon(n: nat): Word {
    if n == 0 then 0 else 1 + (n - 1) % 0xFFFF
  }

  // ---------------------------------------------------------------- arithmetic modulo 65535

  lemma CanonSplit(q: nat, r: nat)
    requires 0 < r <= 0xFFFF
    ensures Canon(0xFFFF * q + r) == r
  {
  }

  lemma CanonOf(n: nat) returns (q: nat)
    ensures n == 0xFFFF * q + Canon(n)
  {
    q := if n == 0 then 0 else (n - 1) / 0xFFFF;
  }

  lemma CanonShift(n: nat, q: nat)
    requires 0 < n
    ensures Canon(n + 0xFFFF * q) == Canon(n)
  {
    var p := CanonOf(n);
    CanonSplit(p + q, Canon(n));
  }

  lemma CanonAdd(a: nat, n: nat)
    ensures Canon(a + Canon(n)) == Canon(a + n)
  {
    var q := CanonOf(n);
    if a + Canon(n) != 0 {
      CanonShift(a + Canon(n), q);
    }
  }

  lemma OnesAddIsCanon(a: Word, b: Word)
    ensures OnesAdd(a, b) == Canon(a + b)
  {
  }

  lemma {:induction false} OnesSumIsCanon(words: seq<Word>)
    ensures OnesSum(words) == Canon(Sum(words))
  {
    if words != [] {
      OnesSumIsCanon(words[1..]);
      CanonAdd(words[0], Sum(words[1..]));
      OnesAddIsCanon(words[0], OnesSum(words[1..]));
    }
  }

  /** What both folds come to, for the two halves of the sum. */
  function HalvesAdded(h: Word, l: Word): Word {
    if h + l <= 0xFFFF then h + l else h + l - 0xFFFF
  }

  lemma Halves(h: int, l: Word)
    ensures (0x1_0000 * h + l) / 0x1_0000 == h && (0x1_0000 * h + l) % 0x1_0000 == l
  {
  }

  lemma FoldedHalves(h: Word, l: Word)
    ensures Folded(0x1_0000 * h + l) == 0xFFFF - HalvesAdded(h, l)
  {
    Halves(h, l);
    var once := h + l;
    var carry := if once <= 0xFFFF then 0 else 1;
    Halves(carry, once - 0x1_0000 * carry);
    var twice := once + carry;
    assert twice % WRAP == twice;
    assert WRAP - 1 - twice == 0x1_0000 * (0xFFFF - carry) + (0xFFFF - (twice - 0x1_0000 * carry));
    Halves(0xFFFF - carry, 0xFFFF - (twice - 0x1_0000 * carry));
  }

  lemma CanonHalves(h: Word, l: Word)
    ensures Canon(0x1_0000 * h + l) == HalvesAdded(h, l)
  {
    if h + l == 0 {
    } else if h + l <= 0xFFFF {
      CanonSplit(h, h + l);
    } else {
      CanonSplit(h + 1, h + l - 0xFFFF);
    }
  }

  /** Two folds suffice for every 32-bit sum. */
  lemma FoldedIsCanon(sum: nat)
    requires sum < WRAP
    ensures Folded(sum) == 0xFFFF - Canon(sum)
  {
    var h, l := sum / 0x1_0000, sum % 0x1_0000;
    assert sum == 0x1_0000 * h + l;
    FoldedHalves(h, l);
    CanonHalves(h, l);
  }

  lemma FoldedModIsCanon(sum: nat)
    requires sum < WRAP
    ensures Folded(sum % WRAP) == 0xFFFF - Canon(sum)
  {
    assert sum % WRAP == sum;
    FoldedIsCanon(sum);
  }

  // ---------------------------------------------------------------- the loop

  lemma DropOfTake(buf: seq<Byte>, n: nat, m: nat)
    requires n <= m <= |buf|
    ensures buf[..m][n..] == buf[n..][..m - n]
  {
    var x, y := buf[..m][n..], buf[n..][..m - n];
    assert |x| == |y| && forall i :: 0 <= i < |x| ==> x[i] == y[i];
  }

  lemma {:induction false} WordsSnoc(buf: seq<Byte>, at: nat, little: bool)
    requires at % 2 == 0 && at + 1 < |buf|
    ensures Words(buf[..at + 2], little) == Words(buf[..at], little) + [WordAt(buf[at], buf[at + 1], little)]
    decreases at
  {
    if at == 0 {
      assert buf[..2] == [buf[0], buf[1]] && buf[..2][2..] == [];
    } else {
      WordsSnoc(buf[2..], at - 2, little);
      DropOfTake(buf, 2, at + 2);
      DropOfTake(buf, 2, at);
    }
  }

  lemma {:induction false} WordsSnocOdd(buf: seq<Byte>, little: bool)
    requires |buf| % 2 == 1
    ensures Words(buf, little) == Words(buf[..|buf| - 1], little) + [buf[|buf| - 1] as Word]
    decreases |buf|
  {
    if |buf| > 1 {
      WordsSnocOdd(buf[2..], little);
      DropOfTake(buf, 2, |buf| - 1);
    }
  }

  lemma TotalStep(buf: seq<Byte>, at: nat, little: bool)
    requires at % 2 == 0 && at + 1 < |buf|
    ensures Sum(Words(buf[..at + 2], little))
         == Sum(Words(buf[..at], little)) + WordAt(buf[at], buf[at + 1], little)
  {
    WordsSnoc(buf, at, little);
    SumSnoc(Words(buf[..at], little), WordAt(buf[at], buf[at + 1], little));
  }

  lemma TotalOdd(buf: seq<Byte>, little: bool)
    requires |buf| % 2 == 1
    ensures Sum(Words(buf, little)) == Sum(Words(buf[..|buf| - 1], little)) + buf[|buf| - 1]
  {
    WordsSnocOdd(buf, little);
    SumSnoc(Words(buf[..|buf| - 1], little), buf[|buf| - 1] as Word);
  }

  /** One addition to the 32-bit accumulator. */
  function Accumulated(sum: int, w: int): (r: int)
    requires 0 <= sum < WRAP && 0 <= w
    ensures 0 <= r < WRAP
    ensures forall n: nat :: sum == n % WRAP ==> r == (n + w) % WRAP
  {
    (sum + w) % WRAP
  }

  lemma FoldedFits(buf: seq<Byte>, little: bool)
    requires Sum(Words(buf, little)) < WRAP
    ensures Folded(Sum(Words(buf, little)) % WRAP) == 0xFFFF - OnesSum(Words(buf, little))
  {
    FoldedModIsCanon(Sum(Words(buf, little)));
    OnesSumIsCanon(Words(buf, little));
  }

  /** `checksum`: the loop over the words with its wrapping accumulator, then the folds. */
  method ChecksumOf(b: array<Byte>, little: bool) returns (result: Word)
    ensures result == Folded(Sum(Words(b[..], little)) % WRAP)
    ensures Sum(Words(b[..], little)) < WRAP ==> result == 0xFFFF - OnesSum(Words(b[..], little))
  {
    ghost var buf := b[..];
    var len, at, sum := b.Length, 0, 0;
    while len > 1
      invariant 0 <= len && at + len == |buf| && at % 2 == 0
      invariant 0 <= sum < WRAP && sum == Sum(Words(buf[..at], little)) % WRAP
      decreases len
    {
      TotalStep(buf, at, little);
      sum := Accumulated(sum, WordAt(b[at], b[at + 1], little));
      at := at + 2;
      len := len - 2;
    }
    if len == 1 {
      TotalOdd(buf, little);
      sum := Accumulated(sum, b[at]);
    } else {
      assert buf[..at] == buf;
    }
    result := Folded(sum);
    if Sum(Words(buf, little)) < WRAP {
      FoldedFits(buf, little);
    }
  }

  // ---------------------------------------------------------------- when it is the RFC's checksum

  function Checksum(buf: seq<Byte>, little: bool): Word {
    Folded(Sum(Words(buf, little)) % WRAP)
  }

  lemma {:induction false} TotalBound(words: seq<Word>)
    ensures Sum(words) <= 0xFFFF * |words|
  {
    if words != [] {
      TotalBound(words[1..]);
    }
  }

  lemma {:induction false} WordsLength(buf: seq<Byte>, little: bool)
    ensures |Words(buf, little)| == (|buf| + 1) / 2
    decreases |buf|
  {
    if 1 < |buf| {
      WordsLength(buf[2..], little);
    }
  }

  /** 65537 words are the most that never overflow the accumulator. */
  lemma ShortBuffersFit(buf: seq<Byte>, little: bool)
    requires |buf| <= 2 * 65537
    ensures Sum(Words(buf, little)) < WRAP
  {
    WordsLength(buf, little);
    TotalBound(Words(buf, little));
  }

  lemma NotMultiple(d: int, k: int)
    requires 0 < d < 0xFFFF
    ensures d != 0xFFFF * k
  {
  }

  lemma DifferByLess(n: nat, d: nat)
    requires 0 < d < 0xFFFF
    ensures Canon(n) != Canon(n + d)
  {
    var i := CanonOf(n);
    var j := CanonOf(n + d);
    NotMultiple(d, j - i);
  }

  lemma WrappedDiffers(total: nat)
    requires WRAP <= total <= 0xFFFF * 0x4000_0000
    ensures Canon(total % WRAP) != Canon(total)
  {
    var q, r := total / WRAP, total % WRAP;
    assert total == 0xFFFF * (65537 * q) + (q + r);
    assert 0 < q < 0x4000;
    CanonShift(q + r, 65537 * q);
    DifferByLess(r, q);
  }

  lemma ExactIff(total: nat)
    requires total <= 0xFFFF * 0x4000_0000
    ensures Folded(total % WRAP) == 0xFFFF - Canon(total) <==> total < WRAP
  {
    FoldedIsCanon(total % WRAP);
    if WRAP <= total {
      WrappedDiffers(total);
    }
  }

  /** A sum that wraps is never right again, for any length that an `int` can hold. */
  lemma ChecksumExactIff(buf: seq<Byte>, little: bool)
    requires |buf| < 0x8000_0000
    ensures Checksum(buf, little) == 0xFFFF - OnesSum(Words(buf, little)) <==> Sum(Words(buf, little)) < WRAP
  {
    WordsLength(buf, little);
    TotalBound(Words(buf, little));
    OnesSumIsCanon(Words(buf, little));
    ExactIff(Sum(Words(buf, little)));
  }

  lemma TotalFirst(buf: seq<Byte>, little: bool)
    requires 2 <= |buf|
    ensures Sum(Words(buf, little)) == WordAt(buf[0], buf[1], little) + Sum(Words(buf[2..], little))
  {
    assert Words(buf, little)[1..] == Words(buf[2..], little);
  }

  lemma {:induction false} TotalOfOnes(buf: seq<Byte>, little: bool)
    requires forall i :: 0 <= i < |buf| ==> buf[i] == 255
    ensures Sum(Words(buf, little)) == 0xFFFF * (|buf| / 2) + 255 * (|buf| % 2)
    decreases |buf|
  {
    if 2 <= |buf| {
      TotalOfOnes(buf[2..], little);
      TotalFirst(buf, little);
    }
  }

  /** The code computes the RFC's checksum of every buffer of `n` bytes exactly up to 65537 words; from the
      next byte on, a buffer of ones wraps. */
  lemma ExactForLengthIff(n: nat, little: bool)
    requires n < 0x8000_0000
    ensures (forall buf :: |buf| == n ==> Checksum(buf, little) == 0xFFFF - OnesSum(Words(buf, little)))
            <==> n <= 2 * 65537
  {
    if n <= 2 * 65537 {
      forall buf | |buf| == n ensures Checksum(buf, little) == 0xFFFF - OnesSum(Words(buf, little)) {
        ShortBuffersFit(buf, little);
        ChecksumExactIff(buf, little);
      }
    } else {
      var ones: seq<Byte> := seq(n, _ => 255);
      TotalOfOnes(ones, little);
      ChecksumExactIff(ones, little);
      assert |ones| == n;
    }
  }

  // ---------------------------------------------------------------- order of words and of bytes

  lemma {:induction false} TotalOfMultiset(xs: seq<Word>, ys: seq<Word>)
    requires multiset(xs) == multiset(ys)
    ensures Sum(xs) == Sum(ys)
    decreases |xs|
  {
    if xs == [] {
      assert |multiset(ys)| == 0;
    } else {
      assert xs[0] in multiset(ys);
      var i :| 0 <= i < |ys| && ys[i] == xs[0];
      var rest := ys[..i] + ys[i + 1..];
      assert ys == ys[..i] + [ys[i]] + ys[i + 1..];
      assert xs == [xs[0]] + xs[1..];
      assert multiset(xs[1..]) == multiset(xs) - multiset{xs[0]};
      assert multiset(rest) == multiset(ys) - multiset{ys[i]};
      TotalOfMultiset(xs[1..], rest);
      SumAppend(ys[..i], ys[i + 1..]);
      SumAppend(ys[..i] + [ys[i]], ys[i + 1..]);
      SumSnoc(ys[..i], ys[i]);
    }
  }

  /** The checksum does not depend on the order of the words. */
  lemma OrderIndependent(a: seq<Byte>, b: seq<Byte>, little: bool)
    requires multiset(Words(a, little)) == multiset(Words(b, little))
    ensures Checksum(a, little) == Checksum(b, little) && OnesSum(Words(a, little)) == OnesSum(Words(b, little))
  {
    TotalOfMultiset(Words(a, little), Words(b, little));
    OnesSumIsCanon(Words(a, little));
    OnesSumIsCanon(Words(b, little));
  }

  lemma OnesSumFirst(buf: seq<Byte>, little: bool)
    requires 2 <= |buf|
    ensures OnesSum(Words(buf, little)) == OnesAdd(WordAt(buf[0], buf[1], little), OnesSum(Words(buf[2..], little)))
  {
    assert Words(buf, little)[1..] == Words(buf[2..], little);
  }

  function Swap(w: Word): Word { w % 256 * 256 + w / 256 }

  lemma SwapIsCanon(w: Word)
    ensures Swap(w) == Canon(256 * w)
  {
    assert 256 * w == 0xFFFF * (w / 256) + Swap(w);
    if w != 0 {
      CanonSplit(w / 256, Swap(w));
    }
  }

  lemma CanonTimes(n: nat, k: nat)
    requires 0 < k
    ensures Canon(k * Canon(n)) == Canon(k * n)
  {
    var q := CanonOf(n);
    assert k * n == 0xFFFF * (k * q) + k * Canon(n);
    if n != 0 {
      assert 0 < k * Canon(n);
      CanonShift(k * Canon(n), k * q);
    }
  }

  lemma CanonSum(a: nat, b: nat)
    ensures Canon(Canon(a) + Canon(b)) == Canon(a + b)
  {
    CanonAdd(a, b);
    CanonAdd(Canon(b), a);
  }

  lemma SwapAdd(a: Word, b: Word)
    ensures Swap(OnesAdd(a, b)) == OnesAdd(Swap(a), Swap(b))
  {
    SwapIsCanon(a);
    SwapIsCanon(b);
    SwapIsCanon(OnesAdd(a, b));
    OnesAddIsCanon(a, b);
    CanonTimes(a + b, 256);
    CanonSum(256 * a, 256 * b);
    OnesAddIsCanon(Swap(a), Swap(b));
  }

  lemma SwapOf(high: Byte, low: Byte)
    ensures Swap(256 * high + low) == 256 * low + high
  {
  }

  lemma SwapWordAt(x: Byte, y: Byte, little: bool)
    ensures WordAt(x, y, true) == Swap(WordAt(x, y, false))
    ensures WordAt(y, x, little) == Swap(WordAt(x, y, little))
  {
    SwapOf(x, y);
    SwapOf(y, x);
  }

  lemma SwapComplement(w: Word)
    ensures Swap(0xFFFF - w) == 0xFFFF - Swap(w)
  {
    var w0, w1 := w % 256, w / 256;
    assert 0xFFFF - w == 256 * (255 - w1) + (255 - w0);
  }

  lemma ComplementsSwapped(c: Word, d: Word, w: Word, v: Word)
    requires c == 0xFFFF - w && d == 0xFFFF - v && v == Swap(w)
    ensures d == Swap(c)
  {
    SwapComplement(w);
  }

  /** The two bytes that a host stores for a word. */
  function Stored(w: Word, little: bool): (Byte, Byte) {
    if little then (w % 256, w / 256) else (w / 256, w % 256)
  }

  lemma StoredSwap(w: Word)
    ensures Stored(Swap(w), true) == Stored(w, false)
  {
  }

  lemma {:induction false} OtherHostSwaps(buf: seq<Byte>)
    requires |buf| % 2 == 0
    ensures OnesSum(Words(buf, true)) == Swap(OnesSum(Words(buf, false)))
    decreases |buf|
  {
    if buf != [] {
      OtherHostSwaps(buf[2..]);
      SwapWordAt(buf[0], buf[1], true);
      OnesSumFirst(buf, true);
      OnesSumFirst(buf, false);
      SwapAdd(WordAt(buf[0], buf[1], false), OnesSum(Words(buf[2..], false)));
    }
  }

  /** Hosts of either byte order store the same checksum for an even number of bytes. */
  lemma HostIndependent(buf: seq<Byte>)
    requires |buf| % 2 == 0 && Sum(Words(buf, true)) < WRAP && Sum(Words(buf, false)) < WRAP
    ensures Stored(Checksum(buf, true), true) == Stored(Checksum(buf, false), false)
  {
    FoldedFits(buf, true);
    FoldedFits(buf, false);
    OtherHostSwaps(buf);
    ComplementsSwapped(Checksum(buf, false), Checksum(buf, true),
                       OnesSum(Words(buf, false)), OnesSum(Words(buf, true)));
    StoredSwap(Checksum(buf, false));
  }

  function BytesSwapped(buf: seq<Byte>): (r: seq<Byte>)
    ensures |r| == |buf|
  {
    if |buf| < 2 then buf else [buf[1], buf[0]] + BytesSwapped(buf[2..])
  }

  lemma {:induction false} SwappedWords(buf: seq<Byte>, little: bool)
    requires |buf| % 2 == 0
    ensures OnesSum(Words(BytesSwapped(buf), little)) == Swap(OnesSum(Words(buf, little)))
    decreases |buf|
  {
    if buf != [] {
      SwappedWords(buf[2..], little);
      assert BytesSwapped(buf)[2..] == BytesSwapped(buf[2..]);
      SwapWordAt(buf[0], buf[1], little);
      OnesSumFirst(buf, little);
      OnesSumFirst(BytesSwapped(buf), little);
      SwapAdd(WordAt(buf[0], buf[1], little), OnesSum(Words(buf[2..], little)));
    }
  }

  /** Swapping the bytes of every word swaps the bytes of the checksum. */
  lemma SwappedBuffer(buf: seq<Byte>, little: bool)
    requires |buf| % 2 == 0 && Sum(Words(buf, little)) < WRAP && Sum(Words(BytesSwapped(buf), little)) < WRAP
    ensures Checksum(BytesSwapped(buf), little) == Swap(Checksum(buf, little))
  {
    SwappedWords(buf, little);
    FoldedFits(buf, little);
    FoldedFits(BytesSwapped(buf), little);
    ComplementsSwapped(Checksum(buf, little), Checksum(BytesSwapped(buf), little),
                       OnesSum(Words(buf, little)), OnesSum(Words(BytesSwapped(buf), little)));
  }

  // ---------------------------------------------------------------- an odd last byte

  lemma ShiftedByteDiffers(n: nat, last: Byte)
    requires last != 0
    ensures Canon(n + last) != Canon(n + 256 * last)
  {
    DifferByLess(n + last, 255 * last);
  }

  lemma OddLengthSums(buf: seq<Byte>, little: bool)
    requires |buf| % 2 == 1
    ensures OnesSum(Words(buf, little)) == OnesSum(Words(buf + [0], little))
            <==> little || buf[|buf| - 1] == 0
  {
    var even, last := buf[..|buf| - 1], buf[|buf| - 1];
    var padded := buf + [0];
    WordsSnocOdd(buf, little);
    WordsSnoc(padded, |buf| - 1, little);
    assert padded[..|buf| + 1] == padded && padded[..|buf| - 1] == even;
    SumSnoc(Words(even, little), last as Word);
    SumSnoc(Words(even, little), WordAt(last, 0, little));
    OnesSumIsCanon(Words(buf, little));
    OnesSumIsCanon(Words(padded, little));
    if !little && last != 0 {
      ShiftedByteDiffers(Sum(Words(even, little)), last);
    }
  }

  /** Section 4.1 of RFC 1071 pads an odd buffer with a zero byte. Adding the last byte as it is gives the
      checksum of the padded buffer on little-endian hosts, and on others only if that byte is zero. */
  lemma OddLengthIsPaddedIff(buf: seq<Byte>, little: bool)
    requires |buf| % 2 == 1 && Sum(Words(buf, little)) < WRAP && Sum(Words(buf + [0], little)) < WRAP
    ensures Checksum(buf, little) == Checksum(buf + [0], little) <==> little || buf[|buf| - 1] == 0
  {
    OddLengthSums(buf, little);
    FoldedFits(buf, little);
    FoldedFits(buf + [0], little);
  }

  // ---------------------------------------------------------------- the round trip

  /** The buffer with `w` stored as the native word at `at`. */
  function StoreAt(buf: seq<Byte>, at: nat, w: Word, little: bool): (r: seq<Byte>)
    requires at + 1 < |buf|
    ensures |r| == |buf|
  {
    buf[at := Stored(w, little).0][at + 1 := Stored(w, little).1]
  }

  lemma StoredWord(w: Word, little: bool)
    ensures WordAt(Stored(w, little).0, Stored(w, little).1, little) == w
  {
  }

  lemma {:induction false} TotalOfStored(buf: seq<Byte>, at: nat, w: Word, little: bool)
    requires at % 2 == 0 && at + 1 < |buf| && buf[at] == 0 && buf[at + 1] == 0
    ensures Sum(Words(StoreAt(buf, at, w, little), little)) == Sum(Words(buf, little)) + w
    decreases at
  {
    var r := StoreAt(buf, at, w, little);
    TotalFirst(buf, little);
    TotalFirst(r, little);
    if at == 0 {
      StoredWord(w, little);
      assert r[2..] == buf[2..];
    } else {
      TotalOfStored(buf[2..], at - 2, w, little);
      assert r[2..] == StoreAt(buf[2..], at - 2, w, little);
    }
  }

  lemma CompletesIff(n: nat, w: Word)
    ensures Canon(n + w) == 0xFFFF <==> w == 0xFFFF - Canon(n) || (Canon(n) == 0xFFFF && w == 0xFFFF)
  {
    CanonAdd(w, n);
    OnesAddIsCanon(w, Canon(n));
  }

  lemma ZeroIffOnes(sum: nat)
    requires sum < WRAP
    ensures Folded(sum) == 0 <==> Canon(sum) == 0xFFFF
  {
    FoldedIsCanon(sum);
  }

  /** Completing a 32-bit sum never wraps it. */
  lemma CompletingFits(n: nat)
    requires n < WRAP
    ensures n + (0xFFFF - Canon(n)) < WRAP
  {
    var q := CanonOf(n);
    assert n != 0 ==> q <= 65536;
  }

  lemma WrappedSum(total: nat, w: Word)
    ensures (total + w) % WRAP == if total % WRAP + w < WRAP then total % WRAP + w else total % WRAP + w - WRAP
  {
  }

  lemma SmallSum(n: nat)
    requires n < 0xFFFF
    ensures Canon(n) == n
  {
  }

  /** Adding `w` to the wrapped sum makes the checksum zero in exactly these cases. */
  lemma CompletesWrappedIff(total: nat, w: Word)
    ensures Folded((total + w) % WRAP) == 0
            <==> || w == Folded(total % WRAP)
                 || (Folded(total % WRAP) == 0 && w == 0xFFFF && total % WRAP != WRAP - 1)
  {
    var n := total % WRAP;
    WrappedSum(total, w);
    FoldedIsCanon(n);
    CompletingFits(n);
    CompletesIff(n, w);
    ZeroIffOnes((total + w) % WRAP);
    if WRAP <= n + w {
      SmallSum(n + w - WRAP);
    }
  }

  /** Storing the checksum over a zero word makes the checksum of the whole packet zero, at any length. */
  lemma RoundTrip(buf: seq<Byte>, at: nat, little: bool)
    requires at % 2 == 0 && at + 1 < |buf| && buf[at] == 0 && buf[at + 1] == 0
    ensures Checksum(StoreAt(buf, at, Checksum(buf, little), little), little) == 0
  {
    TotalOfStored(buf, at, Checksum(buf, little), little);
    CompletesWrappedIff(Sum(Words(buf, little)), Checksum(buf, little));
  }

  /** No other word does, except that both zeros of one's complement do when the rest adds up to zero
      without being all zeros and leaves the accumulator room for 65535 more. */
  lemma RoundTripUnique(buf: seq<Byte>, at: nat, w: Word, little: bool)
    requires at % 2 == 0 && at + 1 < |buf| && buf[at] == 0 && buf[at + 1] == 0
    ensures Checksum(StoreAt(buf, at, w, little), little) == 0
            <==> || w == Checksum(buf, little)
                 || (Checksum(buf, little) == 0 && w == 0xFFFF && Sum(Words(buf, little)) % WRAP != WRAP - 1)
  {
    TotalOfStored(buf, at, w, little);
    CompletesWrappedIff(Sum(Words(buf, little)), w);
  }

  // ---------------------------------------------------------------- the echo request

  const PING_PKT_S: nat := 64
  const ICMP_ECHO: Byte := 8

  /** Stores the checksum of a packet whose checksum field, at offset 2, is still zero. */
  method StoreChecksum(packet: array<Byte>, little: bool)
    requires 4 <= packet.Length && packet[2] == 0 && packet[3] == 0
    modifies packet
    ensures Checksum(packet[..], little) == 0
    ensures packet[..] == StoreAt(old(packet[..]), 2, Checksum(old(packet[..]), little), little)
  {
    var sum := ChecksumOf(packet, little);
    ghost var buf := packet[..];
    var stored := Stored(sum, little);
    packet[2], packet[3] := stored.0, stored.1;
    assert packet[..] == StoreAt(buf, 2, sum, little);
    RoundTrip(buf, 2, little);
  }

  method FillMessage(packet: array<Byte>)
    requires packet.Length == PING_PKT_S
    modifies packet
    ensures forall i :: 0 <= i < 8 ==> packet[i] == old(packet[i])
    ensures forall i :: 8 <= i < 63 ==> packet[i] == i - 8 + 48
    ensures packet[63] == 0
  {
    var i := 0;
    while i < 55
      invariant 0 <= i <= 55
      invariant forall j :: 0 <= j < 8 ==> packet[j] == old(packet[j])
      invariant forall j :: 8 <= j < 8 + i ==> packet[j] == j - 8 + 48
    {
      packet[8 + i] := i + 48;
      i := i + 1;
    }
    packet[8 + i] := 0;
  }

  /** The packet that `send_ping` builds: type, code, checksum, identifier, sequence and message. */
  method BuildPacket(pid: nat, count: nat, little: bool) returns (packet: array<Byte>)
    ensures fresh(packet) && packet.Length == 64
    ensures packet[0] == 8 && packet[1] == 0
    ensures WordAt(packet[4], packet[5], little) == pid % 0x1_0000
    ensures WordAt(packet[6], packet[7], little) == count % 0x1_0000
    ensures forall i :: 8 <= i < 63 ==> packet[i] == i - 8 + 48
    ensures packet[63] == 0
    ensures Checksum(packet[..], little) == 0
  {
    packet := new Byte[PING_PKT_S](_ => 0);
    var id := Stored(pid % 0x1_0000, little);
    var sequence := Stored(count % 0x1_0000, little);
    StoredWord(pid % 0x1_0000, little);
    StoredWord(count % 0x1_0000, little);
    packet[0] := ICMP_ECHO;
    packet[4], packet[5] := id.0, id.1;
    FillMessage(packet);
    packet[6], packet[7] := sequence.0, sequence.1;
    ghost var buf := packet[..];
    StoreChecksum(packet, little);
    assert forall i :: 0 <= i < PING_PKT_S && i != 2 && i != 3 ==> packet[..][i] == buf[i];
  }
}
