/** Sums over sequences, and the one fact about multiples that several modules need. */
module Sums {

  function Sum(xs: seq<int>): (r: int)
    ensures (forall i :: 0 <= i < |xs| ==> 0 <= xs[i]) ==> 0 <= r
  {
    if xs == [] then 0 else xs[0] + Sum(xs[1..])
  }

  lemma {:induction false} SumUpdate(xs: seq<int>, i: nat, x: int)
    requires i < |xs|
    ensures Sum(xs[i := x]) == Sum(xs) - xs[i] + x
  {
    if i == 0 {
      assert xs[i := x][1..] == xs[1..];
    } else {
      SumUpdate(xs[1..], i - 1, x);
      assert xs[i := x][1..] == xs[1..][i - 1 := x];
    }
  }

  lemma {:induction false} SumAppend(xs: seq<int>, ys: seq<int>)
    ensures Sum(xs + ys) == Sum(xs) + Sum(ys)
  {
    if xs == [] {
      assert xs + ys == ys;
    } else {
      assert (xs + ys)[1..] == xs[1..] + ys;
      SumAppend(xs[1..], ys);
    }
  }

  lemma SumSnoc(xs: seq<int>, x: int)
    ensures Sum(xs + [x]) == Sum(xs) + x
  {
    SumAppend(xs, [x]);
    assert Sum([x]) == x + Sum([]);
  }

  lemma SumPrefix(xs: seq<int>, n: nat)
    requires n < |xs|
    ensures Sum(xs[..n + 1]) == Sum(xs[..n]) + xs[n]
  {
    assert xs[..n + 1] == xs[..n] + [xs[n]];
    SumSnoc(xs[..n], xs[n]);
  }

  lemma Distributes(c: int, x: int, y: int)
    ensures c * (x + y) == c * x + c * y
  {
  }

  lemma {:induction false} SumScaled(xs: seq<int>, ys: seq<int>, c: int)
    requires |xs| == |ys| && forall i :: 0 <= i < |xs| ==> xs[i] == c * ys[i]
    ensures Sum(xs) == c * Sum(ys)
  {
    if xs != [] {
      SumScaled(xs[1..], ys[1..], c);
      Distributes(c, ys[0], Sum(ys[1..]));
    }
  }

  lemma {:induction false} SumOfConstant(xs: seq<int>, c: int)
    requires forall i :: 0 <= i < |xs| ==> xs[i] == c
    ensures Sum(xs) == |xs| * c
  {
    if xs != [] {
      SumOfConstant(xs[1..], c);
    }
  }

  /** A sequence that is nowhere above another has the same sum only if it is the same. */
  lemma {:induction false} SumBound(xs: seq<int>, ys: seq<int>)
    requires |xs| == |ys| && forall i :: 0 <= i < |xs| ==> xs[i] <= ys[i]
    ensures Sum(xs) <= Sum(ys)
    ensures Sum(xs) == Sum(ys) <==> xs == ys
  {
    if xs != [] {
      SumBound(xs[1..], ys[1..]);
      assert xs == [xs[0]] + xs[1..] && ys == [ys[0]] + ys[1..];
    }
  }

  lemma SumBetween(xs: seq<int>, low: int, high: int)
    requires forall i :: 0 <= i < |xs| ==> low <= xs[i] <= high
    ensures |xs| * low <= Sum(xs) <= |xs| * high
    ensures Sum(xs) == |xs| * low <==> forall i :: 0 <= i < |xs| ==> xs[i] == low
    ensures Sum(xs) == |xs| * high <==> forall i :: 0 <= i < |xs| ==> xs[i] == high
  {
    var lows, highs := seq(|xs|, _ => low), seq(|xs|, _ => high);
    SumOfConstant(lows, low);
    SumOfConstant(highs, high);
    SumBound(lows, xs);
    SumBound(xs, highs);
  }

  lemma FarMultiple(n: int, k: int)
    requires 0 < n
    ensures 1 <= k ==> n <= n * k
    ensures k <= -1 ==> n * k <= -n
  {
  }
}
