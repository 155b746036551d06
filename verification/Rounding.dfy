/** The wire precision: six significant digits. */
module Rounding {

  /** The integer nearest to x, the even one of two equally near. */
  function Nearest(x: real): int {
    var f := x.Floor;
    if x - f as real < 0.5 then f
    else if x - f as real > 0.5 then f + 1
    else if f % 2 == 0 then f else f + 1
  }

  /** A positive number is scaled by tens until it has six digits before the point, rounded, and scaled back. */
  function Sig(x: real): real
    requires x > 0.0
    decreases if x < 100000.0 then 1 else 0, if x < 100000.0 then (1000000.0 / x).Floor else x.Floor
  {
    if x >= 1000000.0 then
      10.0 * Sig(x / 10.0)
    else if x < 100000.0 then
      TenTimesCloser(x);
      Sig(x * 10.0) / 10.0
    else
      Nearest(x) as real
  }

  lemma TenTimesCloser(x: real)
    requires 0.0 < x < 100000.0
    ensures (1000000.0 / (x * 10.0)).Floor < (1000000.0 / x).Floor
  {
    var y := 1000000.0 / x;
    assert y * x == 1000000.0;
    assert 1000000.0 / (x * 10.0) == y / 10.0;
  }

  function RoundSig(x: real): real {
    if x == 0.0 then 0.0 else if x > 0.0 then Sig(x) else -Sig(-x)
  }

  lemma NearestMonotone(x: real, y: real)
    requires x <= y
    ensures Nearest(x) <= Nearest(y)
  {
    assert x.Floor <= y.Floor;
  }

  /** The relative error is at most five millionths. */
  lemma {:induction false} RelativeError(x: real)
    requires x > 0.0
    ensures -0.000005 * x <= Sig(x) - x <= 0.000005 * x
    ensures Sig(x) > 0.0
    decreases if x < 100000.0 then 1 else 0, if x < 100000.0 then (1000000.0 / x).Floor else x.Floor
  {
    if x >= 1000000.0 {
      RelativeError(x / 10.0);
    } else if x < 100000.0 {
      TenTimesCloser(x);
      RelativeError(x * 10.0);
    } else {
    }
  }

  /** 10^-k. */
  function Tenths(k: nat): real {
    if k == 0 then 1.0 else Tenths(k - 1) / 10.0
  }

  /** The absolute error shrinks with the decade: half a unit of the sixth digit. */
  lemma {:induction false} DecadeError(x: real, k: nat)
    requires 0.0 < x < 1000000.0 * Tenths(k)
    ensures -0.5 * Tenths(k) <= Sig(x) - x <= 0.5 * Tenths(k)
    decreases if x < 100000.0 then 1 else 0, if x < 100000.0 then (1000000.0 / x).Floor else x.Floor
  {
    TenthsFall(k);
    if x < 100000.0 {
      TenTimesCloser(x);
      DecadeError(x * 10.0, if k == 0 then 0 else k - 1);
    }
  }

  lemma {:induction false} TenthsFall(k: nat)
    ensures 0.0 < Tenths(k) <= 1.0 && (k > 0 ==> Tenths(k) <= 0.1)
  {
    if k > 0 {
      TenthsFall(k - 1);
    }
  }

  /** For a probability that is half a millionth. */
  lemma ProbabilityError(x: real)
    requires 0.0 <= x <= 1.0
    ensures -0.0000005 <= RoundSig(x) - x <= 0.0000005
  {
    if x == 1.0 {
      ScaledWhole(1, x);
    } else if x > 0.0 {
      assert Tenths(6) == 0.000001 by {
        assert Tenths(3) == 0.001;
      }
      DecadeError(x, 6);
    }
  }

  /** Rounding never crosses the two scaling thresholds. */
  lemma {:induction false} Thresholds(x: real)
    requires x > 0.0
    ensures x <= 1000000.0 ==> Sig(x) <= 1000000.0
    ensures x >= 1000000.0 ==> Sig(x) >= 1000000.0
    ensures x <= 100000.0 ==> Sig(x) <= 100000.0
    ensures x >= 100000.0 ==> Sig(x) >= 100000.0
    decreases if x < 100000.0 then 1 else 0, if x < 100000.0 then (1000000.0 / x).Floor else x.Floor
  {
    if x >= 1000000.0 {
      Thresholds(x / 10.0);
      assert x == 1000000.0 ==> x / 10.0 == 100000.0;
      assert Sig(100000.0) == Nearest(100000.0) as real == 100000.0;
    } else if x < 100000.0 {
      TenTimesCloser(x);
      Thresholds(x * 10.0);
    } else {
      NearestMonotone(100000.0, x);
      NearestMonotone(x, 1000000.0);
      assert Nearest(100000.0) == 100000 && Nearest(1000000.0) == 1000000;
    }
  }

  /** Rounding keeps the order of any two positive numbers. */
  lemma {:induction false} SigMonotone(x: real, y: real)
    requires 0.0 < x <= y
    ensures Sig(x) <= Sig(y)
    decreases if x < 100000.0 then 1 else 0, if x < 100000.0 then (1000000.0 / x).Floor else x.Floor
  {
    Thresholds(x);
    Thresholds(y);
    if x >= 1000000.0 {
      SigMonotone(x / 10.0, y / 10.0);
    } else if y < 100000.0 {
      TenTimesCloser(x);
      SigMonotone(x * 10.0, y * 10.0);
    } else if x >= 100000.0 && y < 1000000.0 {
      NearestMonotone(x, y);
    }
  }

  /** The nearest whole number, and of two equally near the even one. */
  lemma NearestMeans(x: real)
    ensures -0.5 <= Nearest(x) as real - x <= 0.5
    ensures Nearest(x) as real - x == 0.5 || Nearest(x) as real - x == -0.5 ==> Nearest(x) % 2 == 0
  {
  }

  /** A number of six digits before the point is rounded to the nearest whole one, a negative number as the positive
      one is; with the tenfold rule that settles every number. */
  lemma SixDigits(x: real)
    requires 100000.0 <= x < 1000000.0
    ensures RoundSig(x) == Nearest(x) as real && RoundSig(-x) == -RoundSig(x) && RoundSig(0.0) == 0.0
  {
  }

  /** Ten times a number is rounded to ten times its rounding. */
  lemma SigTenfold(x: real)
    requires x > 0.0
    ensures Sig(x * 10.0) == 10.0 * Sig(x)
  {
    if x >= 100000.0 {
      assert (x * 10.0) / 10.0 == x;
    }
    hide Nearest;
  }

  lemma SigOfDigits(x: real)
    requires 100000.0 <= x < 1000000.0
    ensures Sig(Sig(x)) == Sig(x)
  {
    Thresholds(x);
    var m := Nearest(x);
    if m == 1000000 {
      SigTenfold(100000.0);
      assert Nearest(100000.0) == 100000;
    } else {
      assert Nearest(m as real) == m;
    }
  }

  lemma {:induction false} SigIdempotent(x: real)
    requires x > 0.0
    ensures Sig(x) > 0.0 && Sig(Sig(x)) == Sig(x)
    decreases if x < 100000.0 then 1 else 0, if x < 100000.0 then (1000000.0 / x).Floor else x.Floor
  {
    hide *;
    RelativeError(x);
    if x >= 1000000.0 {
      SigIdempotent(x / 10.0);
      SigTenfold(x / 10.0);
      SigTenfold(Sig(x / 10.0));
    } else if x < 100000.0 {
      TenTimesCloser(x);
      SigIdempotent(x * 10.0);
      SigTenfold(x);
      SigTenfold(Sig(x));
    } else {
      SigOfDigits(x);
    }
  }

  // ---------------------------------------------------------------- all numbers

  lemma RoundMonotone(x: real, y: real)
    requires x <= y
    ensures RoundSig(x) <= RoundSig(y)
  {
    if x > 0.0 {
      SigMonotone(x, y);
    } else if y < 0.0 {
      SigMonotone(-y, -x);
    }
    if x < 0.0 {
      RelativeError(-x);
    }
    if y > 0.0 {
      RelativeError(y);
    }
  }

  lemma RoundIdempotent(x: real)
    ensures RoundSig(RoundSig(x)) == RoundSig(x)
  {
    if x > 0.0 {
      SigIdempotent(x);
    } else if x < 0.0 {
      SigIdempotent(-x);
    }
  }

  /** A whole number of at most six digits is its own rounding. */
  lemma {:induction false} RoundWhole(n: nat)
    requires n <= 999999
    ensures RoundSig(n as real) == n as real
  {
    if n > 0 {
      ScaledWhole(n, n as real);
    }
  }

  lemma {:induction false} ScaledWhole(n: nat, x: real)
    requires 0 < n <= 999999 && x == n as real
    ensures Sig(x) == x
    decreases 1000000 - n
  {
    if n < 100000 {
      ScaledWhole(10 * n, x * 10.0);
    }
  }

  function Sum(ps: seq<real>): real {
    if ps == [] then 0.0 else ps[0] + Sum(ps[1..])
  }

  lemma {:induction false} SumNonNegative(ps: seq<real>)
    requires forall j :: 0 <= j < |ps| ==> ps[j] >= 0.0
    ensures Sum(ps) >= 0.0
  {
    if ps != [] {
      SumNonNegative(ps[1..]);
    }
  }

  lemma {:induction false} PartOfSum(ps: seq<real>, i: nat)
    requires i < |ps|
    requires forall j :: 0 <= j < |ps| ==> ps[j] >= 0.0
    ensures ps[i] <= Sum(ps)
  {
    SumNonNegative(ps[1..]);
    if i > 0 {
      PartOfSum(ps[1..], i - 1);
    }
  }

  function RoundAll(ps: seq<real>): (qs: seq<real>)
    ensures |qs| == |ps|
  {
    seq(|ps|, i requires 0 <= i < |ps| => RoundSig(ps[i]))
  }

  /** However many numbers there are, the sum of their roundings is within five millionths of the sum; of K
      probabilities it is within K half-millionths as well, the tighter bound for fewer than ten. */
  lemma {:induction false} SumError(ps: seq<real>)
    requires forall i :: 0 <= i < |ps| ==> ps[i] >= 0.0
    ensures -0.000005 * Sum(ps) <= Sum(RoundAll(ps)) - Sum(ps) <= 0.000005 * Sum(ps)
    ensures (forall i :: 0 <= i < |ps| ==> ps[i] <= 1.0) ==>
              -0.0000005 * |ps| as real <= Sum(RoundAll(ps)) - Sum(ps) <= 0.0000005 * |ps| as real
  {
    if ps != [] {
      SumError(ps[1..]);
      assert RoundAll(ps)[1..] == RoundAll(ps[1..]);
      if ps[0] > 0.0 {
        RelativeError(ps[0]);
      }
      if ps[0] <= 1.0 {
        ProbabilityError(ps[0]);
      }
      hide RoundSig, RoundAll;
    }
  }
}
