/** The exact McNemar test and the paired difference with its interval. */
module McNemar {
  import opened Arith

  // ---------------------------------------------------------------- binomial coefficients

  function Power2(n: nat): (p: nat)
    ensures p > 0
  {
    if n == 0 then 1 else 2 * Power2(n - 1)
  }

  /** `math.comb`. */
  function Comb(n: nat, k: nat): nat {
    if k == 0 then 1 else if n == 0 then 0 else Comb(n - 1, k - 1) + Comb(n - 1, k)
  }

  /** Σ C(n, i) for i from 0 to m. */
  function Tail(n: nat, m: nat): nat {
    Comb(n, m) + if m == 0 then 0 else Tail(n, m - 1)
  }

  lemma {:induction false} CombOutside(n: nat, k: nat)
    ensures k > n ==> Comb(n, k) == 0
    ensures k <= n ==> Comb(n, k) > 0
  {
    if n > 0 && k > 0 {
      CombOutside(n - 1, k - 1);
      CombOutside(n - 1, k);
    }
  }

  lemma {:induction false} CombSymmetric(n: nat, k: nat)
    requires k <= n
    ensures Comb(n, k) == Comb(n, n - k)
  {
    if k == 0 {
      CombLast(n);
    } else if k == n {
      CombLast(n);
    } else {
      CombSymmetric(n - 1, k - 1);
      CombSymmetric(n - 1, k);
    }
  }

  lemma {:induction false} CombLast(n: nat)
    ensures Comb(n, n) == 1
  {
    if n > 0 {
      CombLast(n - 1);
      CombOutside(n - 1, n);
    }
  }

  /** Choosing one more than `k` and naming one of them is naming one first: (k+1)·C(n+1,k+1) = (n+1)·C(n,k). */
  lemma {:induction false} CombAbsorbs(n: nat, k: nat)
    ensures (k + 1) * Comb(n + 1, k + 1) == (n + 1) * Comb(n, k)
  {
    if n == 0 {
      CombOutside(0, k + 1);
    } else if k == 0 {
      CombAbsorbs(n - 1, 0);
    } else {
      CombAbsorbs(n - 1, k - 1);
      CombAbsorbs(n - 1, k);
      var u, v, w, x := Comb(n, k), Comb(n, k + 1), Comb(n - 1, k - 1), Comb(n - 1, k);
      assert u == w + x;
      hide Comb;
      AddAbsorbed(k, n, u, v, w, x);
    }
  }

  lemma AddAbsorbed(k: nat, n: nat, u: nat, v: nat, w: nat, x: nat)
    requires u == w + x && k * u == n * w && (k + 1) * v == n * x
    ensures (k + 1) * (u + v) == (n + 1) * u
  {
    assert (k + 1) * (u + v) == k * u + u + (k + 1) * v;
    assert n * u == n * w + n * x;
  }

  /** A tail of one row is two tails of the row above. */
  lemma {:induction false} TailAbove(n: nat, m: nat)
    requires n > 0
    ensures Tail(n, m) == Tail(n - 1, m) + if m == 0 then 0 else Tail(n - 1, m - 1)
  {
    if m > 0 {
      TailAbove(n, m - 1);
    }
  }

  lemma {:induction false} TailStops(n: nat, m: nat)
    requires m >= n
    ensures Tail(n, m) == Tail(n, n)
  {
    if m > n {
      CombOutside(n, m);
      TailStops(n, m - 1);
    }
  }

  /** The whole row sums to 2ⁿ. */
  lemma {:induction false} RowSum(n: nat)
    ensures Tail(n, n) == Power2(n)
  {
    if n > 0 {
      RowSum(n - 1);
      TailAbove(n, n);
      TailStops(n - 1, n);
    }
  }

  /** The two ends of a row are mirror images: the lower tail and its complement make up 2ⁿ. */
  lemma {:induction false} TailMirror(n: nat, m: nat)
    requires m < n
    ensures Tail(n, m) + Tail(n, n - m - 1) == Power2(n)
    decreases m
  {
    if m == 0 {
      RowSum(n);
      CombLast(n);
      assert Tail(n, n) == Comb(n, n) + Tail(n, n - 1);
    } else {
      TailMirror(n, m - 1);
      CombSymmetric(n, m);
      assert Tail(n, n - m) == Comb(n, n - m) + Tail(n, n - m - 1);
    }
  }

  lemma {:induction false} TailGrows(n: nat, m: nat, m': nat)
    requires m < m' <= n
    ensures Tail(n, m) < Tail(n, m')
    decreases m'
  {
    CombOutside(n, m');
    if m < m' - 1 {
      TailGrows(n, m, m' - 1);
    }
  }

  // ---------------------------------------------------------------- the exact test

  function Min(a: nat, b: nat): nat {
    if a <= b then a else b
  }

  function Gap(b: nat, c: nat): nat {
    if b <= c then c - b else b - c
  }

  /** Twice the smaller tail as a share of the row, before the clamp. */
  function TwoTails(b: nat, c: nat): real {
    (2 * Tail(b + c, Min(b, c))) as real / Power2(b + c) as real
  }

  /** `mcnemar_exact`. */
  function Exact(b: nat, c: nat): real {
    if b + c == 0 then 1.0 else if TwoTails(b, c) < 1.0 then TwoTails(b, c) else 1.0
  }

  lemma {:induction false} TwoTailsAgainstRow(b: nat, c: nat)
    requires b + c > 0
    ensures Gap(b, c) == 0 ==> 2 * Tail(b + c, Min(b, c)) > Power2(b + c)
    ensures Gap(b, c) == 1 ==> 2 * Tail(b + c, Min(b, c)) == Power2(b + c)
    ensures Gap(b, c) >= 2 ==> 2 * Tail(b + c, Min(b, c)) < Power2(b + c)
  {
    var n, m := b + c, Min(b, c);
    TailMirror(n, m);
    if b == c {
      CombOutside(n, m);
    } else if m < n - m - 1 {
      TailGrows(n, m, n - m - 1);
    }
  }

  lemma ShareOfRow(a: int, d: nat)
    requires d > 0
    ensures a as real / d as real < 1.0 <==> a < d
    ensures a as real / d as real == 1.0 <==> a == d
    ensures a as real / d as real > 0.0 <==> a > 0
  {
    Share(a as real, d as real);
  }

  /** The value is a probability, never zero, and does not care which side is which. */
  lemma {:induction false} ExactIsProbability(b: nat, c: nat)
    ensures 0.0 < Exact(b, c) <= 1.0
    ensures Exact(b, c) == Exact(c, b)
  {
    if b + c > 0 {
      CombOutside(b + c, Min(b, c));
      ShareOfRow(2 * Tail(b + c, Min(b, c)), Power2(b + c));
    }
  }

  /** One exactly for sides at most one apart; the clamp bites exactly for equal sides with something on them. */
  lemma {:induction false} ExactIsOne(b: nat, c: nat)
    ensures Exact(b, c) == 1.0 <==> Gap(b, c) <= 1
    ensures b + c > 0 ==> (Exact(b, c) != TwoTails(b, c) <==> b == c)
  {
    if b + c > 0 {
      TwoTailsAgainstRow(b, c);
      ShareOfRow(2 * Tail(b + c, Min(b, c)), Power2(b + c));
    }
  }

  /** Among as many discordant items, a wider gap is never less significant, and beyond one apart strictly more. */
  lemma {:induction false} ExactFalls(b: nat, c: nat, b': nat, c': nat)
    requires b + c == b' + c' && Gap(b, c) < Gap(b', c')
    ensures Exact(b', c') <= Exact(b, c)
    ensures Gap(b', c') >= 2 ==> Exact(b', c') < Exact(b, c)
  {
    var n := b + c;
    assert Min(b', c') < Min(b, c) <= n;
    TailGrows(n, Min(b', c'), Min(b, c));
    TwoTailsAgainstRow(b', c');
    ShareOfRow(2 * Tail(n, Min(b', c')), Power2(n));
    SameRow(2 * Tail(n, Min(b', c')), 2 * Tail(n, Min(b, c)), Power2(n));
  }

  lemma SameRow(a: int, a': int, d: nat)
    requires d > 0 && a < a'
    ensures a as real / d as real < a' as real / d as real
  {
    var q, q' := a as real / d as real, a' as real / d as real;
    assert q * d as real == a as real && q' * d as real == a' as real;
    if q > q' {
      ScaleStrict(q', q, d as real);
      assert false;
    }
  }

  /** Nothing is significant on fewer than six discordant items. */
  lemma {:induction false} SixDiscordant(b: nat, c: nat)
    requires Exact(b, c) < 0.05
    ensures b + c >= 6
  {
    var n := b + c;
    if n < 6 {
      CombOutside(n, Min(b, c));
      SmallRows();
      assert Power2(n) <= 32;
      SmallShare(2 * Tail(n, Min(b, c)), Power2(n));
    }
  }

  lemma SmallRows()
    ensures Power2(0) == 1 && Power2(1) == 2 && Power2(2) == 4 && Power2(3) == 8 && Power2(4) == 16 && Power2(5) == 32
  {
    assert Power2(5) == 2 * Power2(4);
    assert Power2(4) == 2 * Power2(3);
  }

  lemma SmallShare(a: nat, d: nat)
    requires a >= 2 && 0 < d <= 32
    ensures a as real / d as real >= 0.05
  {
    var q := a as real / d as real;
    if q < 0.05 {
      ScaleStrict(q, 0.05, d as real);
    }
  }

  // ---------------------------------------------------------------- the interval

  const Z := 1.959963984540054

  /** What is used of `math.sqrt`. */
  ghost predicate Root(root: real -> real) {
    forall x :: x >= 0.0 ==> root(x) >= 0.0 && root(x) * root(x) == x
  }

  function Radicand(b: nat, c: nat, n: nat): real
    requires n > 0
  {
    (b + c) as real - (b as real - c as real) * (b as real - c as real) / n as real
  }

  function AtLeast(low: real, x: real): real {
    if x < low then low else x
  }

  function AtMost(high: real, x: real): real {
    if x > high then high else x
  }

  function Difference(b: nat, c: nat, n: nat): real
    requires n > 0
  {
    (b as real - c as real) / n as real
  }

  function HalfWidth(root: real -> real, b: nat, c: nat, n: nat): real
    requires n > 0
  {
    Z * (root(AtLeast(0.0, Radicand(b, c, n))) / n as real)
  }

  /** `paired_difference`: the interval, clamped to what a difference of rates can be. */
  function Low(root: real -> real, b: nat, c: nat, n: nat): real
    requires n > 0
  {
    AtLeast(-1.0, Difference(b, c, n) - HalfWidth(root, b, c, n))
  }

  function High(root: real -> real, b: nat, c: nat, n: nat): real
    requires n > 0
  {
    AtMost(1.0, Difference(b, c, n) + HalfWidth(root, b, c, n))
  }

  /** Before clamping the interval reaches 1.96 standard errors to either side: the square of its half width times
      the items is that of 1.959963984540054 times the discordant items less the square of their difference per
      item. */
  lemma {:induction false} HalfWidthSquared(root: real -> real, b: nat, c: nat, n: nat)
    requires Root(root) && n > 0 && b + c <= n
    ensures var x, y, k := b as real, c as real, n as real;
            var wide := HalfWidth(root, b, c, n) * k;
            wide * wide == (1.959963984540054 * 1.959963984540054) * (x + y - (x - y) * (x - y) / k)
    ensures Difference(b, c, n) * n as real == b as real - c as real
    ensures -1.0 <= Difference(b, c, n) - HalfWidth(root, b, c, n) ==>
              Low(root, b, c, n) == Difference(b, c, n) - HalfWidth(root, b, c, n)
    ensures Difference(b, c, n) + HalfWidth(root, b, c, n) <= 1.0 ==>
              High(root, b, c, n) == Difference(b, c, n) + HalfWidth(root, b, c, n)
    ensures Low(root, b, c, n) >= -1.0 && High(root, b, c, n) <= 1.0
  {
    RadicandNeedsNoClamp(b, c, n);
    var r, k := root(Radicand(b, c, n)), n as real;
    assert r * r == Radicand(b, c, n);
    var q := r / k;
    assert q * k == r;
    hide Root, Radicand;
    assert HalfWidth(root, b, c, n) * k == Z * r;
    assert (Z * r) * (Z * r) == (Z * Z) * (r * r);
  }

  /** For counts of one table the radicand is never negative, so clamping it changes nothing. */
  lemma {:induction false} RadicandNeedsNoClamp(b: nat, c: nat, n: nat)
    requires n > 0 && b + c <= n
    ensures Radicand(b, c, n) >= 0.0
    ensures AtLeast(0.0, Radicand(b, c, n)) == Radicand(b, c, n)
  {
    SquareWithin(b as real, c as real, n as real);
  }

  lemma SquareWithin(x: real, y: real, k: real)
    requires 0.0 <= x && 0.0 <= y && x + y <= k
    ensures (x - y) * (x - y) <= (x + y) * k
  {
    assert (x + y) * (k - (x + y)) >= 0.0 by {
      Product(x + y, k - (x + y));
    }
    assert (x + y) * (x + y) - (x - y) * (x - y) == 4.0 * (x * y);
    Product(x, y);
  }

  /** Swapping the sides mirrors the interval around zero. */
  lemma {:induction false} IntervalMirrors(root: real -> real, b: nat, c: nat, n: nat)
    requires n > 0
    ensures Difference(c, b, n) == -Difference(b, c, n)
    ensures Low(root, c, b, n) == -High(root, b, c, n)
    ensures High(root, c, b, n) == -Low(root, b, c, n)
  {
    var x, y, k := b as real, c as real, n as real;
    assert (y - x) == -(x - y);
    assert (y - x) * (y - x) == (x - y) * (x - y);
    assert Radicand(c, b, n) == Radicand(b, c, n);
  }

  /** The lower end is clamped exactly where Z times the root of the radicand exceeds n + b - c. */
  lemma {:induction false} LowClampBites(root: real -> real, b: nat, c: nat, n: nat)
    requires n > 0 && b + c <= n
    ensures Low(root, b, c, n) != Difference(b, c, n) - HalfWidth(root, b, c, n) <==>
            Z * root(Radicand(b, c, n)) > (n + b) as real - c as real
  {
    RadicandNeedsNoClamp(b, c, n);
    var r, k := root(Radicand(b, c, n)), n as real;
    hide Radicand;
    BelowMinusOne(Difference(b, c, n), HalfWidth(root, b, c, n), k, (n + b) as real - c as real, Z * r);
  }

  /** The same condition without a root: Z²·radicand exceeds the square of what the root was compared with. */
  lemma {:induction false} AboveRoot(root: real -> real, x: real, a: real)
    requires Root(root) && x >= 0.0 && a >= 0.0
    ensures Z * root(x) > a <==> Z * Z * x > a * a
  {
    var r := root(x);
    assert r >= 0.0 && r * r == x;
    hide Root;
    SquareOrder(Z * r, a);
  }

  lemma BelowMinusOne(d: real, h: real, k: real, a: real, z: real)
    requires k > 0.0 && d * k == a - k && h * k == z
    ensures d - h < -1.0 <==> z > a
  {
    assert (d - h) * k == d * k - h * k;
    ScaleIff(d - h, -1.0, k);
  }

  lemma SquareOrder(x: real, y: real)
    requires x >= 0.0 && y >= 0.0
    ensures x > y <==> x * x > y * y
  {
    if x > y {
      assert x * x - y * y == (x - y) * (x + y);
      SignOfSum(x - y, x + y);
    } else {
      assert y * y - x * x == (y - x) * (x + y);
      Product(y - x, x + y);
    }
  }

  lemma SignOfSum(a: real, b: real)
    requires a > 0.0 && b > 0.0
    ensures a * b > 0.0
  {
  }

  /** One loss among two items is such a table. */
  lemma {:induction false} SmallTableClamps(root: real -> real)
    requires Root(root)
    ensures Low(root, 0, 1, 2) == -1.0 > Difference(0, 1, 2) - HalfWidth(root, 0, 1, 2)
  {
    LowClampBites(root, 0, 1, 2);
    assert Radicand(0, 1, 2) == 0.5;
    AboveRoot(root, 0.5, 1.0);
    assert Z * Z * 0.5 > 1.0;
  }

  /** An interval above zero needs more wins than losses. */
  lemma {:induction false} PositiveIntervalWins(root: real -> real, b: nat, c: nat, n: nat)
    requires Root(root) && n > 0 && b + c <= n && Low(root, b, c, n) > 0.0
    ensures b > c
  {
    HalfWidthNonNegative(root, b, c, n);
    hide Root, HalfWidth;
    ScaleIff(0.0, Difference(b, c, n), n as real);
  }

  lemma {:induction false} HalfWidthNonNegative(root: real -> real, b: nat, c: nat, n: nat)
    requires Root(root) && n > 0 && b + c <= n
    ensures HalfWidth(root, b, c, n) >= 0.0
  {
    RadicandNeedsNoClamp(b, c, n);
    var r := root(Radicand(b, c, n));
    assert r >= 0.0;
    hide Root, Radicand;
  }
}
