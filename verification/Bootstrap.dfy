/** The paired bootstrap and the interpolated quantiles of the cue decision. */
module Bootstrap {
  import opened Arith
  import opened McNemar
  import opened Sequences
  import opened Wrappers

  predicate NoMore(x: real, y: real) {
    x <= y
  }

  ghost predicate Ascending(s: seq<real>) {
    Ordered(NoMore, s)
  }

  /** `sorted`. */
  function Sorted(s: seq<real>): (r: seq<real>)
    ensures |r| == |s|
  {
    Sort(NoMore, s)
  }

  lemma {:induction false} SortSorts(s: seq<real>)
    ensures Ascending(Sorted(s)) && multiset(Sorted(s)) == multiset(s)
  {
    SortOrdered(NoMore, s);
  }

  // ---------------------------------------------------------------- the paired difference

  function Truths(a: seq<bool>): nat {
    if a == [] then 0 else Truths(a[..|a| - 1]) + if a[|a| - 1] then 1 else 0
  }

  /** The items only the second got right. */
  function Only(a: seq<bool>, b: seq<bool>): nat
    requires |a| == |b|
  {
    if a == [] then 0
    else
      var n := |a| - 1;
      Only(a[..n], b[..n]) + if b[n] && !a[n] then 1 else 0
  }

  predicate Within(picks: seq<nat>, n: nat) {
    forall i :: 0 <= i < |picks| ==> picks[i] < n
  }

  function Gain(a: seq<bool>, b: seq<bool>, picks: seq<nat>): int
    requires |a| == |b| && Within(picks, |a|)
  {
    if picks == [] then 0
    else
      var k := picks[|picks| - 1];
      Gain(a, b, picks[..|picks| - 1]) + (if b[k] then 1 else 0) - if a[k] then 1 else 0
  }

  lemma {:induction false} WinsAreTheDifference(a: seq<bool>, b: seq<bool>)
    requires |a| == |b|
    ensures Truths(b) - Truths(a) == Only(a, b) - Only(b, a)
    ensures Only(a, b) + Only(b, a) <= |a|
  {
    if a != [] {
      WinsAreTheDifference(a[..|a| - 1], b[..|b| - 1]);
    }
  }

  /** The places below `n` that have a property. */
  ghost function Places(n: nat, what: int -> bool): set<int> {
    set i | 0 <= i < n && what(i)
  }

  lemma PlacesGrow(n: nat, what: int -> bool)
    ensures Places(0, what) == {} && |Places(n + 1, what)| == |Places(n, what)| + if what(n) then 1 else 0
  {
    assert Places(n + 1, what) == Places(n, what) + if what(n) then {n} else {};
  }

  /** What the second gains on a draw: how often an item is drawn that only it got right, less how often one that
      only the first did. */
  lemma {:induction false} GainCounts(a: seq<bool>, b: seq<bool>, picks: seq<nat>, n: nat)
    requires |a| == |b| && Within(picks, |a|) && n <= |picks|
    ensures Gain(a, b, picks[..n])
         == |Places(n, j => 0 <= j < |picks| && b[picks[j]] && !a[picks[j]])|
            - |Places(n, j => 0 <= j < |picks| && a[picks[j]] && !b[picks[j]])|
  {
    var gains, losses := (j: int) => 0 <= j < |picks| && b[picks[j]] && !a[picks[j]],
                         (j: int) => 0 <= j < |picks| && a[picks[j]] && !b[picks[j]];
    if n == 0 {
      PlacesGrow(0, gains);
      PlacesGrow(0, losses);
    } else {
      GainCounts(a, b, picks, n - 1);
      PlacesGrow(n - 1, gains);
      PlacesGrow(n - 1, losses);
      assert picks[..n][..n - 1] == picks[..n - 1];
      hide Places;
    }
  }

  /** ... and how many items only the second got right. */
  lemma {:induction false} OnlyCounts(a: seq<bool>, b: seq<bool>, n: nat)
    requires |a| == |b| && n <= |a|
    ensures Only(a[..n], b[..n]) == |Places(n, i => 0 <= i < |a| && b[i] && !a[i])|
  {
    var only := (i: int) => 0 <= i < |a| && b[i] && !a[i];
    if n == 0 {
      PlacesGrow(0, only);
    } else {
      OnlyCounts(a, b, n - 1);
      PlacesGrow(n - 1, only);
      assert a[..n][..n - 1] == a[..n - 1] && b[..n][..n - 1] == b[..n - 1];
      hide Places;
    }
  }

  /** The gains of the resamples, as shares of the items. */
  function Draws(a: seq<bool>, b: seq<bool>, resamples: seq<seq<nat>>): (draws: seq<real>)
    requires |a| == |b| > 0 && forall i :: 0 <= i < |resamples| ==> Within(resamples[i], |a|)
    ensures |draws| == |resamples|
  {
    seq(|resamples|, i requires 0 <= i < |resamples| => Gain(a, b, resamples[i]) as real / |a| as real)
  }

  /** Two values stand at the places of the 2.5 and the 97.5 percentile when the draws are put in ascending order. */
  ghost predicate Percentiles(draws: seq<real>, sorted: seq<real>, low: real, high: real) {
    && multiset(sorted) == multiset(draws) && |sorted| == |draws| > 0
    && (forall i, j :: 0 <= i < j < |sorted| ==> sorted[i] <= sorted[j])
    && low == sorted[(0.025 * (|draws| - 1) as real).Floor] && high == sorted[(0.975 * (|draws| - 1) as real).Floor]
  }

  lemma {:induction false} GainWithin(a: seq<bool>, b: seq<bool>, picks: seq<nat>)
    requires |a| == |b| && Within(picks, |a|)
    ensures -|picks| <= Gain(a, b, picks) <= |picks|
  {
    if picks != [] {
      GainWithin(a, b, picks[..|picks| - 1]);
    }
  }

  datatype Paired = Paired(n: nat, difference: real, low: real, high: real, aWins: nat, bWins: nat, p: real)

  datatype Problem = Unequal | Empty

  /** What the seeded generator is trusted for: as many resamples as asked, each of `n` items of the table. */
  ghost predicate Resamples(draws: seq<seq<nat>>, iters: int, n: nat) {
    && |draws| == (if iters > 1 then iters else 1)
    && forall i :: 0 <= i < |draws| ==> |draws[i]| == n && Within(draws[i], n)
  }

  lemma TotalShare(total: int, n: nat)
    requires n > 0 && -(n as int) <= total <= n as int
    ensures -1.0 <= total as real / n as real <= 1.0
  {
    var q := total as real / n as real;
    assert q * n as real == total as real;
    ScaleIff(1.0, q, n as real);
    ScaleIff(q, -1.0, n as real);
  }

  lemma SplitQuotient(x: nat, y: nat, n: nat)
    requires n > 0
    ensures x as real / n as real - y as real / n as real == (x as int - y as int) as real / n as real
  {
    var p, q := x as real / n as real, y as real / n as real;
    assert (p - q) * n as real == x as real - y as real;
  }

  /** One resample: the items drawn, and what the challenger gains on them. */
  method DrawTotal(a: seq<bool>, b: seq<bool>, picks: seq<nat>) returns (total: int)
    requires |a| == |b| && Within(picks, |a|)
    ensures total == Gain(a, b, picks) && -|picks| <= total <= |picks|
  {
    total := 0;
    for i := 0 to |picks|
      invariant total == Gain(a, b, picks[..i])
    {
      var k := picks[i];
      assert picks[..i + 1][..i] == picks[..i];
      total := total + (if b[k] then 1 else 0) - if a[k] then 1 else 0;
    }
    assert picks[..|picks|] == picks;
    GainWithin(a, b, picks);
  }

  lemma PercentilesSorted(draws: seq<real>)
    requires draws != [] && forall i :: 0 <= i < |draws| ==> -1.0 <= draws[i] <= 1.0
    ensures var low, high := (0.025 * (|draws| - 1) as real).Floor, (0.975 * (|draws| - 1) as real).Floor;
            && 0 <= low <= high < |draws|
            && -1.0 <= Sorted(draws)[low] <= Sorted(draws)[high] <= 1.0
            && Percentiles(draws, Sorted(draws), Sorted(draws)[low], Sorted(draws)[high])
  {
    var sorted := Sorted(draws);
    SortSorts(draws);
    hide Sorted;
    forall i | 0 <= i < |sorted| ensures -1.0 <= sorted[i] <= 1.0 {
      assert sorted[i] in multiset(draws);
    }
  }

  /** `paired_diff`: the point estimate is exact, the interval lies within what a difference of rates can be. */
  method PairedDiff(a: seq<bool>, b: seq<bool>, iters: int, resamples: seq<seq<nat>>) returns (r: Result<Paired, Problem>)
    requires Resamples(resamples, iters, |a|)
    ensures r.Success? <==> |a| == |b| && a != []
    ensures r.Failure? ==> r.error == if |a| != |b| then Unequal else Empty
    ensures r.Success? ==>
              && r.value.n == |a| && r.value.aWins == Only(b, a) && r.value.bWins == Only(a, b)
              && r.value.difference == (r.value.bWins as int - r.value.aWins as int) as real / |a| as real
              && -1.0 <= r.value.difference <= 1.0
              && -1.0 <= r.value.low <= r.value.high <= 1.0
              && r.value.p == Exact(r.value.aWins, r.value.bWins)
    ensures r.Success? ==> exists sorted :: Percentiles(Draws(a, b, resamples), sorted, r.value.low, r.value.high)
  {
    hide Only, Truths, Exact, Gain, Percentiles, Sorted;
    if |a| != |b| {
      return Failure(Unequal);
    }
    if a == [] {
      return Failure(Empty);
    }
    var n := |a|;
    var difference := Truths(b) as real / n as real - Truths(a) as real / n as real;
    var aWins, bWins := Only(b, a), Only(a, b);
    WinsAreTheDifference(a, b);
    SplitQuotient(Truths(b), Truths(a), n);
    TotalShare(bWins as int - aWins as int, n);
    var draws: seq<real> := [];
    for i := 0 to |resamples|
      invariant |draws| == i
      invariant forall j :: 0 <= j < i ==> -1.0 <= draws[j] <= 1.0
      invariant forall j :: 0 <= j < i ==> draws[j] == Draws(a, b, resamples)[j]
    {
      var total := DrawTotal(a, b, resamples[i]);
      TotalShare(total, n);
      draws := draws + [total as real / n as real];
    }
    assert draws == Draws(a, b, resamples);
    PercentilesSorted(draws);
    var sorted := Sorted(draws);
    var low, high := (0.025 * (|draws| - 1) as real).Floor, (0.975 * (|draws| - 1) as real).Floor;
    return Success(Paired(n, difference, sorted[low], sorted[high], aWins, bWins, Exact(aWins, bWins)));
  }

  // ---------------------------------------------------------------- interpolated quantiles

  function Position(n: nat, f: real): real {
    f * (n - 1) as real
  }

  function Below(n: nat, f: real): (i: nat)
    requires n > 0 && 0.0 <= f <= 1.0
    ensures i < n
  {
    Position(n, f).Floor
  }

  function Above(n: nat, f: real): (i: nat)
    requires n > 0 && 0.0 <= f <= 1.0
    ensures i < n
  {
    if Below(n, f) + 1 < n then Below(n, f) + 1 else n - 1
  }

  /** `_quantile`: linear interpolation between the two neighbours. */
  function Quantile(s: seq<real>, f: real): real
    requires s != [] && 0.0 <= f <= 1.0
  {
    if |s| == 1 then s[0]
    else
      var weight := Position(|s|, f) - Below(|s|, f) as real;
      s[Below(|s|, f)] * (1.0 - weight) + s[Above(|s|, f)] * weight
  }

  lemma Interpolated(x: real, y: real, w: real)
    requires x <= y && 0.0 <= w <= 1.0
    ensures x <= x * (1.0 - w) + y * w <= y
  {
    Product(y - x, w);
    Product(y - x, 1.0 - w);
    assert (y - x) * w == y * w - x * w;
    assert (y - x) * (1.0 - w) == y - y * w - x * (1.0 - w);
    assert x * (1.0 - w) == x - x * w;
  }

  lemma InterpolatedMonotone(x: real, y: real, v: real, w: real)
    requires x <= y && v <= w
    ensures x * (1.0 - v) + y * v <= x * (1.0 - w) + y * w
  {
    Product(y - x, w - v);
    assert (y - x) * (w - v) == y * w - y * v - x * w + x * v;
    assert x * (1.0 - v) == x - x * v && x * (1.0 - w) == x - x * w;
  }

  /** A quantile lies between its neighbours. */
  lemma {:induction false} QuantileBetween(s: seq<real>, f: real)
    requires s != [] && Ascending(s) && 0.0 <= f <= 1.0
    ensures s[Below(|s|, f)] <= Quantile(s, f) <= s[Above(|s|, f)]
  {
    var n := |s|;
    var w := Position(n, f) - Below(n, f) as real;
    assert 0.0 <= w <= 1.0;
    hide Position;
    if n > 1 {
      Interpolated(s[Below(n, f)], s[Above(n, f)], w);
    }
  }

  /** Quantiles of sorted values grow with the fraction. */
  lemma {:induction false} QuantileMonotone(s: seq<real>, f: real, g: real)
    requires s != [] && Ascending(s) && 0.0 <= f <= g <= 1.0
    ensures Quantile(s, f) <= Quantile(s, g)
  {
    var n := |s|;
    if n > 1 {
      PositionMonotone(n, f, g);
      var v, w := Position(n, f) - Below(n, f) as real, Position(n, g) - Below(n, g) as real;
      hide Position;
      if Below(n, f) == Below(n, g) {
        InterpolatedMonotone(s[Below(n, f)], s[Above(n, f)], v, w);
      } else {
        QuantileBetween(s, f);
        QuantileBetween(s, g);
        hide Quantile;
        assert Above(n, f) <= Below(n, g);
      }
    }
  }

  lemma PositionMonotone(n: nat, f: real, g: real)
    requires n > 0 && f <= g
    ensures Position(n, f) <= Position(n, g)
    ensures Position(n, f).Floor <= Position(n, g).Floor
  {
    Product(g - f, (n - 1) as real);
    assert (g - f) * (n - 1) as real == Position(n, g) - Position(n, f);
  }

  lemma {:induction false} QuantileEnds(s: seq<real>)
    requires s != []
    ensures Quantile(s, 0.0) == s[0] && Quantile(s, 1.0) == s[|s| - 1]
  {
    var n := |s|;
    assert Position(n, 0.0) == 0.0 && Position(n, 1.0) == (n - 1) as real;
    assert Below(n, 0.0) == 0 && Below(n, 1.0) == n - 1 && Above(n, 1.0) == n - 1;
  }

  /** Between evenly spaced values the quantile is on the line through them. */
  lemma {:induction false} QuantileOnLine(s: seq<real>, f: real, start: real, gap: real)
    requires s != [] && 0.0 <= f <= 1.0 && forall i :: 0 <= i < |s| ==> s[i] == start + gap * i as real
    ensures Quantile(s, f) == start + gap * (f * (|s| - 1) as real)
  {
    var n := |s|;
    if n > 1 {
      var i, p := Below(n, f), Position(n, f);
      if i + 1 < n {
        OnLine(start, gap, i as real, p);
      } else {
        assert f * (n - 1) as real <= (n - 1) as real;
        assert p == i as real;
        OnLine(start, gap, i as real, p);
      }
    } else {
      assert s[0] == start + gap * 0.0;
    }
  }

  lemma OnLine(start: real, gap: real, i: real, p: real)
    ensures (start + gap * i) * (1.0 - (p - i)) + (start + gap * (i + 1.0)) * (p - i) == start + gap * p
  {
    var w := p - i;
    assert gap * (i + 1.0) == gap * i + gap;
    assert gap * p == gap * i + gap * w;
    Blend(start + gap * i, gap, w);
  }

  lemma Blend(x: real, gap: real, w: real)
    ensures x * (1.0 - w) + (x + gap) * w == x + gap * w
  {
  }

  datatype Summary = Summary(n: nat, min: real, q1: real, median: real, q3: real, max: real)

  /** `coverage_summary`, its order statistics. */
  function Summarise(values: seq<real>): Summary
    requires values != []
  {
    var s := Sorted(values);
    Summary(|s|, s[0], Quantile(s, 0.25), Quantile(s, 0.5), Quantile(s, 0.75), s[|s| - 1])
  }

  /** The five numbers are in order, and the outer two are the smallest and the largest value. */
  lemma {:induction false} SummaryInOrder(values: seq<real>)
    requires values != []
    ensures var s := Summarise(values);
            && s.min <= s.q1 <= s.median <= s.q3 <= s.max
            && s.min in values && s.max in values && forall v <- values :: s.min <= v <= s.max
  {
    var s := Sorted(values);
    SortSorts(values);
    QuantileEnds(s);
    QuantileMonotone(s, 0.0, 0.25);
    QuantileMonotone(s, 0.25, 0.5);
    QuantileMonotone(s, 0.5, 0.75);
    QuantileMonotone(s, 0.75, 1.0);
    hide Quantile, Sorted;
    assert s[0] in multiset(values) && s[|s| - 1] in multiset(values);
    forall v | v in values ensures s[0] <= v <= s[|s| - 1] {
      assert v in multiset(s);
      var i :| 0 <= i < |s| && s[i] == v;
    }
  }
}
