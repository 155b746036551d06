/** Softmax, coverage and confidence over an abstract exponential and logarithm. */
module Readout {
  import opened Arith
  import opened Rounding
  import opened Sequences
  import opened Wire

  // ---------------------------------------------------------------- the exponential

  /** What is used of `exp`: positive, turning sums into products, increasing. */
  ghost predicate Exponential(e: real -> real) {
    && (forall x :: e(x) > 0.0)
    && (forall x, y :: e(x + y) == e(x) * e(y))
    && (forall x, y :: x < y ==> e(x) < e(y))
  }

  /** What is used of `log`: the inverse of `exp` on the positive numbers. */
  ghost predicate Logarithm(e: real -> real, l: real -> real) {
    forall x :: x > 0.0 ==> e(l(x)) == x
  }

  lemma ExpAdds(e: real -> real, x: real, y: real)
    requires Exponential(e)
    ensures e(x + y) == e(x) * e(y) && e(x) > 0.0 && e(y) > 0.0
  {
  }

  lemma ExpIncreases(e: real -> real, x: real, y: real)
    requires Exponential(e)
    ensures x < y <==> e(x) < e(y)
  {
  }

  // ---------------------------------------------------------------- softmax

  function Max(xs: seq<real>): (m: real)
    requires xs != []
    ensures m in xs && forall i :: 0 <= i < |xs| ==> xs[i] <= m
  {
    if |xs| == 1 then xs[0]
    else
      var rest := Max(xs[1..]);
      if xs[0] >= rest then xs[0] else rest
  }

  function Weight(e: real -> real, x: real, m: real, t: real): real
    requires t > 0.0
  {
    e((x - m) / t)
  }

  lemma WeightPositive(e: real -> real, x: real, m: real, t: real)
    requires Exponential(e) && t > 0.0
    ensures Weight(e, x, m, t) > 0.0
  {
  }

  lemma WeightRescaled(e: real -> real, x: real, m: real, n: real, t: real)
    requires Exponential(e) && t > 0.0
    ensures Weight(e, x, n, t) == e((m - n) / t) * Weight(e, x, m, t) && e((m - n) / t) > 0.0
  {
    hide Exponential;
    ExpAdds(e, (m - n) / t, (x - m) / t);
    DivideSum(m - n, x - m, t);
    assert (m - n) + (x - m) == x - n;
  }

  lemma WeightIncreases(e: real -> real, x: real, y: real, m: real, t: real)
    requires Exponential(e) && t > 0.0
    ensures x < y <==> Weight(e, x, m, t) < Weight(e, y, m, t)
  {
    ExpIncreases(e, (x - m) / t, (y - m) / t);
    hide Exponential;
    DivideOrder(x - m, y - m, t);
  }

  /** `exp((x - m) / t)` of every value. */
  function Weights(e: real -> real, xs: seq<real>, m: real, t: real): (ws: seq<real>)
    requires t > 0.0
    ensures |ws| == |xs|
    ensures forall i :: 0 <= i < |xs| ==> ws[i] == Weight(e, xs[i], m, t)
  {
    seq(|xs|, i requires 0 <= i < |xs| => Weight(e, xs[i], m, t))
  }

  function Divided(ws: seq<real>, d: real): (ps: seq<real>)
    requires d != 0.0
    ensures |ps| == |ws| && forall i :: 0 <= i < |ws| ==> ps[i] == ws[i] / d
  {
    seq(|ws|, i requires 0 <= i < |ws| => ws[i] / d)
  }

  /** The shares of the weights when `m` is subtracted first. */
  function Shares(e: real -> real, xs: seq<real>, m: real, t: real): (ps: seq<real>)
    requires t > 0.0
    ensures |ps| == |xs|
  {
    var ws := Weights(e, xs, m, t);
    if Sum(ws) == 0.0 then ws else Divided(ws, Sum(ws))
  }

  /** `restricted_softmax`: the maximum is subtracted for the sake of the machine's floats. */
  function Softmax(e: real -> real, xs: seq<real>, t: real): (ps: seq<real>)
    requires xs != [] && t > 0.0
    ensures |ps| == |xs|
  {
    Shares(e, xs, Max(xs), t)
  }

  lemma {:induction false} SumPositive(ws: seq<real>)
    requires ws != [] && forall i :: 0 <= i < |ws| ==> ws[i] > 0.0
    ensures Sum(ws) > 0.0
  {
    if |ws| > 1 {
      SumPositive(ws[1..]);
    } else {
      assert Sum(ws[1..]) == 0.0;
    }
  }

  lemma WeightsPositive(e: real -> real, xs: seq<real>, m: real, t: real)
    requires Exponential(e) && xs != [] && t > 0.0
    ensures Sum(Weights(e, xs, m, t)) > 0.0
    ensures forall i :: 0 <= i < |xs| ==> Weights(e, xs, m, t)[i] > 0.0
  {
    hide Exponential, Weight;
    forall i | 0 <= i < |xs| ensures Weights(e, xs, m, t)[i] > 0.0 {
      WeightPositive(e, xs[i], m, t);
    }
    SumPositive(Weights(e, xs, m, t));
  }

  lemma {:induction false} SumDivided(ws: seq<real>, d: real)
    requires d != 0.0
    ensures Sum(Divided(ws, d)) == Sum(ws) / d
  {
    if ws != [] {
      SumDivided(ws[1..], d);
      assert Divided(ws, d)[1..] == Divided(ws[1..], d);
      DivideSum(ws[0], Sum(ws[1..]), d);
    }
  }

  lemma DivideSum(a: real, b: real, d: real)
    requires d != 0.0
    ensures (a + b) / d == a / d + b / d
  {
  }

  /** The shares of some values, whatever is subtracted first, form a distribution with no zero in it. */
  lemma {:induction false} SharesAt(e: real -> real, xs: seq<real>, m: real, t: real)
    requires Exponential(e) && xs != [] && t > 0.0
    ensures var total := Sum(Weights(e, xs, m, t));
            && total > 0.0
            && Shares(e, xs, m, t) == Divided(Weights(e, xs, m, t), total)
            && forall i :: 0 <= i < |xs| ==> Shares(e, xs, m, t)[i] == Weight(e, xs[i], m, t) / total > 0.0
  {
    hide Exponential, Weight;
    var ws := Weights(e, xs, m, t);
    WeightsPositive(e, xs, m, t);
    forall i | 0 <= i < |xs| ensures ws[i] / Sum(ws) > 0.0 {
    }
  }

  /** A softmax is a distribution with no zero in it. */
  lemma {:induction false} SoftmaxIsDistribution(e: real -> real, xs: seq<real>, t: real)
    requires Exponential(e) && xs != [] && t > 0.0
    ensures Sum(Softmax(e, xs, t)) == 1.0
    ensures forall i :: 0 <= i < |xs| ==> Softmax(e, xs, t)[i] > 0.0
  {
    hide Exponential, Weight, Weights, Max, Shares, Divided, Sum;
    var ws := Weights(e, xs, Max(xs), t);
    SharesAt(e, xs, Max(xs), t);
    SumDivided(ws, Sum(ws));
    QuotientOf(1.0, Sum(ws), Sum(ws));
  }

  /** Whatever number is subtracted first, the shares are the same. */
  lemma {:induction false} ScaleFree(e: real -> real, xs: seq<real>, m: real, n: real, t: real)
    requires Exponential(e) && xs != [] && t > 0.0
    ensures Shares(e, xs, m, t) == Shares(e, xs, n, t)
  {
    hide Exponential, Weight, Weights, Divided, Shares, Sum;
    SharesAt(e, xs, m, t);
    SharesAt(e, xs, n, t);
    Rescaled(e, xs, m, n, t);
    var total := Sum(Weights(e, xs, m, t));
    forall i | 0 <= i < |xs| ensures Shares(e, xs, m, t)[i] == Shares(e, xs, n, t)[i] {
      WeightRescaled(e, xs[i], m, n, t);
    }
  }

  lemma {:induction false} Rescaled(e: real -> real, xs: seq<real>, m: real, n: real, t: real)
    requires Exponential(e) && t > 0.0
    ensures Sum(Weights(e, xs, n, t)) == e((m - n) / t) * Sum(Weights(e, xs, m, t))
  {
    hide Exponential, Weight;
    if xs != [] {
      Rescaled(e, xs[1..], m, n, t);
      var ws, vs := Weights(e, xs, m, t), Weights(e, xs, n, t);
      assert ws[1..] == Weights(e, xs[1..], m, t) && vs[1..] == Weights(e, xs[1..], n, t);
      WeightRescaled(e, xs[0], m, n, t);
      hide Weights;
    }
  }

  function Shifted(xs: seq<real>, c: real): (ys: seq<real>)
    ensures |ys| == |xs|
  {
    seq(|xs|, i requires 0 <= i < |xs| => xs[i] + c)
  }

  lemma ShiftedWeights(e: real -> real, xs: seq<real>, m: real, c: real, t: real)
    requires t > 0.0
    ensures Weights(e, Shifted(xs, c), m + c, t) == Weights(e, xs, m, t)
  {
    forall i | 0 <= i < |xs| ensures Weight(e, Shifted(xs, c)[i], m + c, t) == Weight(e, xs[i], m, t) {
      assert Shifted(xs, c)[i] - (m + c) == xs[i] - m;
    }
    hide Weight, Shifted;
  }

  /** Adding a constant to every logit changes nothing. */
  lemma {:induction false} ShiftInvariant(e: real -> real, xs: seq<real>, c: real, t: real)
    requires Exponential(e) && xs != [] && t > 0.0
    ensures Softmax(e, Shifted(xs, c), t) == Softmax(e, xs, t)
  {
    hide Exponential, Weight, Weights, Divided, Sum, Max, Shifted;
    var m := Max(xs);
    ScaleFree(e, Shifted(xs, c), Max(Shifted(xs, c)), m + c, t);
    ShiftedWeights(e, xs, m, c, t);
  }

  lemma DivideOrder(a: real, b: real, d: real)
    requires d > 0.0
    ensures a < b <==> a / d < b / d
  {
    ScaleIff(a / d, b / d, d);
  }

  /** The order of the logits is the order of the probabilities, at every temperature. */
  lemma {:induction false} OrderPreserving(e: real -> real, xs: seq<real>, t: real, i: nat, j: nat)
    requires Exponential(e) && t > 0.0 && i < |xs| && j < |xs|
    ensures xs[i] < xs[j] <==> Softmax(e, xs, t)[i] < Softmax(e, xs, t)[j]
  {
    hide Exponential, Weight, Weights, Divided, Shares, Sum;
    var m := Max(xs);
    SharesAt(e, xs, m, t);
    WeightIncreases(e, xs[i], xs[j], m, t);
    DivideOrder(Weight(e, xs[i], m, t), Weight(e, xs[j], m, t), Sum(Weights(e, xs, m, t)));
  }

  /** So the temperature never changes the choice. */
  lemma {:induction false} ChoiceIgnoresTemperature(e: real -> real, xs: seq<real>, t: real)
    requires Exponential(e) && xs != [] && t > 0.0
    ensures FirstArgmax(Softmax(e, xs, t)) == FirstArgmax(xs)
  {
    var k, p := FirstArgmax(xs), FirstArgmax(Softmax(e, xs, t));
    OrderPreserving(e, xs, t, k, p);
    OrderPreserving(e, xs, t, p, k);
  }

  // ---------------------------------------------------------------- coverage

  /** The probabilities at some positions, added up. */
  function Mass(ps: seq<real>, ids: seq<nat>): real
    requires forall i :: 0 <= i < |ids| ==> ids[i] < |ps|
  {
    if ids == [] then 0.0 else ps[ids[0]] + Mass(ps, ids[1..])
  }

  function Picked(xs: seq<real>, ids: seq<nat>): (ys: seq<real>)
    requires forall i :: 0 <= i < |ids| ==> ids[i] < |xs|
    ensures |ys| == |ids|
  {
    seq(|ids|, i requires 0 <= i < |ids| => xs[ids[i]])
  }

  lemma {:induction false} MassOfPicked(ps: seq<real>, ids: seq<nat>)
    requires forall i :: 0 <= i < |ids| ==> ids[i] < |ps|
    ensures Mass(ps, ids) == Sum(Picked(ps, ids))
  {
    if ids != [] {
      MassOfPicked(ps, ids[1..]);
      assert Picked(ps, ids)[1..] == Picked(ps, ids[1..]);
    }
  }

  /** Restricting is conditioning: a restricted probability times the coverage is the full-vocabulary probability. */
  lemma {:induction false} RestrictedIsConditional(e: real -> real, row: seq<real>, ids: seq<nat>, i: nat)
    requires Exponential(e) && i < |ids| && forall j :: 0 <= j < |ids| ==> ids[j] < |row|
    ensures Softmax(e, Picked(row, ids), 1.0)[i] * Mass(Softmax(e, row, 1.0), ids) == Softmax(e, row, 1.0)[ids[i]]
  {
    hide Exponential, Weight, Max, Shares, Mass, Sum;
    var m, picked := Max(row), Picked(row, ids);
    var full, part := Weights(e, row, m, 1.0), Weights(e, picked, m, 1.0);
    ScaleFree(e, picked, Max(picked), m, 1.0);
    SharesAt(e, row, m, 1.0);
    SharesAt(e, picked, m, 1.0);
    var ps := Softmax(e, row, 1.0);
    assert Picked(ps, ids) == Divided(part, Sum(full));
    MassOfPicked(ps, ids);
    SumDivided(part, Sum(full));
    Conditional(part[i], Sum(part), Sum(full));
  }

  lemma Conditional(w: real, part: real, full: real)
    requires part > 0.0 && full > 0.0
    ensures (w / part) * (part / full) == w / full
  {
    var a, b := w / part, part / full;
    assert a * part == w && b * full == part;
    assert (a * b) * full == a * (b * full);
  }

  // ---------------------------------------------------------------- coverage as the engine accumulates it

  function LogSumExp(e: real -> real, l: real -> real, row: seq<real>): real
    requires row != []
  {
    Max(row) + l(Sum(Weights(e, row, Max(row), 1.0)))
  }

  function ScaledTotal(e: real -> real, row: seq<real>, ids: seq<nat>, scale: real): real
    requires forall i :: 0 <= i < |ids| ==> ids[i] < |row|
  {
    if ids == [] then 0.0 else e(row[ids[0]] - scale) + ScaledTotal(e, row, ids[1..], scale)
  }

  function Capped(x: real): real {
    if x < 1.0 then x else 1.0
  }

  /** `coverage_from_scale`: with the row's scale computed once, the mass is the softmax's own, capped at one. */
  method CoverageFromScale(e: real -> real, ghost l: real -> real, row: seq<real>, ids: seq<nat>, scale: real)
    returns (c: real)
    requires Exponential(e) && Logarithm(e, l) && row != []
    requires forall i :: 0 <= i < |ids| ==> ids[i] < |row|
    requires scale == LogSumExp(e, l, row)
    ensures c == Capped(Mass(Softmax(e, row, 1.0), ids))
  {
    hide Exponential, Logarithm, LogSumExp, Softmax;
    if ids == [] {
      return 0.0;
    }
    var total, i := 0.0, 0;
    while i < |ids|
      invariant 0 <= i <= |ids|
      invariant total + ScaledTotal(e, row, ids[i..], scale) == ScaledTotal(e, row, ids, scale)
    {
      total := total + e(row[ids[i]] - scale);
      assert ids[i..][1..] == ids[i + 1..];
      i := i + 1;
    }
    ScaledIsSoftmax(e, l, row, ids);
    return if 1.0 < total then 1.0 else total;
  }

  lemma {:induction false} ScaledIsSoftmax(e: real -> real, l: real -> real, row: seq<real>, ids: seq<nat>)
    requires Exponential(e) && Logarithm(e, l) && row != []
    requires forall i :: 0 <= i < |ids| ==> ids[i] < |row|
    ensures ScaledTotal(e, row, ids, LogSumExp(e, l, row)) == Mass(Softmax(e, row, 1.0), ids)
  {
    if ids != [] {
      ScaledIsSoftmax(e, l, row, ids[1..]);
      ScaledProbability(e, l, row, ids[0]);
      hide Exponential, Logarithm, LogSumExp, Softmax;
    }
  }

  /** The logarithmic scale gives the softmax's own probability. */
  lemma {:induction false} ScaledProbability(e: real -> real, l: real -> real, row: seq<real>, id: nat)
    requires Exponential(e) && Logarithm(e, l) && id < |row|
    ensures e(row[id] - LogSumExp(e, l, row)) == Softmax(e, row, 1.0)[id]
  {
    hide Exponential, Weights, Shares, Max, Sum;
    var m, x := Max(row), row[id];
    var total := Sum(Weights(e, row, m, 1.0));
    SharesAt(e, row, m, 1.0);
    assert e(l(total)) == total;
    hide Logarithm;
    ExpAdds(e, x - LogSumExp(e, l, row), l(total));
    assert x - LogSumExp(e, l, row) + l(total) == (x - m) / 1.0;
    QuotientOf(e(x - LogSumExp(e, l, row)), total, Weight(e, x, m, 1.0));
  }

  function CappedByWave(ps: seq<real>, groups: seq<seq<nat>>): real
    requires forall g <- groups :: forall i :: 0 <= i < |g| ==> g[i] < |ps|
  {
    if groups == [] then 0.0
    else
      assert groups[0] in groups;
      Capped(Mass(ps, groups[0])) + CappedByWave(ps, groups[1..])
  }

  function Flat(groups: seq<seq<nat>>): seq<nat> {
    if groups == [] then [] else groups[0] + Flat(groups[1..])
  }

  lemma {:induction false} MassJoins(ps: seq<real>, a: seq<nat>, b: seq<nat>)
    requires forall i :: 0 <= i < |a| ==> a[i] < |ps|
    requires forall i :: 0 <= i < |b| ==> b[i] < |ps|
    ensures forall i :: 0 <= i < |a + b| ==> (a + b)[i] < |ps|
    ensures Mass(ps, a + b) == Mass(ps, a) + Mass(ps, b)
  {
    if a == [] {
      assert a + b == b;
    } else {
      MassJoins(ps, a[1..], b);
      assert (a + b)[1..] == a[1..] + b;
    }
  }

  /** Capping wave by wave and once more at the end is capping the whole: the waves leave no trace. */
  lemma {:induction false} CoverageIgnoresWaves(ps: seq<real>, groups: seq<seq<nat>>)
    requires forall i :: 0 <= i < |ps| ==> ps[i] >= 0.0
    requires forall g <- groups :: forall i :: 0 <= i < |g| ==> g[i] < |ps|
    ensures forall i :: 0 <= i < |Flat(groups)| ==> Flat(groups)[i] < |ps|
    ensures Capped(CappedByWave(ps, groups)) == Capped(Mass(ps, Flat(groups)))
    ensures 0.0 <= CappedByWave(ps, groups) <= Mass(ps, Flat(groups))
  {
    if groups != [] {
      assert groups[0] in groups;
      CoverageIgnoresWaves(ps, groups[1..]);
      MassJoins(ps, groups[0], Flat(groups[1..]));
      MassPositive(ps, groups[0]);
    }
  }

  lemma {:induction false} MassPositive(ps: seq<real>, ids: seq<nat>)
    requires forall i :: 0 <= i < |ps| ==> ps[i] >= 0.0
    requires forall i :: 0 <= i < |ids| ==> ids[i] < |ps|
    ensures Mass(ps, ids) >= 0.0
  {
    if ids != [] {
      MassPositive(ps, ids[1..]);
    }
  }

  // ---------------------------------------------------------------- repeated first tokens

  /** The positions with later repetitions dropped. */
  function Once(ids: seq<nat>): (once: seq<nat>)
    ensures forall k :: k in once <==> k in ids
    ensures |once| <= |ids|
    ensures |once| == |ids| ==> once == ids && AllDistinct(ids)
    ensures AllDistinct(once)
  {
    if ids == [] then []
    else
      var last, rest := ids[|ids| - 1], Once(ids[..|ids| - 1]);
      assert ids == ids[..|ids| - 1] + [last];
      if last in rest then rest else rest + [last]
  }

  /** What the candidates' first tokens really weigh: every token once. */
  function TrueMass(ps: seq<real>, ids: seq<nat>): real
    requires forall i :: 0 <= i < |ids| ==> ids[i] < |ps|
  {
    assert forall i :: 0 <= i < |Once(ids)| ==> Once(ids)[i] in ids;
    Mass(ps, Once(ids))
  }

  lemma OnceMore(ids: seq<nat>, last: nat)
    ensures Once(ids + [last]) == if last in ids then Once(ids) else Once(ids) + [last]
    ensures AllDistinct(ids + [last]) <==> AllDistinct(ids) && last !in ids
  {
    var all := ids + [last];
    assert all[..|all| - 1] == ids && all[|all| - 1] == last;
    hide Once;
    if last in ids {
      var j :| 0 <= j < |ids| && ids[j] == last;
      assert all[j] == all[|ids|];
    }
    if AllDistinct(all) {
      assert forall i :: 0 <= i < |ids| ==> all[i] == ids[i];
    }
  }

  lemma MassMore(ps: seq<real>, ids: seq<nat>, last: nat)
    requires last < |ps| && forall i :: 0 <= i < |ids| ==> ids[i] < |ps|
    ensures forall i :: 0 <= i < |ids + [last]| ==> (ids + [last])[i] < |ps|
    ensures Mass(ps, ids + [last]) == Mass(ps, ids) + ps[last]
  {
    MassJoins(ps, ids, [last]);
    assert Mass(ps, [last]) == ps[last] + Mass(ps, [last][1..]);
  }

  /** Candidates that begin with the same token are counted once each: the uncapped sum is the mass iff none do. */
  lemma {:induction false} CountedOnce(ps: seq<real>, ids: seq<nat>)
    requires forall i :: 0 <= i < |ps| ==> ps[i] > 0.0
    requires forall i :: 0 <= i < |ids| ==> ids[i] < |ps|
    ensures Mass(ps, ids) >= TrueMass(ps, ids)
    ensures Mass(ps, ids) == TrueMass(ps, ids) <==> AllDistinct(ids)
  {
    if ids != [] {
      var n := |ids| - 1;
      var init, last := ids[..n], ids[n];
      assert ids == init + [last];
      CountedOnce(ps, init);
      TrueIsOnce(ps, init);
      TrueIsOnce(ps, ids);
      hide *;
      OnceMore(init, last);
      MassMore(ps, init, last);
      if last !in init {
        MassMore(ps, Once(init), last);
      }
    }
  }

  lemma TrueIsOnce(ps: seq<real>, ids: seq<nat>)
    requires forall i :: 0 <= i < |ids| ==> ids[i] < |ps|
    ensures forall i :: 0 <= i < |Once(ids)| ==> Once(ids)[i] < |ps|
    ensures TrueMass(ps, ids) == Mass(ps, Once(ids))
  {
    hide Once, Mass;
    assert forall i :: 0 <= i < |Once(ids)| ==> Once(ids)[i] in ids;
  }

  /** Distinct positions weigh at most everything, and everything only when they are all there. */
  lemma {:induction false} PartOfWhole(ps: seq<real>, ids: seq<nat>)
    requires forall i :: 0 <= i < |ps| ==> ps[i] >= 0.0
    requires AllDistinct(ids) && forall i :: 0 <= i < |ids| ==> ids[i] < |ps|
    ensures Mass(ps, ids) <= Sum(ps)
    ensures (exists k :: 0 <= k < |ps| && k !in ids && ps[k] > 0.0) ==> Mass(ps, ids) < Sum(ps)
    decreases |ids|
  {
    if ids == [] {
      AllPositive(ps);
    } else {
      var k := ids[0];
      var zeroed := ps[k := 0.0];
      SumUpdated(ps, k);
      PartOfWhole(zeroed, ids[1..]);
      MassUntouched(ps, k, ids[1..]);
      if j :| 0 <= j < |ps| && j !in ids && ps[j] > 0.0 {
        assert zeroed[j] > 0.0 && j !in ids[1..];
      }
    }
  }

  lemma {:induction false} AllPositive(ps: seq<real>)
    requires forall i :: 0 <= i < |ps| ==> ps[i] >= 0.0
    ensures Sum(ps) >= 0.0
    ensures (exists k :: 0 <= k < |ps| && ps[k] > 0.0) ==> Sum(ps) > 0.0
  {
    if ps != [] {
      AllPositive(ps[1..]);
      if k :| 0 <= k < |ps| && ps[k] > 0.0 {
        if k > 0 {
          assert ps[1..][k - 1] > 0.0;
        }
      }
    }
  }

  lemma {:induction false} SumUpdated(ps: seq<real>, k: nat)
    requires k < |ps|
    ensures Sum(ps[k := 0.0]) == Sum(ps) - ps[k]
  {
    if k == 0 {
      assert ps[k := 0.0][1..] == ps[1..];
    } else {
      SumUpdated(ps[1..], k - 1);
      assert ps[k := 0.0][1..] == ps[1..][k - 1 := 0.0];
    }
  }

  lemma {:induction false} MassUntouched(ps: seq<real>, k: nat, ids: seq<nat>)
    requires k < |ps| && forall i :: 0 <= i < |ids| ==> ids[i] < |ps| && ids[i] != k
    ensures Mass(ps[k := 0.0], ids) == Mass(ps, ids)
  {
    if ids != [] {
      MassUntouched(ps, k, ids[1..]);
    }
  }

  /** The published coverage is the mass of the candidates' first tokens exactly when no two candidates
      begin with the same token, or the first tokens exhaust the vocabulary. */
  lemma {:induction false} CoverageIsMass(e: real -> real, row: seq<real>, ids: seq<nat>)
    requires Exponential(e) && row != []
    requires forall i :: 0 <= i < |ids| ==> ids[i] < |row|
    ensures Capped(Mass(Softmax(e, row, 1.0), ids)) == TrueMass(Softmax(e, row, 1.0), ids) <==>
            AllDistinct(ids) || forall k :: 0 <= k < |row| ==> k in ids
  {
    var ps := Softmax(e, row, 1.0);
    SoftmaxIsDistribution(e, row, 1.0);
    hide Exponential, Softmax;
    CountedOnce(ps, ids);
    var once := Once(ids);
    assert forall i :: 0 <= i < |once| ==> once[i] in ids;
    PartOfWhole(ps, once);
    if forall k :: 0 <= k < |row| ==> k in ids {
      Everything(ps, once);
    } else {
      var k :| 0 <= k < |row| && k !in ids;
      assert k !in once && ps[k] > 0.0;
    }
  }

  lemma {:induction false} Everything(ps: seq<real>, ids: seq<nat>)
    requires AllDistinct(ids) && forall i :: 0 <= i < |ids| ==> ids[i] < |ps|
    requires forall k :: 0 <= k < |ps| && ps[k] != 0.0 ==> k in ids
    ensures Mass(ps, ids) == Sum(ps)
    decreases |ids|
  {
    if ids == [] {
      AllZero(ps);
    } else {
      var k := ids[0];
      SumUpdated(ps, k);
      forall j | 0 <= j < |ps| && ps[k := 0.0][j] != 0.0 ensures j in ids[1..] {
        assert j in ids && j != k;
      }
      Everything(ps[k := 0.0], ids[1..]);
      MassUntouched(ps, k, ids[1..]);
    }
  }

  lemma {:induction false} AllZero(ps: seq<real>)
    requires forall i :: 0 <= i < |ps| ==> ps[i] == 0.0
    ensures Sum(ps) == 0.0
  {
    if ps != [] {
      AllZero(ps[1..]);
    }
  }

  /** Two candidates that share a token of mass 3/50 are reported above a floor of 1/10 their mass is below. */
  lemma {:induction false} SharedTokenHidesLowMass()
    ensures var ps := [0.94, 0.06];
            Sum(ps) == 1.0 && TrueMass(ps, [1, 1]) < 0.10 <= Capped(Mass(ps, [1, 1]))
  {
    var ps := [0.94, 0.06];
    assert Sum(ps[1..]) == 0.06 + Sum(ps[1..][1..]);
    assert Once([1][..0]) == [] && [1, 1][..1] == [1];
    assert Once([1]) == [1];
    assert Once([1, 1]) == [1];
    assert Mass(ps, [1][1..]) == 0.0;
    assert [1, 1][1..] == [1];
  }

  // ---------------------------------------------------------------- confidence

  function Clamp01(x: real): real {
    if x < 0.0 then 0.0 else if x > 1.0 then 1.0 else x
  }

  ghost predicate Distribution(ps: seq<real>) {
    (forall i :: 0 <= i < |ps| ==> ps[i] >= 0.0) && Sum(ps) == 1.0
  }

  /** All probabilities but one are zero. */
  ghost predicate Degenerate(ps: seq<real>) {
    exists i :: 0 <= i < |ps| && ps[i] == 1.0
  }

  ghost predicate Uniform(ps: seq<real>) {
    forall i, j :: 0 <= i < |ps| && 0 <= j < |ps| ==> ps[i] == ps[j]
  }

  /** The excess of the peak over uniform before clamping. */
  function RawPeak(ps: seq<real>): real
    requires |ps| >= 2
  {
    var u := 1.0 / |ps| as real;
    assert u < 1.0;
    (Max(ps) - u) / (1.0 - u)
  }

  /** The same for the lead of the first candidate over the second, before clamping. */
  function RawMargin(ps: seq<real>): real
    requires |ps| >= 2
  {
    var k := FirstArgmax(ps);
    var second := Max(ps[..k] + ps[k + 1..]);
    if second >= 1.0 then 0.0 else (ps[k] - second) / (1.0 - second)
  }

  function NormalizedPeak(ps: seq<real>): real {
    if |ps| <= 1 then 1.0 else Clamp01(RawPeak(ps))
  }

  function Margin(ps: seq<real>): real {
    if |ps| < 2 then 0.0 else Clamp01(RawMargin(ps))
  }

  lemma {:induction false} SumAtMost(ps: seq<real>, m: real)
    requires forall i :: 0 <= i < |ps| ==> ps[i] <= m
    ensures Sum(ps) <= |ps| as real * m
    ensures Sum(ps) == |ps| as real * m ==> forall i :: 0 <= i < |ps| ==> ps[i] == m
  {
    if ps != [] {
      SumAtMost(ps[1..], m);
      var n := |ps[1..]| as real;
      assert |ps| as real == n + 1.0;
      assert (n + 1.0) * m == n * m + m;
      assert forall i :: 1 <= i < |ps| ==> ps[i] == ps[1..][i - 1];
    }
  }

  lemma {:induction false} SumAllEqual(ps: seq<real>, m: real)
    requires forall i :: 0 <= i < |ps| ==> ps[i] == m
    ensures Sum(ps) == |ps| as real * m
  {
    if ps != [] {
      SumAllEqual(ps[1..], m);
      var n := |ps[1..]| as real;
      assert |ps| as real == n + 1.0;
      assert (n + 1.0) * m == n * m + m;
    }
  }

  /** On every distribution the normalized peak is a confidence as it stands: zero exactly for the uniform
      distribution, one exactly for a certain answer. */
  lemma {:induction false} PeakNeedsNoClamp(ps: seq<real>)
    requires |ps| >= 2 && Distribution(ps)
    ensures 0.0 <= RawPeak(ps) <= 1.0 && NormalizedPeak(ps) == RawPeak(ps)
    ensures RawPeak(ps) == 0.0 <==> Uniform(ps)
    ensures RawPeak(ps) == 1.0 <==> Degenerate(ps)
  {
    hide Uniform, Degenerate, Distribution, Max;
    PeakInside(ps);
    UniformPeak(ps);
  }

  lemma {:induction false} UniformPeak(ps: seq<real>)
    requires ps != [] && Distribution(ps)
    ensures |ps| as real * Max(ps) >= 1.0
    ensures |ps| as real * Max(ps) == 1.0 <==> Uniform(ps)
  {
    hide Sum, Max, Uniform;
    var m := Max(ps);
    AllAtPeak(ps);
    SumAtMost(ps, m);
    if forall i :: 0 <= i < |ps| ==> ps[i] == m {
      SumAllEqual(ps, m);
    }
  }

  lemma {:induction false} AllAtPeak(ps: seq<real>)
    requires ps != []
    ensures Uniform(ps) <==> forall i :: 0 <= i < |ps| ==> ps[i] == Max(ps)
  {
    hide Max;
  }

  lemma {:induction false} PeakInside(ps: seq<real>)
    requires ps != [] && Distribution(ps)
    ensures 0.0 <= Max(ps) <= 1.0
    ensures Degenerate(ps) <==> Max(ps) == 1.0
  {
    forall i | 0 <= i < |ps| ensures ps[i] <= 1.0 {
      PartOfSum(ps, i);
    }
  }

  lemma Fraction(a: real, d: real)
    requires 0.0 <= a <= d && d > 0.0
    ensures 0.0 <= a / d <= 1.0 && (a / d == 0.0 <==> a == 0.0) && (a / d == 1.0 <==> a == d)
  {
    var q := a / d;
    assert q * d == a;
  }

  /** The runner-up has at most what the first leaves. */
  lemma RunnerUp(ps: seq<real>)
    requires |ps| >= 2 && Distribution(ps)
    ensures var k := FirstArgmax(ps);
            var second := Max(ps[..k] + ps[k + 1..]);
            0.0 <= second <= ps[k] && second <= 1.0 - ps[k] && ps[k] <= 1.0
  {
    var k := FirstArgmax(ps);
    var others := ps[..k] + ps[k + 1..];
    hide Sum, Max;
    var j :| 0 <= j < |others| && others[j] == Max(others);
    SumWithout(ps, k);
    OthersWithin(ps, k);
    PartOfSum(others, j);
    PartOfSum(ps, k);
  }

  lemma OthersWithin(ps: seq<real>, k: nat)
    requires k < |ps| && forall i :: 0 <= i < |ps| ==> 0.0 <= ps[i] <= ps[k]
    ensures var others := ps[..k] + ps[k + 1..];
            forall i :: 0 <= i < |others| ==> 0.0 <= others[i] <= ps[k]
  {
    var others := ps[..k] + ps[k + 1..];
    forall i | 0 <= i < |others| ensures 0.0 <= others[i] <= ps[k] {
      assert others[i] == if i < k then ps[i] else ps[i + 1];
    }
  }

  lemma CertainIsFirst(ps: seq<real>)
    requires ps != [] && Distribution(ps)
    ensures Degenerate(ps) <==> ps[FirstArgmax(ps)] == 1.0
  {
    hide Sum;
    PartOfSum(ps, FirstArgmax(ps));
  }

  /** The margin needs no clamp either, and its guard against a certain runner-up never fires. */
  lemma {:induction false} MarginNeedsNoClamp(ps: seq<real>)
    requires |ps| >= 2 && Distribution(ps)
    ensures 0.0 <= RawMargin(ps) <= 1.0 && Margin(ps) == RawMargin(ps)
    ensures var k := FirstArgmax(ps); Max(ps[..k] + ps[k + 1..]) <= 0.5
    ensures RawMargin(ps) == 1.0 <==> Degenerate(ps)
  {
    hide Distribution, Degenerate, Max;
    RunnerUp(ps);
    CertainIsFirst(ps);
    var k := FirstArgmax(ps);
    var second := Max(ps[..k] + ps[k + 1..]);
    Fraction(ps[k] - second, 1.0 - second);
  }

  lemma {:induction false} SumWithout(ps: seq<real>, k: nat)
    requires k < |ps|
    ensures Sum(ps[..k] + ps[k + 1..]) == Sum(ps) - ps[k]
  {
    if k == 0 {
      assert ps[..0] + ps[1..] == ps[1..];
    } else {
      SumWithout(ps[1..], k - 1);
      assert (ps[..k] + ps[k + 1..])[1..] == ps[1..][..k - 1] + ps[1..][k..];
    }
  }

  // ---------------------------------------------------------------- entropy

  /** What is used of `log` beyond its inverse: products, and the tangent that touches it at one alone. */
  ghost predicate Concave(l: real -> real) {
    && (forall x, y :: x > 0.0 && y > 0.0 ==> l(x * y) == l(x) + l(y))
    && (forall x :: x > 0.0 && x != 1.0 ==> l(x) < x - 1.0)
  }

  /** -p·log p, zero for an impossible candidate. */
  function Surprise(l: real -> real, p: real): real {
    if p > 0.0 then -(p * l(p)) else 0.0
  }

  /** -Σ p·log p over the positive probabilities. */
  function Entropy(l: real -> real, ps: seq<real>): real {
    if ps == [] then 0.0 else Surprise(l, ps[0]) + Entropy(l, ps[1..])
  }

  function RawEntropy(l: real -> real, ps: seq<real>): real
    requires l(|ps| as real) != 0.0
  {
    1.0 - Entropy(l, ps) / l(|ps| as real)
  }

  lemma LogMultiplies(l: real -> real, x: real, y: real)
    requires Concave(l) && x > 0.0 && y > 0.0
    ensures l(x * y) == l(x) + l(y)
  {
  }

  lemma LogTangent(l: real -> real, x: real)
    requires Concave(l) && x > 0.0
    ensures l(x) <= x - 1.0 && (l(x) == x - 1.0 <==> x == 1.0)
  {
    LogOfOne(l);
  }

  lemma LogOfOne(l: real -> real)
    requires Concave(l)
    ensures l(1.0) == 0.0
  {
    LogMultiplies(l, 1.0, 1.0);
  }

  lemma LogOfInverse(l: real -> real, k: real)
    requires Concave(l) && k > 0.0
    ensures 1.0 / k > 0.0 && l(1.0 / k) == -l(k)
  {
    hide Concave;
    LogOfOne(l);
    var u := 1.0 / k;
    assert u * k == 1.0;
    LogMultiplies(l, u, k);
  }

  /** Σ p·log k + Σ(1/k - p) for `n` summands of the given sum. */
  function Ceiling(lk: real, sum: real, n: real, k: real): real
    requires k != 0.0
  {
    lk * sum + n / k - sum
  }

  /** Gibbs' inequality, one summand at a time: an entropy exceeds `log k` by no more than Σ(1/k - p), and
      reaches that exactly where every summand is 1/k. */
  lemma {:induction false} EntropyAtMost(l: real -> real, ps: seq<real>, k: real)
    requires Concave(l) && k > 0.0 && forall i :: 0 <= i < |ps| ==> ps[i] >= 0.0
    ensures Entropy(l, ps) <= Ceiling(l(k), Sum(ps), |ps| as real, k)
    ensures Entropy(l, ps) == Ceiling(l(k), Sum(ps), |ps| as real, k) <==> forall i :: 0 <= i < |ps| ==> ps[i] == 1.0 / k
  {
    hide *;
    EntropyParts(l, ps);
    if ps == [] {
      NoCeiling(l(k), k);
    } else {
      var rest, n := ps[1..], |ps| - 1;
      EntropyAtMost(l, rest, k);
      Summand(l, ps[0], k);
      FromSecond(ps, 1.0 / k);
      assert |ps| as real == n as real + 1.0;
      OneMoreSummand(Surprise(l, ps[0]), Entropy(l, rest), l(k), ps[0], Sum(rest), n as real, k);
    }
  }

  lemma EntropyParts(l: real -> real, ps: seq<real>)
    ensures ps == [] ==> Entropy(l, ps) == 0.0 && Sum(ps) == 0.0
    ensures ps != [] ==> Entropy(l, ps) == Surprise(l, ps[0]) + Entropy(l, ps[1..]) && Sum(ps) == ps[0] + Sum(ps[1..])
  {
  }

  /** Bounds on one summand and on the rest make the bound on the sum, reached when both are. */
  lemma OneMoreSummand(surprise: real, entropy: real, lk: real, p: real, sum: real, n: real, k: real)
    requires k > 0.0
    requires surprise <= lk * p + 1.0 / k - p && entropy <= Ceiling(lk, sum, n, k)
    ensures surprise + entropy <= Ceiling(lk, p + sum, n + 1.0, k)
    ensures surprise + entropy == Ceiling(lk, p + sum, n + 1.0, k) <==>
            surprise == lk * p + 1.0 / k - p && entropy == Ceiling(lk, sum, n, k)
  {
    BoundParts(lk, p, sum, n, k);
    Together(surprise, entropy, lk * p + 1.0 / k - p, lk * sum + n / k - sum);
  }

  lemma NoCeiling(lk: real, k: real)
    requires k > 0.0
    ensures Ceiling(lk, 0.0, 0.0, k) == 0.0
  {
  }

  lemma BoundParts(lk: real, p: real, sum: real, n: real, k: real)
    requires k > 0.0
    ensures lk * (p + sum) + (n + 1.0) / k - (p + sum) == (lk * p + 1.0 / k - p) + (lk * sum + n / k - sum)
  {
    DivideSum(n, 1.0, k);
  }

  lemma Together(a: real, b: real, atMost: real, bAtMost: real)
    requires a <= atMost && b <= bAtMost
    ensures a + b <= atMost + bAtMost && (a + b == atMost + bAtMost <==> a == atMost && b == bAtMost)
  {
  }

  lemma FromSecond(ps: seq<real>, x: real)
    requires ps != []
    ensures (forall i :: 0 <= i < |ps| ==> ps[i] == x) <==> ps[0] == x && forall i :: 0 <= i < |ps[1..]| ==> ps[1..][i] == x
  {
    assert forall i :: 1 <= i < |ps| ==> ps[i] == ps[1..][i - 1];
  }

  lemma {:induction false} Summand(l: real -> real, p: real, k: real)
    requires Concave(l) && k > 0.0 && p >= 0.0
    ensures Surprise(l, p) <= l(k) * p + 1.0 / k - p
    ensures Surprise(l, p) == l(k) * p + 1.0 / k - p <==> p == 1.0 / k
  {
    hide Concave;
    LogOfInverse(l, k);
    if p > 0.0 {
      var u := 1.0 / k;
      var q := u / p;
      assert q * p == u;
      LogMultiplies(l, q, p);
      LogTangent(l, q);
      SummandScaled(l(q), l(p), l(k), p, q, u);
    }
  }

  /** The tangent at `q` scaled by `p`, where `q·p = u`. */
  lemma SummandScaled(lq: real, lp: real, lk: real, p: real, q: real, u: real)
    requires p > 0.0 && q * p == u && -lk == lq + lp
    requires lq <= q - 1.0 && (lq == q - 1.0 <==> q == 1.0)
    ensures -(p * lp) <= lk * p + u - p && (-(p * lp) == lk * p + u - p <==> p == u)
  {
    var gap := q - 1.0 - lq;
    assert p * gap == lk * p + u - p + p * lp by {
      assert p * gap == p * q - p - p * lq;
      assert lp == -lk - lq;
      assert p * lp == -(p * lk) - p * lq;
    }
    FactorOne(p, q, u);
    if gap > 0.0 {
      assert p * gap > 0.0;
    }
  }

  lemma FactorOne(p: real, q: real, u: real)
    requires p > 0.0 && q * p == u
    ensures p == u <==> q == 1.0
  {
    if p == u {
      QuotientOf(q, p, u);
    }
  }

  /** No entropy is negative, and it is zero exactly where nothing lies strictly between zero and one. */
  lemma {:induction false} EntropyPositive(l: real -> real, ps: seq<real>)
    requires Concave(l) && forall i :: 0 <= i < |ps| ==> 0.0 <= ps[i] <= 1.0
    ensures Entropy(l, ps) >= 0.0
    ensures Entropy(l, ps) == 0.0 <==> forall i :: 0 <= i < |ps| ==> ps[i] == 0.0 || ps[i] == 1.0
  {
    hide Concave;
    if ps != [] {
      EntropyPositive(l, ps[1..]);
      LogOfOne(l);
      if ps[0] > 0.0 {
        LogTangent(l, ps[0]);
        SurprisePositive(ps[0], l(ps[0]));
      }
      assert forall i :: 1 <= i < |ps| ==> ps[i] == ps[1..][i - 1];
    }
  }

  lemma SurprisePositive(p: real, lp: real)
    requires 0.0 < p <= 1.0 && lp <= p - 1.0 && (p == 1.0 ==> lp == 0.0)
    ensures -(p * lp) >= 0.0 && (-(p * lp) == 0.0 <==> p == 1.0)
  {
    if p < 1.0 {
      assert p * -lp > 0.0;
    }
  }

  /** The entropy statistic lies between zero and one before clamping, on every distribution: zero exactly for
      the uniform distribution, one exactly for a certain answer. */
  lemma {:induction false} EntropyNeedsNoClamp(l: real -> real, ps: seq<real>)
    requires |ps| >= 2 && Distribution(ps) && Concave(l)
    ensures l(|ps| as real) > 0.0
    ensures 0.0 <= RawEntropy(l, ps) <= 1.0 && Clamp01(RawEntropy(l, ps)) == RawEntropy(l, ps)
    ensures RawEntropy(l, ps) == 0.0 <==> Uniform(ps)
    ensures RawEntropy(l, ps) == 1.0 <==> Degenerate(ps)
  {
    var k := |ps| as real;
    LogPositive(l, k);
    forall i | 0 <= i < |ps| ensures ps[i] <= 1.0 {
      PartOfSum(ps, i);
    }
    UniformShare(ps);
    OneIsCertain(ps);
    EntropyPositive(l, ps);
    EntropyAtMost(l, ps, k);
    QuotientOf(1.0, k, k);
    assert Ceiling(l(k), Sum(ps), k, k) == l(k);
    hide Ceiling, Concave, Entropy, Uniform, Degenerate, Distribution;
    Fraction(Entropy(l, ps), l(k));
  }

  lemma UniformShare(ps: seq<real>)
    requires ps != [] && Distribution(ps)
    ensures Uniform(ps) <==> forall i :: 0 <= i < |ps| ==> ps[i] == 1.0 / |ps| as real
  {
    hide Sum;
    if Uniform(ps) {
      SumAllEqual(ps, ps[0]);
      assert |ps| as real * ps[0] == 1.0;
    }
  }

  lemma OneIsCertain(ps: seq<real>)
    requires Distribution(ps)
    ensures Degenerate(ps) <==> forall i :: 0 <= i < |ps| ==> ps[i] == 0.0 || ps[i] == 1.0
  {
    hide Sum;
    if Degenerate(ps) {
      var k :| 0 <= k < |ps| && ps[k] == 1.0;
      SumWithout(ps, k);
      var others := ps[..k] + ps[k + 1..];
      forall i | 0 <= i < |others| ensures others[i] >= 0.0 {
        assert others[i] == if i < k then ps[i] else ps[i + 1];
      }
      forall i | 0 <= i < |ps| && i != k ensures ps[i] == 0.0 {
        PartOfSum(others, if i < k then i else i - 1);
      }
    } else if forall i :: 0 <= i < |ps| ==> ps[i] == 0.0 || ps[i] == 1.0 {
      AllZero(ps);
    }
  }

  lemma LogPositive(l: real -> real, k: real)
    requires Concave(l) && k >= 2.0
    ensures l(k) > 0.0
  {
    hide Concave;
    LogOfInverse(l, k);
    var u := 1.0 / k;
    LogTangent(l, u);
    assert u * k == 1.0;
  }
}
