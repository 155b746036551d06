/** What the numbers of a published answer say of its candidates. */
module Answers {
  import opened Arith
  import opened Deciding
  import opened Documents
  import opened KvCache
  import opened Published
  import opened Readout
  import opened Rounding
  import opened Schema
  import opened Sequences
  import opened Text
  import opened Trie
  import opened Wrappers
  import Advance
  import Engine
  import Probe
  import Served
  import Wire

  // ---------------------------------------------------------------- probabilities

  /** Two probabilities are in the ratio of the exponentials of their values over the temperature. */
  lemma {:induction false} Odds(e: real -> real, xs: seq<real>, t: real, i: nat, j: nat)
    requires Exponential(e) && t > 0.0 && i < |xs| && j < |xs|
    ensures Softmax(e, xs, t)[i] * e(xs[j] / t) == Softmax(e, xs, t)[j] * e(xs[i] / t)
  {
    hide *;
    ScaleFree(e, xs, Max(xs), 0.0, t);
    SharesAt(e, xs, 0.0, t);
    SoftmaxMeans(e, xs, t);
    WeightFromZero(e, xs[i], t);
    WeightFromZero(e, xs[j], t);
    CrossShares(e(xs[i] / t), e(xs[j] / t), Sum(Weights(e, xs, 0.0, t)));
  }

  lemma SoftmaxMeans(e: real -> real, xs: seq<real>, t: real)
    requires xs != [] && t > 0.0
    ensures Softmax(e, xs, t) == Shares(e, xs, Max(xs), t)
  {
  }

  lemma WeightFromZero(e: real -> real, x: real, t: real)
    requires t > 0.0
    ensures Weight(e, x, 0.0, t) == e(x / t)
  {
    assert x - 0.0 == x;
  }

  lemma CrossShares(a: real, b: real, total: real)
    requires total > 0.0
    ensures (a / total) * b == (b / total) * a
  {
  }

  /** The probabilities of an answer are in the ratio of the exponentials of the candidates' scores, a score being
      the sum of the candidate's log-probabilities over the power of its length. */
  lemma {:induction false} OddsOfScores(m: Maths, net: Net, head: seq<Token>, scored: seq<Path>, setup: Setup,
                                        r: Wire.Reading, i: nat, j: nat, a: real, b: real)
    requires Sane(m) && head != [] && Engine.Scorable(scored) && setup.temperature > 0.0
    requires Independently(m, net, head, scored, setup, r) && i < |scored| && j < |scored|
    requires a * m.power(|scored[i]|, setup.norm) == Sum(Alone(net, head, scored)[i])
    requires b * m.power(|scored[j]|, setup.norm) == Sum(Alone(net, head, scored)[j])
    ensures |r.probabilities| == |scored|
    ensures r.probabilities[i] * m.exp(b / setup.temperature) == r.probabilities[j] * m.exp(a / setup.temperature)
  {
    hide *;
    var zs := IndependentScores(m, net, head, scored, setup, r);
    ScoreIs(m, net, head, scored, setup.norm, i, a);
    ScoreIs(m, net, head, scored, setup.norm, j, b);
    SaneMeans(m);
    Odds(m.exp, zs, setup.temperature, i, j);
  }

  lemma IndependentScores(m: Maths, net: Net, head: seq<Token>, scored: seq<Path>, setup: Setup, r: Wire.Reading)
    returns (zs: seq<real>)
    requires Sane(m) && head != [] && Engine.Scorable(scored) && setup.temperature > 0.0
    requires Independently(m, net, head, scored, setup, r)
    ensures |zs| == |scored| > 0 && zs == SequenceScores(m, setup.norm, Alone(net, head, scored))
    ensures r.probabilities == Softmax(m.exp, zs, setup.temperature)
    ensures r.coverage == Coverage(m, Alone(net, head, scored))
  {
    hide Coverage, Reliability, Softmax, Confidence, Sum, Exponential, Concave, Probe.Sequential;
    zs := SequenceScores(m, setup.norm, Alone(net, head, scored));
  }

  lemma SaneMeans(m: Maths)
    requires Sane(m)
    ensures Exponential(m.exp) && Concave(m.log) && forall n: nat, x: real :: n >= 1 ==> m.power(n, x) > 0.0
  {
  }

  lemma ScoreIs(m: Maths, net: Net, head: seq<Token>, scored: seq<Path>, norm: real, k: nat, a: real)
    requires Sane(m) && head != [] && Engine.Scorable(scored) && k < |scored|
    requires a * m.power(|scored[k]|, norm) == Sum(Alone(net, head, scored)[k])
    ensures |SequenceScores(m, norm, Alone(net, head, scored))| == |scored|
    ensures SequenceScores(m, norm, Alone(net, head, scored))[k] == a
  {
    hide Sum, FreshRow, Exponential, Concave;
    var lp := Alone(net, head, scored)[k];
    assert |lp| == |scored[k]|;
    QuotientOf(a, m.power(|lp|, norm), Sum(lp));
  }

  /** At length norm 1 that score is the mean log-probability: a longer candidate is not the less likely for it. */
  lemma {:induction false} OddsOfMeans(m: Maths, net: Net, head: seq<Token>, scored: seq<Path>, setup: Setup,
                                       r: Wire.Reading, i: nat, j: nat)
    requires Sane(m) && head != [] && Engine.Scorable(scored) && setup.temperature > 0.0
    requires Independently(m, net, head, scored, setup, r) && i < |scored| && j < |scored|
    requires setup.norm == 1.0 && forall n: nat :: n >= 1 ==> m.power(n, 1.0) == n as real
    ensures |r.probabilities| == |scored| && scored[i] != [] && scored[j] != []
    ensures var lp := Alone(net, head, scored);
            var a, b := Sum(lp[i]) / |scored[i]| as real, Sum(lp[j]) / |scored[j]| as real;
            r.probabilities[i] * m.exp(b / setup.temperature) == r.probabilities[j] * m.exp(a / setup.temperature)
  {
    hide *;
    var zs := IndependentScores(m, net, head, scored, setup, r);
    ScorableTokens(scored);
    var lp := Alone(net, head, scored);
    var a, b := Sum(lp[i]) / |scored[i]| as real, Sum(lp[j]) / |scored[j]| as real;
    assert a * |scored[i]| as real == Sum(lp[i]) && b * |scored[j]| as real == Sum(lp[j]);
    assert m.power(|scored[i]|, 1.0) == |scored[i]| as real && m.power(|scored[j]|, 1.0) == |scored[j]| as real;
    OddsOfScores(m, net, head, scored, setup, r, i, j, a, b);
  }

  /** The mean lies between the least and the greatest log-probability and is the same for the list said twice. */
  lemma {:induction false} ScoreIsMean(m: Maths, logprobs: seq<real>, low: real, high: real)
    requires logprobs != [] && forall n: nat :: n >= 1 ==> m.power(n, 1.0) == n as real
    requires forall i :: 0 <= i < |logprobs| ==> low <= logprobs[i] <= high
    ensures low <= SequenceScore(m, 1.0, logprobs) <= high
    ensures SequenceScore(m, 1.0, logprobs + logprobs) == SequenceScore(m, 1.0, logprobs)
  {
    var n := |logprobs|;
    assert m.power(n, 1.0) == n as real && m.power(|logprobs + logprobs|, 1.0) == n as real + n as real;
    SumJoins(logprobs, logprobs);
    SumBetween(logprobs, low, high);
    hide Sum;
    MeanBetween(Sum(logprobs), n as real, low, high);
    SameMean(Sum(logprobs), n as real);
  }

  lemma {:induction false} SumBetween(xs: seq<real>, low: real, high: real)
    requires forall i :: 0 <= i < |xs| ==> low <= xs[i] <= high
    ensures |xs| as real * low <= Sum(xs) <= |xs| as real * high
  {
    if xs != [] {
      SumBetween(xs[1..], low, high);
      var n := |xs[1..]| as real;
      assert |xs| as real == n + 1.0;
      assert (n + 1.0) * low == n * low + low && (n + 1.0) * high == n * high + high;
    }
  }

  lemma MeanBetween(sum: real, n: real, low: real, high: real)
    requires n > 0.0 && n * low <= sum <= n * high
    ensures low <= sum / n <= high
  {
    var q := sum / n;
    assert q * n == sum;
    ScaleIff(q, low, n);
    ScaleIff(high, q, n);
  }

  lemma SameMean(sum: real, n: real)
    requires n > 0.0
    ensures (sum + sum) / (n + n) == sum / n
  {
    var q := sum / n;
    assert q * n == sum;
    QuotientOf(q, n + n, sum + sum);
  }

  /** Where every candidate is one token, the probability is conditional: times the coverage it is the token's own
      among the whole vocabulary. */
  lemma {:induction false} OneTokenEach(m: Maths, net: Net, head: seq<Token>, scored: seq<Path>, setup: Setup,
                                        r: Wire.Reading, k: nat)
    requires Sane(m) && Logarithm(m.exp, m.log) && head != [] && Engine.Scorable(scored) && AllDistinct(scored)
    requires setup.temperature == 1.0 && m.power(1, setup.norm) == 1.0 && k < |scored|
    requires Independently(m, net, head, scored, setup, r)
    requires forall k :: 0 <= k < |scored| ==> |scored[k]| == 1
    requires FreshRow(net, head) != [] && forall k :: 0 <= k < |scored| ==> 0 <= scored[k][0] < |FreshRow(net, head)|
    requires LogSoftmax(m, net, FreshRow(net, head))
    ensures |r.probabilities| == |scored|
    ensures r.probabilities[k] * r.coverage == Softmax(m.exp, FreshRow(net, head), 1.0)[scored[k][0]]
  {
    hide *;
    var row, ids := FreshRow(net, head), FirstTokens(scored);
    var scale := LogSumExp(m.exp, m.log, row);
    var zs := IndependentScores(m, net, head, scored, setup, r);
    OneTokenScores(m, net, head, scored, setup.norm, row, ids, scale);
    CoverageIsCounted(m, net, head, scored);
    FirstsDiffer(scored, ids);
    SaneMeans(m);
    ConditionalScores(m.exp, row, ids, scale, zs, k);
  }

  lemma OneTokenScores(m: Maths, net: Net, head: seq<Token>, scored: seq<Path>, norm: real, row: Row, ids: seq<nat>, scale: real)
    requires Sane(m) && head != [] && Engine.Scorable(scored) && m.power(1, norm) == 1.0
    requires row == FreshRow(net, head) != [] && LogSoftmax(m, net, row) && scale == LogSumExp(m.exp, m.log, row)
    requires |ids| == |scored| && forall k :: 0 <= k < |ids| ==> |scored[k]| == 1 && scored[k][0] == ids[k] < |row|
    ensures |SequenceScores(m, norm, Alone(net, head, scored))| == |ids|
    ensures forall k :: 0 <= k < |ids| ==> SequenceScores(m, norm, Alone(net, head, scored))[k] == row[ids[k]] - scale
  {
    hide Sane, Alone, SequenceScores, FreshRow, LogSumExp;
    assert scored != [];
    forall k | 0 <= k < |scored|
      ensures |SequenceScores(m, norm, Alone(net, head, scored))| == |scored|
      ensures SequenceScores(m, norm, Alone(net, head, scored))[k] == row[ids[k]] - scale
    {
      OneTokenScore(m, net, head, scored, norm, k);
    }
  }

  /** Logits at distinct positions less one number: their softmax times the positions' mass is the whole row's. */
  lemma {:induction false} ConditionalScores(e: real -> real, row: seq<real>, ids: seq<nat>, scale: real, zs: seq<real>, k: nat)
    requires Exponential(e) && k < |ids| == |zs| && AllDistinct(ids)
    requires forall j :: 0 <= j < |ids| ==> ids[j] < |row| && zs[j] == row[ids[j]] - scale
    ensures Softmax(e, zs, 1.0)[k] * Capped(Mass(Softmax(e, row, 1.0), ids)) == Softmax(e, row, 1.0)[ids[k]]
  {
    hide *;
    ShiftedFrom(zs, row, ids, scale);
    ShiftInvariant(e, Picked(row, ids), -scale, 1.0);
    RestrictedIsConditional(e, row, ids, k);
    SoftmaxIsDistribution(e, row, 1.0);
    PartOfWhole(Softmax(e, row, 1.0), ids);
    NothingCapped(Mass(Softmax(e, row, 1.0), ids));
  }

  lemma ShiftedFrom(zs: seq<real>, row: seq<real>, ids: seq<nat>, scale: real)
    requires |zs| == |ids| && forall j :: 0 <= j < |ids| ==> ids[j] < |row| && zs[j] == row[ids[j]] - scale
    ensures zs == Shifted(Picked(row, ids), -scale)
  {
  }

  lemma NothingCapped(x: real)
    requires x <= 1.0
    ensures Capped(x) == x
  {
  }

  lemma FirstsDiffer(scored: seq<Path>, ids: seq<nat>)
    requires AllDistinct(scored) && |ids| == |scored|
    requires forall k :: 0 <= k < |scored| ==> |scored[k]| == 1 && ids[k] == scored[k][0]
    ensures AllDistinct(ids)
  {
    forall i, j | 0 <= i < j < |ids| ensures ids[i] != ids[j] {
      assert scored[i] != scored[j];
    }
  }

  lemma OneTokenScore(m: Maths, net: Net, head: seq<Token>, scored: seq<Path>, norm: real, k: nat)
    requires Sane(m) && head != [] && Engine.Scorable(scored) && k < |scored| && |scored[k]| == 1 && m.power(1, norm) == 1.0
    ensures |SequenceScores(m, norm, Alone(net, head, scored))| == |scored|
    ensures SequenceScores(m, norm, Alone(net, head, scored))[k] == net.logprob(FreshRow(net, head), scored[k][0])
  {
    var lp := Alone(net, head, scored)[k];
    assert lp == [net.logprob(FreshRow(net, head), scored[k][0])] by {
      hide FreshRow;
      assert head + scored[k][..0] == head;
    }
    hide FreshRow, Alone, Probe.Sequential;
    assert Sum(lp) == lp[0] + Sum(lp[1..]);
    ScoreIs(m, net, head, scored, norm, k, lp[0]);
  }

  // ---------------------------------------------------------------- what a question is asked after

  /** The first maximum of a row. */
  ghost predicate Argmax(row: Row, w: Token) {
    && 0 <= w < |row| && (forall u :: 0 <= u < |row| ==> row[u] <= row[w]) && forall u :: 0 <= u < w ==> row[u] < row[w]
  }

  /** The candidates are read after prompt and question, and for `two_step` also after the first maximum of the row
      these give, unless that token closes the turn. */
  lemma {:induction false} HeadIs(net: Net, prefix: seq<Token>, ask: Ask, setup: Setup, head: seq<Token>)
    requires HeadFits(net, prefix, ask, setup, head)
    ensures ask.suffix != [] && prefix + ask.suffix != []
    ensures !setup.cue.TwoStep? ==> head == prefix + ask.suffix
    ensures forall w :: setup.cue.TwoStep? && Argmax(FreshRow(net, prefix + ask.suffix), w) ==>
              head == if w in setup.closers then prefix + ask.suffix else prefix + ask.suffix + [w]
  {
    var row := FreshRow(net, prefix + ask.suffix);
    var advance: Option<Token> :|
      Engine.AdvanceRule(row, setup.cue, setup.closers, advance) && head == Engine.HeadOf(prefix, ask.suffix, advance);
    hide FreshRow;
    assert prefix + ask.suffix + [] == prefix + ask.suffix;
    if setup.cue.TwoStep? {
      var v :| Advance.FirstMax(row, {}, v) && advance == if v in setup.closers then None else Some(v);
      forall w | Argmax(row, w) ensures w == v {
        OneArgmax(row, v, w);
      }
    }
  }

  lemma OneArgmax(row: Row, v: Token, w: Token)
    requires Advance.FirstMax(row, {}, v) && Argmax(row, w)
    ensures v == w
  {
    var x, y := row[v], row[w];
    assert y <= x && x <= y;
  }

  lemma ArgmaxIff(row: Row, w: Token)
    ensures Advance.FirstMax(row, {}, w) <==> Argmax(row, w)
  {
  }

  /** A question's waves read a further row exactly where `two_step` advances and where `json_instructed` meets a
      token that closes the value. */
  lemma {:induction false} ReadsOn(net: Net, prefix: seq<Token>, ask: Ask, setup: Setup)
    ensures More(net, prefix, ask, setup) <==>
              && ask.suffix != []
              && exists w :: && Argmax(FreshRow(net, prefix + ask.suffix), w)
                             && (if setup.cue.TwoStep? then w !in setup.closers
                                 else setup.cue.JsonInstructed? && w in setup.quotes)
  {
    if ask.suffix != [] {
      var row := FreshRow(net, prefix + ask.suffix);
      hide FreshRow;
      forall w ensures Advance.FirstMax(row, {}, w) <==> Argmax(row, w) {
        ArgmaxIff(row, w);
      }
      hide Argmax, Advance.FirstMax;
    }
  }

  /** Under `single_token` a candidate is scored by its first token, otherwise by all of them, and the steps are the
      tokens scored. */
  lemma {:induction false} ScoredTokens(candidates: seq<Path>, k: nat)
    requires k < |candidates| && candidates[k] != []
    ensures ToScore(candidates, false) == candidates
    ensures ToScore(candidates, true)[k] == [candidates[k][0]]
    ensures Steps(candidates[..k + 1]) == Steps(candidates[..k]) + |candidates[k]| && Steps([]) == 0
  {
    assert candidates[..k + 1][..k] == candidates[..k];
    assert ToScore(candidates, false) == candidates;
  }

  /** A low mass is named first, then a confidence below the one an engine calls low. */
  lemma ReliabilityIff(coverage: real, floor: real, sure: Option<real>, confidence: real)
    ensures var r := Reliability(coverage, floor, sure, confidence);
            && (r == "low_mass" <==> coverage < floor)
            && (r == "low_confidence" <==> coverage >= floor && sure.Some? && confidence < sure.value)
            && (r == "ok" <==> coverage >= floor && (sure.None? || confidence >= sure.value))
  {
    assert "low_mass"[4] != "low_confidence"[4];
  }

  // ---------------------------------------------------------------- what a request needs

  /** The longest question is at least every question's text and candidate together, and one question's exactly. */
  lemma {:induction false} LongestNeeded(asks: seq<Ask>)
    ensures forall k, j :: 0 <= k < |asks| && 0 <= j < |asks[k].candidates| ==>
              |asks[k].suffix| + |asks[k].candidates[j]| <= LongestQuestion(asks)
    ensures asks != [] && (forall k :: 0 <= k < |asks| ==> asks[k].candidates != []) ==>
              exists k, j :: 0 <= k < |asks| && 0 <= j < |asks[k].candidates|
                             && |asks[k].suffix| + |asks[k].candidates[j]| == LongestQuestion(asks)
  {
    if asks != [] {
      var n := |asks| - 1;
      var init := asks[..n];
      LongestNeeded(init);
      assert forall k :: 0 <= k < n ==> init[k] == asks[k];
      forall j | 0 <= j < |asks[n].candidates| ensures |asks[n].candidates[j]| <= Engine.Longest(asks[n].candidates) {
        Engine.LongestBound(asks[n].candidates, j);
      }
      if asks[n].candidates != [] {
        var j := Engine.LongestIndex(asks[n].candidates);
        assert |asks[n].suffix| + |asks[n].candidates[j]| == |asks[n].suffix| + Engine.Longest(asks[n].candidates);
      }
    }
  }

  /** The tokens read and scored, question by question. */
  lemma {:induction false} TokensAdd(asks: seq<Ask>, ask: Ask, single: bool)
    ensures SuffixTokens(asks + [ask]) == SuffixTokens(asks) + |ask.suffix| && SuffixTokens([]) == 0
    ensures OutputTokens(asks + [ask], false) == OutputTokens(asks, false) + Steps(ask.candidates) && OutputTokens([], single) == 0
    ensures (forall c <- ask.candidates :: c != []) ==>
              OutputTokens(asks + [ask], true) == OutputTokens(asks, true) + |ask.candidates|
  {
    var all := asks + [ask];
    assert all[..|all| - 1] == asks && all[|all| - 1] == ask;
    assert ToScore(ask.candidates, false) == ask.candidates;
    if forall c <- ask.candidates :: c != [] {
      forall k | 0 <= k < |ask.candidates| ensures |ToScore(ask.candidates, true)[k]| == 1 {
        assert ask.candidates[k] in ask.candidates;
      }
      OneStepEach(ToScore(ask.candidates, true));
    }
  }

  lemma {:induction false} OneStepEach(scored: seq<Path>)
    requires forall k :: 0 <= k < |scored| ==> |scored[k]| == 1
    ensures Steps(scored) == |scored|
  {
    if scored != [] {
      OneStepEach(scored[..|scored| - 1]);
    }
  }

  /** The waves are as many as it takes, and candidates of one length take that many decodes in each. */
  lemma {:induction false} WavesNeeded(scored: seq<Path>, perWave: nat, length: nat)
    requires perWave >= 1 && scored != [] && forall k :: 0 <= k < |scored| ==> |scored[k]| == length
    ensures (Engine.Waves(scored, perWave) - 1) * perWave < |scored| <= Engine.Waves(scored, perWave) * perWave
    ensures Engine.PlannedWaves(scored, perWave) == Engine.Waves(scored, perWave) * length
    decreases |scored|
  {
    hide Engine.Longest;
    if |scored| <= perWave {
      AllOfOneLength(scored, length);
    } else {
      var first, rest := scored[..perWave], scored[perWave..];
      AllOfOneLength(first, length);
      WavesNeeded(rest, perWave, length);
      var n := Engine.Waves(rest, perWave);
      assert Engine.Waves(scored, perWave) == n + 1;
      assert Engine.PlannedWaves(scored, perWave) == length + Engine.PlannedWaves(rest, perWave);
      hide *;
      OneMoreWave(n, perWave, |rest|, length);
    }
  }

  lemma OneMoreWave(n: nat, perWave: nat, rest: nat, length: nat)
    requires (n - 1) * perWave < rest <= n * perWave
    ensures n * perWave < rest + perWave <= (n + 1) * perWave
    ensures length + n * length == (n + 1) * length
  {
    assert (n - 1) * perWave == n * perWave - perWave;
  }

  lemma AllOfOneLength(scored: seq<Path>, length: nat)
    requires scored != [] && forall k :: 0 <= k < |scored| ==> |scored[k]| == length
    ensures Engine.Longest(scored) == length
  {
    var k := Engine.LongestIndex(scored);
  }

  // ---------------------------------------------------------------- confidence

  /** The peak's confidence, from the probability no other exceeds. */
  lemma {:induction false} PeakConfidence(log: real -> real, ps: seq<real>, k: nat)
    requires k < |ps| && |ps| >= 2 && Readout.Distribution(ps) && forall i :: 0 <= i < |ps| ==> ps[i] <= ps[k]
    requires log(|ps| as real) != 0.0
    ensures Confidence(log, NormalizedPeak, ps) * (|ps| - 1) as real == |ps| as real * ps[k] - 1.0
  {
    hide *;
    ConfidenceMeans(log, ps);
    PeakNeedsNoClamp(ps);
    MaxIs(ps, k);
    Excess(ps[k], |ps| as real);
  }

  /** The modes before clamping. */
  lemma ConfidenceMeans(log: real -> real, ps: seq<real>)
    requires |ps| >= 2 && log(|ps| as real) != 0.0
    ensures Confidence(log, NormalizedPeak, ps) == Readout.NormalizedPeak(ps)
    ensures Confidence(log, Margin, ps) == Readout.Margin(ps)
    ensures Confidence(log, Entropy, ps) == Clamp01(RawEntropy(log, ps))
  {
  }

  lemma MaxIs(ps: seq<real>, k: nat)
    requires k < |ps| && |ps| >= 2 && forall i :: 0 <= i < |ps| ==> ps[i] <= ps[k]
    ensures Max(ps) == ps[k] && RawPeak(ps) == (ps[k] - 1.0 / |ps| as real) / (1.0 - 1.0 / |ps| as real)
  {
  }

  lemma Excess(p: real, n: real)
    requires n >= 2.0
    ensures 1.0 - 1.0 / n > 0.0 && ((p - 1.0 / n) / (1.0 - 1.0 / n)) * (n - 1.0) == n * p - 1.0
  {
    var u := 1.0 / n;
    assert u * n == 1.0;
    var q := (p - u) / (1.0 - u);
    assert q * (1.0 - u) == p - u;
    assert q * (1.0 - u) * n == q * (n - 1.0);
  }

  /** The margin's confidence, from the first candidate and the best of the others. */
  lemma {:induction false} MarginConfidence(log: real -> real, ps: seq<real>, k: nat, j: nat)
    requires k < |ps| && j < |ps| && j != k && Readout.Distribution(ps) && log(|ps| as real) != 0.0
    requires ps[j] <= ps[k] && forall i :: 0 <= i < |ps| && i != k ==> ps[i] <= ps[j]
    ensures Confidence(log, Margin, ps) * (1.0 - ps[j]) == ps[k] - ps[j]
  {
    hide *;
    SecondBest(ps, k, j);
    ConfidenceMeans(log, ps);
    MarginNeedsNoClamp(ps);
    MarginIs(ps, ps[k], ps[j]);
    MarginTimes(RawMargin(ps), ps[k], ps[j]);
  }

  lemma SecondBest(ps: seq<real>, k: nat, j: nat)
    requires k < |ps| && j < |ps| && j != k
    requires ps[j] <= ps[k] && forall i :: 0 <= i < |ps| && i != k ==> ps[i] <= ps[j]
    ensures |ps| >= 2 && ps[Wire.FirstArgmax(ps)] == ps[k]
    ensures Max(ps[..Wire.FirstArgmax(ps)] + ps[Wire.FirstArgmax(ps) + 1..]) == ps[j]
  {
    hide *;
    var f := Wire.FirstArgmax(ps);
    assert ps[f] == ps[k];
    MaxWithout(ps, f, if f == k then j else k, ps[j]);
  }

  lemma MaxWithout(ps: seq<real>, f: nat, kept: nat, m: real)
    requires f < |ps| && kept < |ps| && kept != f && ps[kept] == m
    requires forall i :: 0 <= i < |ps| && i != f ==> ps[i] <= m
    ensures Max(ps[..f] + ps[f + 1..]) == m
  {
    hide *;
    var others := ps[..f] + ps[f + 1..];
    assert others[if kept < f then kept else kept - 1] == m;
    forall i | 0 <= i < |others| ensures others[i] <= m {
      assert others[i] == if i < f then ps[i] else ps[i + 1];
    }
    MaxOf(others, m);
  }

  lemma MaxOf(xs: seq<real>, m: real)
    requires m in xs && forall x <- xs :: x <= m
    ensures Max(xs) == m
  {
    hide *;
    assert Max(xs) in xs;
  }

  lemma MarginIs(ps: seq<real>, first: real, second: real)
    requires |ps| >= 2 && second <= 0.5
    requires var f := Wire.FirstArgmax(ps); ps[f] == first && Max(ps[..f] + ps[f + 1..]) == second
    ensures RawMargin(ps) == (first - second) / (1.0 - second)
  {
    hide Wire.FirstArgmax, Max;
  }

  lemma MarginTimes(margin: real, first: real, second: real)
    requires second <= 0.5 && margin == (first - second) / (1.0 - second)
    ensures margin * (1.0 - second) == first - second
  {
  }

  /** The entropy's confidence falls short of one by the share of `log n` that the mean surprise makes up. */
  lemma {:induction false} EntropyConfidence(log: real -> real, ps: seq<real>)
    requires |ps| >= 2 && Readout.Distribution(ps) && Concave(log) && forall i :: 0 <= i < |ps| ==> ps[i] > 0.0
    ensures log(|ps| as real) > 0.0
    ensures (1.0 - Confidence(log, Entropy, ps)) * log(|ps| as real)
            == -Sum(Terms(log, ps))
  {
    hide *;
    EntropyNeedsNoClamp(log, ps);
    ConfidenceMeans(log, ps);
    EntropyIsSum(log, ps);
    RawMeans(log, ps);
    Shortfall(Readout.Entropy(log, ps), log(|ps| as real));
  }

  lemma RawMeans(log: real -> real, ps: seq<real>)
    requires log(|ps| as real) != 0.0
    ensures RawEntropy(log, ps) == 1.0 - Readout.Entropy(log, ps) / log(|ps| as real)
  {
  }

  lemma Shortfall(entropy: real, whole: real)
    requires whole > 0.0
    ensures (1.0 - (1.0 - entropy / whole)) * whole == entropy
  {
  }

  /** Every probability times its logarithm. */
  function Terms(log: real -> real, ps: seq<real>): (ts: seq<real>)
    ensures |ts| == |ps| && forall i :: 0 <= i < |ps| ==> ts[i] == ps[i] * log(ps[i])
  {
    seq(|ps|, i requires 0 <= i < |ps| => ps[i] * log(ps[i]))
  }

  lemma {:induction false} EntropyIsSum(log: real -> real, ps: seq<real>)
    requires forall i :: 0 <= i < |ps| ==> ps[i] > 0.0
    ensures Readout.Entropy(log, ps) == -Sum(Terms(log, ps))
  {
    hide *;
    EntropyParts(log, ps);
    if ps == [] {
      NoTerms(log);
    } else {
      EntropyIsSum(log, ps[1..]);
      FirstTerm(log, ps);
    }
  }

  lemma NoTerms(log: real -> real)
    ensures Sum(Terms(log, [])) == 0.0
  {
    assert Terms(log, []) == [];
  }

  lemma FirstTerm(log: real -> real, ps: seq<real>)
    requires ps != [] && ps[0] > 0.0
    ensures Sum(Terms(log, ps)) == Sum(Terms(log, ps[1..])) - Surprise(log, ps[0])
  {
    var ts, rest := Terms(log, ps), ps[1..];
    forall i | 0 <= i < |rest| ensures ts[i + 1] == Terms(log, rest)[i] {
      assert rest[i] == ps[i + 1];
    }
    assert ts[1..] == Terms(log, rest);
  }

  /** With a single candidate the peak and the entropy are sure and the margin is nothing. */
  lemma OneCandidate(log: real -> real, p: real)
    ensures Confidence(log, NormalizedPeak, [p]) == 1.0 && Confidence(log, Entropy, [p]) == 1.0
    ensures Confidence(log, Margin, [p]) == 0.0
  {
  }

  // ---------------------------------------------------------------- the score

  /** The mass at each level or above it, from the second level on. */
  function AtOrAbove(ps: seq<real>): real {
    if ps == [] then 0.0 else Sum(ps[1..]) + AtOrAbove(ps[1..])
  }

  /** The mean level is the sum of the chances of reaching each level. */
  lemma {:induction false} MeanIsThresholds(ps: seq<real>, i: nat)
    ensures Wire.MeanFrom(ps, i) == i as real * Sum(ps) + AtOrAbove(ps)
  {
    if ps != [] {
      MeanIsThresholds(ps[1..], i + 1);
    }
  }

  lemma {:induction false} MeanBumped(ps: seq<real>, from: nat, i: nat, d: real)
    requires i < |ps|
    ensures Wire.MeanFrom(ps[i := ps[i] + d], from) == Wire.MeanFrom(ps, from) + (from + i) as real * d
  {
    if i == 0 {
      assert ps[0 := ps[0] + d][1..] == ps[1..];
    } else {
      MeanBumped(ps[1..], from + 1, i - 1, d);
      assert ps[i := ps[i] + d][1..] == ps[1..][i - 1 := ps[1..][i - 1] + d];
    }
  }

  /** Mass moved from one level to another moves the mean by their distance. */
  lemma {:induction false} MassMoved(ps: seq<real>, i: nat, j: nat, d: real)
    requires i < |ps| && j < |ps| && i != j
    ensures Wire.MeanFrom(ps[i := ps[i] - d][j := ps[j] + d], 0) == Wire.MeanFrom(ps, 0) + d * (j - i) as real
  {
    var taken := ps[i := ps[i] - d];
    MeanBumped(ps, 0, i, -d);
    MeanBumped(taken, 0, j, d);
    hide *;
    assert taken == ps[i := ps[i] + -d] && taken[j] == ps[j];
    assert d * (j - i) as real == j as real * d + i as real * -d;
  }

  /** A further level counts by the number of levels before it. */
  lemma {:induction false} LevelAppended(ps: seq<real>, from: nat, p: real)
    ensures Wire.MeanFrom(ps + [p], from) == Wire.MeanFrom(ps, from) + (from + |ps|) as real * p
  {
    if ps == [] {
      assert Wire.MeanFrom([p][1..], from + 1) == 0.0;
    } else {
      LevelAppended(ps[1..], from + 1, p);
      assert (ps + [p])[1..] == ps[1..] + [p];
    }
  }

  /** A certain answer is scored by its level. */
  lemma {:induction false} CertainScore(ps: seq<real>, k: nat)
    requires k < |ps| && k <= 999999 && Readout.Distribution(ps) && ps[k] == 1.0
    ensures Wire.WeightedMean(ps) == k as real
  {
    forall i | 0 <= i < |ps| && i != k ensures ps[i] == 0.0 {
      OneIsCertain(ps);
      PartOfSum(ps, i);
      SumUpdated(ps, k);
      PartOfSum(ps[k := 0.0], i);
    }
    NoMean(ps[k := 0.0], 0);
    MeanBumped(ps[k := 0.0], 0, k, 1.0);
    assert ps[k := 0.0][k := 0.0 + 1.0] == ps;
    RoundWhole(k);
  }

  lemma {:induction false} NoMean(ps: seq<real>, from: nat)
    requires forall i :: 0 <= i < |ps| ==> ps[i] == 0.0
    ensures Wire.MeanFrom(ps, from) == 0.0
  {
    if ps != [] {
      NoMean(ps[1..], from + 1);
    }
  }

  /** Three levels at 0, 0.7 and 0.3 are scored 1.3. */
  lemma {:induction false} ScoreOfThree()
    ensures Wire.WeightedMean([0.0, 0.7, 0.3]) == 1.3
  {
    var ps := [0.0, 0.7, 0.3];
    LevelAppended([], 0, 0.0);
    LevelAppended([0.0], 0, 0.7);
    LevelAppended([0.0, 0.7], 0, 0.3);
    assert [] + [0.0] == [0.0] && [0.0] + [0.7] == [0.0, 0.7] && [0.0, 0.7] + [0.3] == ps;
    assert Wire.MeanFrom(ps, 0) == 1.3;
    SigTenfold(1.3);
    SigTenfold(13.0);
    SigTenfold(130.0);
    SigTenfold(1300.0);
    SigTenfold(13000.0);
    assert Sig(130000.0) == Nearest(130000.0) as real;
  }

  // ---------------------------------------------------------------- the published fields

  /** The engine's choice: the first candidate no other exceeds. */
  ghost predicate First(ps: seq<real>, k: nat) {
    k < |ps| && (forall i :: 0 <= i < |ps| ==> ps[i] <= ps[k]) && forall i :: 0 <= i < k ==> ps[i] < ps[k]
  }

  /** The probabilities of all candidates under their own keys, at wire precision. */
  ghost predicate SaysProbabilities(keys: seq<string>, ps: seq<real>, given: Json) {
    && given.Obj? && |given.fields| == |keys| == |ps|
    && forall i :: 0 <= i < |keys| ==> given.fields[i] == Field(keys[i], Num(RoundSig(ps[i])))
  }

  /** Every described candidate has an entry with its own description. */
  ghost predicate SaysLegend(c: Candidates, legend: Json) {
    && legend.Obj? && |c.keys| == |c.descriptions|
    && forall i :: 0 <= i < |c.keys| && c.descriptions[i].Some? ==>
         Field(c.keys[i], Str(c.descriptions[i].value)) in legend.fields
  }

  ghost predicate SaysChoice(keys: seq<string>, ps: seq<real>, choice: Json) {
    |keys| == |ps| && exists k: nat :: First(ps, k) && choice == Str(keys[k])
  }

  /** What a typed answer says under its own keys, at wire precision. */
  ghost predicate Says(q: Question, r: Wire.Reading, answer: Fields) {
    var keys, ps, given := q.candidates.keys, r.probabilities, Get(answer, "probabilities");
    && SaysProbabilities(keys, ps, given)
    && (q.kind.Noul? ==>
          Get(answer, "type") == Str("noul") && Get(answer, "noul") == Get(given.fields, "yes"))
    && (q.kind.Choice? ==>
          Get(answer, "type") == Str("choice") && SaysChoice(keys, ps, Get(answer, "choice")))
    && (q.kind.Score? ==>
          && Get(answer, "type") == Str("score") && Get(answer, "score") == Num(RoundSig(AtOrAbove(ps)))
          && SaysLegend(q.candidates, Get(answer, "legend")))
    && (!q.kind.Noul? ==> Get(answer, "confidence") == Num(RoundSig(r.confidence)))
  }

  /** Fields that hold the rounded typed part say what the answer says. */
  lemma {:induction false} TypedSays(q: Question, r: Wire.Reading, answer: Fields)
    requires Wire.Fit(q, r)
    requires Served.Named(q.kind, Wire.Head(q, r))
    requires Get(answer, "type") == Str(KindName(q.kind))
    requires Get(answer, KindName(q.kind)) == RoundTree(Wire.Head(q, r)[1].value)
    requires Get(answer, "probabilities") == RoundTree(Wire.Head(q, r)[2].value)
    requires !q.kind.Noul? ==> Get(answer, "confidence") == RoundTree(Wire.Head(q, r)[3].value)
    requires q.kind.Score? ==> Get(answer, "legend") == RoundTree(Wire.Head(q, r)[4].value)
    ensures Says(q, r, answer)
  {
    hide *;
    HeadMeans(q, r);
    Served.RoundedPairs(q.candidates.keys, r.probabilities);
    PairsAre(q.candidates.keys, r.probabilities);
    LegendHas(q.candidates);
    match q.kind
    case Noul => NoulSays(q, r, answer);
    case Choice => ChoiceSays(q, r, answer);
    case Score => ScoreSays(q, r, answer);
  }

  lemma HeadMeans(q: Question, r: Wire.Reading)
    requires Wire.Fit(q, r)
    ensures |r.probabilities| == |q.candidates.keys| == |q.candidates.descriptions|
    ensures |Wire.Head(q, r)| == (match q.kind case Noul => 3 case Choice => 4 case Score => 5)
    ensures Wire.Head(q, r)[2].value == Obj(Wire.Pairs(q.candidates.keys, r.probabilities))
    ensures q.kind.Noul? ==> q.candidates.keys == ["yes", "no"] && Wire.Head(q, r)[1].value == Num(r.probabilities[0])
    ensures q.kind.Choice? ==>
              r.probabilities != [] && Wire.Head(q, r)[1].value == Str(q.candidates.keys[Wire.FirstArgmax(r.probabilities)])
    ensures q.kind.Score? ==> Wire.Head(q, r)[1].value == Num(Wire.WeightedMean(r.probabilities))
    ensures q.kind.Score? ==> Wire.Head(q, r)[4].value == Obj(Wire.Legend(q.candidates))
    ensures !q.kind.Noul? ==> Wire.Head(q, r)[3].value == Num(r.confidence)
  {
    hide Wire.Pairs, Wire.Legend, Wire.FirstArgmax, Wire.WeightedMean;
  }

  lemma PairsAre(keys: seq<string>, ps: seq<real>)
    requires |keys| == |ps|
    ensures SaysProbabilities(keys, ps, Obj(Wire.Pairs(keys, RoundAll(ps))))
  {
    hide RoundSig;
  }

  lemma RoundedLeaf(x: real, s: string)
    ensures RoundTree(Num(x)) == Num(RoundSig(x)) && RoundTree(Str(s)) == Str(s)
  {
  }

  lemma NoulSays(q: Question, r: Wire.Reading, answer: Fields)
    requires q.kind.Noul? && q.candidates.keys == ["yes", "no"] && |r.probabilities| == 2
    requires Get(answer, "type") == Str(KindName(q.kind)) && Get(answer, KindName(q.kind)) == RoundTree(Num(r.probabilities[0]))
    requires SaysProbabilities(q.candidates.keys, r.probabilities, Get(answer, "probabilities"))
    ensures Says(q, r, answer)
  {
    var given := Get(answer, "probabilities").fields;
    RoundedLeaf(r.probabilities[0], "");
    assert given[0] == Field("yes", Num(RoundSig(r.probabilities[0])));
    assert Get(given, "yes") == given[0].value;
    hide RoundSig, RoundTree, Get;
  }

  lemma ChoiceSays(q: Question, r: Wire.Reading, answer: Fields)
    requires q.kind.Choice? && |q.candidates.keys| == |r.probabilities| > 0
    requires Get(answer, "type") == Str(KindName(q.kind))
    requires Get(answer, KindName(q.kind)) == RoundTree(Str(q.candidates.keys[Wire.FirstArgmax(r.probabilities)]))
    requires Get(answer, "confidence") == RoundTree(Num(r.confidence))
    requires SaysProbabilities(q.candidates.keys, r.probabilities, Get(answer, "probabilities"))
    ensures Says(q, r, answer)
  {
    var k := Wire.FirstArgmax(r.probabilities);
    RoundedLeaf(r.confidence, q.candidates.keys[k]);
    assert First(r.probabilities, k);
    hide RoundSig, RoundTree, Get, First, Wire.FirstArgmax, SaysProbabilities;
  }

  lemma ScoreSays(q: Question, r: Wire.Reading, answer: Fields)
    requires q.kind.Score?
    requires Get(answer, "type") == Str(KindName(q.kind))
    requires Get(answer, KindName(q.kind)) == RoundTree(Num(Wire.WeightedMean(r.probabilities)))
    requires Get(answer, "confidence") == RoundTree(Num(r.confidence))
    requires SaysLegend(q.candidates, Get(answer, "legend"))
    requires SaysProbabilities(q.candidates.keys, r.probabilities, Get(answer, "probabilities"))
    ensures Says(q, r, answer)
  {
    RoundedLeaf(r.confidence, "");
    RoundedLeaf(Wire.WeightedMean(r.probabilities), "");
    RoundedMean(r.probabilities);
    hide RoundSig, RoundTree, Get, AtOrAbove, Wire.WeightedMean, SaysLegend, SaysProbabilities;
  }

  /** Rounding the rounded mean again changes nothing. */
  lemma RoundedMean(ps: seq<real>)
    ensures RoundSig(Wire.WeightedMean(ps)) == RoundSig(AtOrAbove(ps))
  {
    MeanIsThresholds(ps, 0);
    RoundIdempotent(AtOrAbove(ps));
    assert Wire.MeanFrom(ps, 0) == AtOrAbove(ps);
    hide RoundSig, Wire.MeanFrom;
  }

  /** A legend has every described candidate with its own description. */
  lemma {:induction false} LegendHas(c: Candidates)
    requires |c.keys| == |c.descriptions|
    ensures SaysLegend(c, RoundTree(Obj(Wire.Legend(c))))
  {
    var fields := RoundTree(Obj(Wire.Legend(c))).fields;
    forall i | 0 <= i < |c.keys| && c.descriptions[i].Some? ensures Field(c.keys[i], Str(c.descriptions[i].value)) in fields {
      var k := LegendAt(c, i);
      RoundedLeaf(0.0, c.descriptions[i].value);
      assert fields[k] == Field(c.keys[i], Str(c.descriptions[i].value));
    }
  }

  lemma {:induction false} LegendAt(c: Candidates, i: nat) returns (k: nat)
    requires |c.keys| == |c.descriptions| && i < |c.keys| && c.descriptions[i].Some?
    ensures k < |Wire.Legend(c)| && Wire.Legend(c)[k] == Field(c.keys[i], Str(c.descriptions[i].value))
    decreases i
  {
    if i == 0 {
      k := 0;
    } else {
      var rest := LegendAt(Candidates(c.keys[1..], c.descriptions[1..]), i - 1);
      k := rest + if c.descriptions[0].Some? then 1 else 0;
    }
  }

  // ---------------------------------------------------------------- the rendered body

  /** Every question's answer is found in the body under the question's own name. */
  ghost predicate SaysAll(questions: seq<Question>, readings: seq<Wire.Reading>, body: Json) {
    && |questions| == |readings| && body.Obj? && Get(body.fields, "answers").Obj?
    && forall i :: 0 <= i < |questions| ==>
         && Get(Get(body.fields, "answers").fields, questions[i].id).Obj?
         && Says(questions[i], readings[i], Get(Get(body.fields, "answers").fields, questions[i].id).fields)
  }

  /** The body names the model and counts the tokens under the service's own keys. */
  ghost predicate SaysService(model: string, input: nat, output: nat, body: Json) {
    && body.Obj? && Get(body.fields, "model") == Str(model) && Get(body.fields, "usage").Obj?
    && Get(Get(body.fields, "usage").fields, "input_tokens") == Int(input)
    && Get(Get(body.fields, "usage").fields, "output_tokens") == Int(output)
  }

  lemma CountsSay(usage: Fields, input: nat, output: nat)
    ensures var counted := [Field("input_tokens", Int(input)), Field("output_tokens", Int(output))] + usage;
            Get(counted, "input_tokens") == Int(input) && Get(counted, "output_tokens") == Int(output)
  {
    var counts := [Field("input_tokens", Int(input)), Field("output_tokens", Int(output))];
    assert counts[0].key == "input_tokens" && counts[1].key == "output_tokens";
    hide Get;
    GetAt(counts, 0);
    GetAt(counts, 1);
    Served.GetAppended(counts, usage, "input_tokens");
    Served.GetAppended(counts, usage, "output_tokens");
  }

  lemma RoundedCounts(usage: Fields, input: nat, output: nat)
    ensures var counted := RoundTree(Obj([Field("input_tokens", Int(input)), Field("output_tokens", Int(output))] + usage));
            && counted.Obj? && Get(counted.fields, "input_tokens") == Int(input)
            && Get(counted.fields, "output_tokens") == Int(output)
  {
    var counts := [Field("input_tokens", Int(input)), Field("output_tokens", Int(output))];
    assert RoundTree(Int(input)) == Int(input) && RoundTree(Int(output)) == Int(output);
    assert RoundTree(Obj(counts + usage)).Obj?;
    hide *;
    CountsSay(usage, input, output);
    RoundedGet(counts + usage, "input_tokens");
    RoundedGet(counts + usage, "output_tokens");
  }

  /** In both formats the rendered body says what every question's answer says. */
  lemma {:induction false} RenderedSays(model: string, questions: seq<Question>, readings: seq<Wire.Reading>, input: nat,
                                        output: nat, engine: Json, usage: Fields, native: Fields, format: string)
    requires |questions| == |readings| && AllDistinct(Ids(questions)) && format in {"native", "typesafe"}
    requires forall i :: 0 <= i < |questions| ==> Wire.Fit(questions[i], readings[i])
    ensures var r := Wire.Rendered(Wire.Payload(model, questions, readings, input, output, engine, usage, native), format);
            r.Success? && SaysAll(questions, readings, r.value) && SaysService(model, input, output, r.value)
  {
    hide *;
    if format == "native" {
      NativeSays(model, questions, readings, input, output, engine, usage, native);
    } else {
      Served.RenderedBody(model, questions, readings, input, output, engine, usage, native);
      WiredSays(model, questions, readings, input, output);
    }
  }

  lemma WiredSays(model: string, questions: seq<Question>, readings: seq<Wire.Reading>, input: nat, output: nat)
    requires |questions| == |readings| && AllDistinct(Ids(questions))
    requires forall i :: 0 <= i < |questions| ==> Wire.Fit(questions[i], readings[i])
    ensures SaysAll(questions, readings, Served.Body(model, questions, readings, input, output))
    ensures SaysService(model, input, output, Served.Body(model, questions, readings, input, output))
  {
    var answers := Served.WiredAnswers(questions, readings);
    var body := Served.Body(model, questions, readings, input, output);
    BodySays(Str(model), Obj(answers), input, output);
    Served.AnswerNames(questions, readings);
    hide Get, KeySet, Says, Wire.Fit, Ids, AllDistinct, Served.Wired, Wire.UsageConforms, Distinct;
    assert Get(body.fields, "answers") == Obj(answers);
    forall i | 0 <= i < |questions|
      ensures Get(answers, questions[i].id).Obj? && Says(questions[i], readings[i], Get(answers, questions[i].id).fields)
    {
      GetAt(answers, i);
      TypedAnswer(questions[i], readings[i]);
    }
  }

  lemma BodySays(model: Json, answers: Json, input: nat, output: nat)
    ensures var counts := [Field("input_tokens", Int(input)), Field("output_tokens", Int(output))];
            var fields := [Field("model", model), Field("answers", answers), Field("usage", Obj(counts))];
            && Get(fields, "model") == model && Get(fields, "answers") == answers && Get(fields, "usage") == Obj(counts)
            && Get(counts, "input_tokens") == Int(input) && Get(counts, "output_tokens") == Int(output)
  {
    var counts := [Field("input_tokens", Int(input)), Field("output_tokens", Int(output))];
    var fields := [Field("model", model), Field("answers", answers), Field("usage", Obj(counts))];
    assert fields[0].key == "model" && fields[1].key == "answers" && fields[2].key == "usage";
    hide Get;
    GetAt(fields, 0);
    GetAt(fields, 1);
    GetAt(fields, 2);
    CountsSay([], input, output);
    assert counts + [] == counts;
  }

  lemma TypedAnswer(q: Question, r: Wire.Reading)
    requires Wire.Fit(q, r)
    ensures Says(q, r, Served.Wired(q, r))
  {
    hide *;
    Served.HeadGets(q, r);
    Served.WiredHead(q, r);
    Served.NamedGets(q.kind, Served.Wired(q, r));
    TypedSays(q, r, Served.Wired(q, r));
  }

  lemma NativeSays(model: string, questions: seq<Question>, readings: seq<Wire.Reading>, input: nat, output: nat,
                   engine: Json, usage: Fields, native: Fields)
    requires |questions| == |readings| && AllDistinct(Ids(questions))
    requires forall i :: 0 <= i < |questions| ==> Wire.Fit(questions[i], readings[i])
    ensures var r := Wire.Rendered(Wire.Payload(model, questions, readings, input, output, engine, usage, native), "native");
            r.Success? && SaysAll(questions, readings, r.value) && SaysService(model, input, output, r.value)
  {
    var result := Wire.Payload(model, questions, readings, input, output, engine, usage, native);
    var fields := Wire.AnswersField(questions, readings);
    var counts := [Field("input_tokens", Int(input)), Field("output_tokens", Int(output))];
    assert Wire.Rendered(result, "native") == Success(Obj(Wire.Rounded(result)));
    RoundedLeaf(0.0, model);
    hide RoundTree, Get, Says, Wire.Fit, Wire.Rendered, Wire.Rounded, Ids, AllDistinct, KeySet;
    RoundedCounts(usage, input, output);
    Served.PayloadGets(Str(model), engine, Obj(fields), Obj(counts + usage), native);
    RoundedAnswers(questions, readings);
  }

  lemma RoundedAnswers(questions: seq<Question>, readings: seq<Wire.Reading>)
    requires |questions| == |readings| && AllDistinct(Ids(questions))
    requires forall i :: 0 <= i < |questions| ==> Wire.Fit(questions[i], readings[i])
    ensures var answers := RoundTree(Obj(Wire.AnswersField(questions, readings)));
            && answers.Obj?
            && forall i :: 0 <= i < |questions| ==>
                 && Get(answers.fields, questions[i].id).Obj?
                 && Says(questions[i], readings[i], Get(answers.fields, questions[i].id).fields)
  {
    var fields := Wire.AnswersField(questions, readings);
    assert Distinct(fields) by {
      forall i, j | 0 <= i < j < |fields| ensures fields[i].key != fields[j].key {
        assert Ids(questions)[i] != Ids(questions)[j];
      }
    }
    hide RoundTree, Get, Says, Wire.AnswerFields;
    forall i | 0 <= i < |questions|
      ensures Get(RoundTree(Obj(fields)).fields, questions[i].id).Obj?
      ensures Says(questions[i], readings[i], Get(RoundTree(Obj(fields)).fields, questions[i].id).fields)
    {
      GetAt(fields, i);
      RoundedGet(fields, questions[i].id);
      NativeAnswer(questions[i], readings[i]);
    }
  }

  lemma NativeAnswer(q: Question, r: Wire.Reading)
    requires Wire.Fit(q, r)
    ensures RoundTree(Obj(Wire.AnswerFields(q, r))).Obj?
    ensures Says(q, r, RoundTree(Obj(Wire.AnswerFields(q, r))).fields)
  {
    assert RoundTree(Obj(Wire.AnswerFields(q, r))).Obj?;
    hide *;
    Served.RoundedGets(q, r);
    TypedSays(q, r, RoundTree(Obj(Wire.AnswerFields(q, r))).fields);
  }

  /** The native answer also says its coverage, its reliability and its tokens. */
  lemma {:induction false} NativeTail(q: Question, r: Wire.Reading)
    requires Wire.Fit(q, r)
    ensures var answer := RoundTree(Obj(Wire.AnswerFields(q, r)));
            && answer.Obj? && Get(answer.fields, "coverage") == Num(RoundSig(r.coverage))
            && Get(answer.fields, "reliability") == Str(r.reliability) && Get(answer.fields, "decode_steps") == Int(r.steps)
            && Get(answer.fields, "cue") == RoundTree(r.cue)
  {
    var fields := Wire.AnswerFields(q, r);
    assert RoundTree(Obj(fields)).Obj? && RoundTree(Int(r.steps)) == Int(r.steps) && fields == Wire.Head(q, r) + Wire.Tail(q, r);
    hide *;
    RoundedLeaf(r.coverage, r.reliability);
    TailGets(q, r);
    OnlyInTail(q, r, "coverage");
    OnlyInTail(q, r, "reliability");
    OnlyInTail(q, r, "decode_steps");
    OnlyInTail(q, r, "cue");
  }

  lemma OnlyInTail(q: Question, r: Wire.Reading, key: string)
    requires Wire.Fit(q, r) && key in {"coverage", "reliability", "decode_steps", "cue"}
    ensures RoundTree(Obj(Wire.AnswerFields(q, r))).Obj?
    ensures Get(RoundTree(Obj(Wire.AnswerFields(q, r))).fields, key) == RoundTree(Get(Wire.Tail(q, r), key))
  {
    var head, tail := Wire.Head(q, r), Wire.Tail(q, r);
    assert RoundTree(Obj(head + tail)).Obj? && Wire.AnswerFields(q, r) == head + tail;
    Served.HeadGets(q, r);
    assert key !in Served.HeadKeys(q.kind);
    hide *;
    Served.GetAppended(head, tail, key);
    RoundedGet(head + tail, key);
  }

  lemma TailGets(q: Question, r: Wire.Reading)
    requires Wire.Fit(q, r)
    ensures Get(Wire.Tail(q, r), "coverage") == Num(r.coverage) && Get(Wire.Tail(q, r), "reliability") == Str(r.reliability)
    ensures Get(Wire.Tail(q, r), "decode_steps") == Int(r.steps) && Get(Wire.Tail(q, r), "cue") == r.cue
  {
    var four := [Field("coverage", Num(r.coverage)), Field("reliability", Str(r.reliability)), Field("cue", r.cue),
                 Field("decode_steps", Int(r.steps))];
    var legend := Wire.Legend(q.candidates);
    var more := (if q.kind.Choice? && legend != [] then [Field("legend", Obj(legend))] else [])
                + (if r.advance.Some? then [Field("advance", r.advance.value)] else []);
    assert Wire.Tail(q, r) == four + more;
    assert four[0].key == "coverage" && four[1].key == "reliability" && four[2].key == "cue" && four[3].key == "decode_steps";
    hide Get, Wire.Legend, Wire.Tail;
    GetAt(four, 0);
    GetAt(four, 1);
    GetAt(four, 2);
    GetAt(four, 3);
    Served.GetAppended(four, more, "coverage");
    Served.GetAppended(four, more, "reliability");
    Served.GetAppended(four, more, "cue");
    Served.GetAppended(four, more, "decode_steps");
  }
}
