/** The numbers the engine publishes for a question. */
module Published {
  import opened KvCache
  import opened Sequences
  import opened Trie
  import opened Wrappers
  import Engine
  import Probe
  import Readout
  import Rounding
  import Served
  import Sessions
  import Wire

  // ---------------------------------------------------------------- scores and confidence

  /** What is used of the floating-point library: exp, log, and `n ** length_norm`. */
  datatype Maths = Maths(exp: real -> real, log: real -> real, power: (nat, real) -> real)

  ghost predicate Sane(m: Maths) {
    && Readout.Exponential(m.exp) && Readout.Concave(m.log)
    && forall n: nat, x: real :: n >= 1 ==> m.power(n, x) > 0.0
  }

  /** `candidate_sequence_score`: the mean log-probability at length norm 1. */
  function SequenceScore(m: Maths, norm: real, logprobs: seq<real>): real
    requires logprobs != [] && m.power(|logprobs|, norm) != 0.0
  {
    Rounding.Sum(logprobs) / m.power(|logprobs|, norm)
  }

  function SequenceScores(m: Maths, norm: real, logprobs: seq<seq<real>>): (zs: seq<real>)
    requires Sane(m) && forall k :: 0 <= k < |logprobs| ==> logprobs[k] != []
    ensures |zs| == |logprobs|
  {
    seq(|logprobs|, k requires 0 <= k < |logprobs| => SequenceScore(m, norm, logprobs[k]))
  }

  datatype Mode = NormalizedPeak | Entropy | Margin

  /** `confidence`. */
  function Confidence(log: real -> real, mode: Mode, ps: seq<real>): real
    requires |ps| >= 2 ==> log(|ps| as real) != 0.0
  {
    match mode
    case NormalizedPeak => Readout.NormalizedPeak(ps)
    case Entropy => if |ps| <= 1 then 1.0 else Readout.Clamp01(Readout.RawEntropy(log, ps))
    case Margin => Readout.Margin(ps)
  }

  /** Every mode gives a confidence between zero and one, on every distribution, and one exactly for a certain
      answer. */
  lemma ConfidenceInRange(log: real -> real, mode: Mode, ps: seq<real>)
    requires Readout.Concave(log) && ps != [] && Readout.Distribution(ps)
    ensures |ps| >= 2 ==> log(|ps| as real) != 0.0
    ensures 0.0 <= Confidence(log, mode, ps) <= 1.0
    ensures |ps| >= 2 ==> (Confidence(log, mode, ps) == 1.0 <==> Readout.Degenerate(ps))
  {
    if |ps| >= 2 {
      Readout.EntropyNeedsNoClamp(log, ps);
      Readout.PeakNeedsNoClamp(ps);
      Readout.MarginNeedsNoClamp(ps);
    }
    hide Readout.RawEntropy, Readout.RawPeak, Readout.RawMargin, Readout.Distribution, Readout.Concave;
  }

  // ---------------------------------------------------------------- one question

  /** A question once rendered and tokenized: its own text, and the text of each candidate. */
  datatype Ask = Ask(suffix: seq<Token>, candidates: seq<Path>)

  /** The options that reach the numbers, and the two kinds of tokens a cue looks for. An engine may name a
      confidence it calls low; the command line names none. */
  datatype Setup = Setup(cue: Engine.Cue, closers: set<Token>, quotes: set<Token>, single: bool, norm: real,
                         temperature: real, mode: Mode, floor: real, sure: Option<real>)

  /** `candidate_sequences`: under `single_token` only the first token of a candidate is scored. */
  function ToScore(candidates: seq<Path>, single: bool): (scored: seq<Path>)
    ensures |scored| == |candidates|
    ensures Engine.Scorable(candidates) ==> Engine.Scorable(scored)
  {
    seq(|candidates|, k requires 0 <= k < |candidates| =>
      if single && candidates[k] != [] then candidates[k][..1] else candidates[k])
  }

  /** Every candidate's log-probabilities in contexts of their own, after the question's head. */
  ghost function Alone(net: Net, head: seq<Token>, scored: seq<Path>): (logprobs: seq<seq<real>>)
    requires head != [] && Engine.Scorable(scored)
    ensures |logprobs| == |scored| > 0 && forall k :: 0 <= k < |scored| ==> logprobs[k] != []
  {
    seq(|scored|, k requires 0 <= k < |scored| => Probe.Sequential(net, head, scored[k]))
  }

  /** The answer's numbers are those of independent contexts: the softmax, at the request's temperature, of every
      candidate's length-normalised score after the question's own head, the mode's confidence in it, the mass
      of the candidates' first tokens and what that and the confidence say of the answer. */
  ghost predicate Independently(m: Maths, net: Net, head: seq<Token>, scored: seq<Path>, setup: Setup, r: Wire.Reading)
    requires Sane(m) && head != [] && Engine.Scorable(scored) && setup.temperature > 0.0
  {
    var zs := SequenceScores(m, setup.norm, Alone(net, head, scored));
    && r.probabilities == Readout.Softmax(m.exp, zs, setup.temperature)
    && (|r.probabilities| >= 2 ==> m.log(|r.probabilities| as real) != 0.0)
    && r.confidence == Confidence(m.log, setup.mode, r.probabilities)
    && r.coverage == Coverage(m, Alone(net, head, scored))
    && r.reliability == Reliability(r.coverage, setup.floor, setup.sure, r.confidence)
  }

  /** Such an answer is a real distribution over the candidates with a confidence in range. */
  lemma IndependentIsMeasured(m: Maths, net: Net, head: seq<Token>, scored: seq<Path>, setup: Setup, r: Wire.Reading,
                              keys: seq<string>)
    requires Sane(m) && head != [] && Engine.Scorable(scored) && setup.temperature > 0.0 && |keys| == |scored|
    requires Independently(m, net, head, scored, setup, r)
    ensures Served.Measured(keys, r)
  {
    var zs := SequenceScores(m, setup.norm, Alone(net, head, scored));
    hide Coverage, Reliability, Alone, Readout.Softmax, Confidence, SequenceScores, Rounding.Sum, Engine.Scorable;
    Readout.SoftmaxIsDistribution(m.exp, zs, setup.temperature);
    hide Readout.Exponential;
    ConfidenceInRange(m.log, setup.mode, r.probabilities);
  }

  // ---------------------------------------------------------------- coverage

  /** The probability of each candidate's first token in the row it is read from. */
  function Firsts(m: Maths, logprobs: seq<seq<real>>): (ws: seq<real>)
    requires forall k :: 0 <= k < |logprobs| ==> logprobs[k] != []
    ensures |ws| == |logprobs|
  {
    seq(|logprobs|, k requires 0 <= k < |logprobs| => m.exp(logprobs[k][0]))
  }

  /** Their sum, capped at one. */
  function Coverage(m: Maths, logprobs: seq<seq<real>>): real
    requires forall k :: 0 <= k < |logprobs| ==> logprobs[k] != []
  {
    Readout.Capped(Rounding.Sum(Firsts(m, logprobs)))
  }

  /** `reliability`. */
  function Reliability(coverage: real, floor: real, sure: Option<real>, confidence: real): string {
    if coverage < floor then "low_mass"
    else if sure.Some? && confidence < sure.value then "low_confidence"
    else "ok"
  }

  lemma {:induction false} SumJoins(a: seq<real>, b: seq<real>)
    ensures Rounding.Sum(a + b) == Rounding.Sum(a) + Rounding.Sum(b)
  {
    if a == [] {
      assert a + b == b;
    } else {
      SumJoins(a[1..], b);
      assert (a + b)[1..] == a[1..] + b;
    }
  }

  lemma FirstsPositive(m: Maths, logprobs: seq<seq<real>>)
    requires Sane(m) && forall k :: 0 <= k < |logprobs| ==> logprobs[k] != []
    ensures forall i :: 0 <= i < |Firsts(m, logprobs)| ==> Firsts(m, logprobs)[i] > 0.0
  {
    forall i | 0 <= i < |logprobs| ensures Firsts(m, logprobs)[i] > 0.0 {
      Readout.ExpAdds(m.exp, logprobs[i][0], 0.0);
    }
  }

  /** What is covered after `start` candidates: capped wave by wave, which one more cap makes the whole's. */
  ghost predicate Covered(ws: seq<real>, start: nat, total: real)
    requires start <= |ws|
  {
    0.0 <= total <= Rounding.Sum(ws[..start]) && Readout.Capped(total) == Readout.Capped(Rounding.Sum(ws[..start]))
  }

  lemma CoveredStep(ws: seq<real>, start: nat, next: nat, total: real)
    requires start <= next <= |ws| && Covered(ws, start, total) && forall i :: 0 <= i < |ws| ==> ws[i] > 0.0
    ensures Covered(ws, next, total + Readout.Capped(Rounding.Sum(ws[start..next])))
  {
    assert ws[..next] == ws[..start] + ws[start..next];
    SumJoins(ws[..start], ws[start..next]);
    Rounding.SumNonNegative(ws[start..next]);
    hide Rounding.Sum;
  }

  /** The coverage as the waves add it up, each capped, and capped once more at the end. The waves' decision
      rows are one row, and what it gives a candidate's first token is the candidate's first score. */
  method CoverWaves(m: Maths, logprobs: seq<seq<real>>, perWave: nat) returns (coverage: real)
    requires Sane(m) && perWave >= 1 && forall k :: 0 <= k < |logprobs| ==> logprobs[k] != []
    ensures coverage == Coverage(m, logprobs)
  {
    FirstsPositive(m, logprobs);
    hide Sane, Rounding.Sum;
    var ws := Firsts(m, logprobs);
    var total, start := 0.0, 0;
    NothingCovered(ws);
    while start < |ws|
      invariant 0 <= start <= |ws| && Covered(ws, start, total)
    {
      var next := if start + perWave <= |ws| then start + perWave else |ws|;
      CoveredStep(ws, start, next, total);
      total, start := total + Readout.Capped(Rounding.Sum(ws[start..next])), next;
    }
    assert ws[..start] == ws;
    coverage := Readout.Capped(total);
  }

  lemma NothingCovered(ws: seq<real>)
    ensures Covered(ws, 0, 0.0)
  {
    assert ws[..0] == [];
  }

  /** The row's log-probabilities are its logits less the row's logsumexp. */
  ghost predicate LogSoftmax(m: Maths, net: Net, row: Row)
    requires row != []
  {
    forall t :: 0 <= t < |row| ==> net.logprob(row, t) == row[t] - Readout.LogSumExp(m.exp, m.log, row)
  }

  /** Where the network's log-probabilities are logits minus the row's logsumexp, the coverage is the softmax's
      mass of the candidates' first tokens, each as often as it begins a candidate. */
  lemma CoverageIsCounted(m: Maths, net: Net, head: seq<Token>, scored: seq<Path>)
    requires Sane(m) && Readout.Logarithm(m.exp, m.log) && head != [] && Engine.Scorable(scored)
    requires FreshRow(net, head) != [] && forall k :: 0 <= k < |scored| ==> 0 <= scored[k][0] < |FreshRow(net, head)|
    requires LogSoftmax(m, net, FreshRow(net, head))
    ensures var ids := FirstTokens(scored);
            && (forall k :: 0 <= k < |ids| ==> ids[k] < |FreshRow(net, head)|)
            && Coverage(m, Alone(net, head, scored))
               == Readout.Capped(Readout.Mass(Readout.Softmax(m.exp, FreshRow(net, head), 1.0), ids))
  {
    hide *;
    ScorableTokens(scored);
    var row, ids, ws := FreshRow(net, head), FirstTokens(scored), Firsts(m, Alone(net, head, scored));
    var ps := Readout.Softmax(m.exp, row, 1.0);
    forall k | 0 <= k < |scored| ensures ws[k] == ps[ids[k]] {
      FirstScore(m, net, head, scored, k);
      ScaledFirst(m, net, row, ids[k]);
    }
    MassIsSum(ps, ids, ws);
    CoverageMeans(m, Alone(net, head, scored));
  }

  lemma ScorableTokens(scored: seq<Path>)
    requires Engine.Scorable(scored)
    ensures forall k :: 0 <= k < |scored| ==> scored[k] != []
  {
  }

  lemma ScaledFirst(m: Maths, net: Net, row: Row, id: nat)
    requires Sane(m) && Readout.Logarithm(m.exp, m.log) && id < |row| && LogSoftmax(m, net, row)
    ensures m.exp(net.logprob(row, id)) == Readout.Softmax(m.exp, row, 1.0)[id]
  {
    hide Readout.Exponential, Readout.Logarithm, Readout.Concave, Readout.Softmax, Readout.LogSumExp;
    Readout.ScaledProbability(m.exp, m.log, row, id);
  }

  lemma FirstScore(m: Maths, net: Net, head: seq<Token>, scored: seq<Path>, k: nat)
    requires Sane(m) && head != [] && Engine.Scorable(scored) && k < |scored|
    ensures Firsts(m, Alone(net, head, scored))[k] == m.exp(net.logprob(FreshRow(net, head), scored[k][0]))
    ensures Readout.Exponential(m.exp)
  {
    hide FreshRow, Readout.Exponential, Readout.Concave;
    assert head + scored[k][..0] == head;
  }

  lemma CoverageMeans(m: Maths, logprobs: seq<seq<real>>)
    requires forall k :: 0 <= k < |logprobs| ==> logprobs[k] != []
    ensures Coverage(m, logprobs) == Readout.Capped(Rounding.Sum(Firsts(m, logprobs)))
  {
  }

  function FirstTokens(scored: seq<Path>): (ids: seq<nat>)
    requires forall k :: 0 <= k < |scored| ==> scored[k] != [] && scored[k][0] >= 0
    ensures |ids| == |scored|
    ensures forall k :: 0 <= k < |ids| ==> ids[k] == scored[k][0]
  {
    seq(|scored|, k requires 0 <= k < |scored| => scored[k][0])
  }

  lemma {:induction false} MassIsSum(ps: seq<real>, ids: seq<nat>, ws: seq<real>)
    requires |ws| == |ids| && forall k :: 0 <= k < |ids| ==> ids[k] < |ps| && ws[k] == ps[ids[k]]
    ensures Readout.Mass(ps, ids) == Rounding.Sum(ws)
  {
    if ids != [] {
      MassIsSum(ps, ids[1..], ws[1..]);
    }
  }

  // ---------------------------------------------------------------- answering

  /** `_check_collisions`: some candidate is scored by the same tokens as an earlier one. */
  method Collides(scored: seq<Path>) returns (b: bool)
    ensures b == !AllDistinct(scored)
  {
    var seen: set<Path> := {};
    for k := 0 to |scored|
      invariant forall q :: q in seen <==> q in scored[..k]
      invariant AllDistinct(scored[..k])
    {
      if scored[k] in seen {
        var i :| 0 <= i < k && scored[..k][i] == scored[k];
        assert scored[i] == scored[k];
        return true;
      }
      seen := seen + {scored[k]};
      assert scored[..k + 1] == scored[..k] + [scored[k]];
    }
    assert scored[..|scored|] == scored;
    return false;
  }

  /** How a question that cannot be answered ends the request. */
  ghost function AskStop(ask: Ask, setup: Setup): Sessions.Stop {
    if !AllDistinct(ToScore(ask.candidates, setup.single)) then Sessions.CandidateCollision
    else if ask.suffix == [] then Sessions.EmptyBatch
    else Sessions.NoContentToken
  }

  /** What a question needs to be answered: distinct candidates, and the rows its waves read. */
  ghost predicate Answers(net: Net, prefix: seq<Token>, ask: Ask, setup: Setup) {
    && AllDistinct(ToScore(ask.candidates, setup.single))
    && Engine.WaveReads(net, prefix, ask.suffix, setup.cue, setup.closers)
  }

  /** Every wave of the question decodes once more than planned. */
  ghost predicate More(net: Net, prefix: seq<Token>, ask: Ask, setup: Setup) {
    ask.suffix != [] && Engine.ReadsMore(FreshRow(net, prefix + ask.suffix), setup.cue, setup.closers, setup.quotes)
  }

  function Planned(ask: Ask, single: bool, perWave: nat): nat
    requires perWave >= 1
  {
    Engine.PlannedWaves(ToScore(ask.candidates, single), perWave)
  }

  ghost function Extra(net: Net, prefix: seq<Token>, ask: Ask, setup: Setup, perWave: nat): nat
    requires perWave >= 1
  {
    if More(net, prefix, ask, setup) then Engine.Waves(ToScore(ask.candidates, setup.single), perWave) else 0
  }

  /** `decode_steps`. */
  function Steps(scored: seq<Path>): nat {
    if scored == [] then 0 else Steps(scored[..|scored| - 1]) + |scored[|scored| - 1]|
  }

  /** The text the candidates are read after: prompt and question, and for `two_step` the first maximum of the
      row they give unless that closes the turn. */
  ghost predicate HeadFits(net: Net, prefix: seq<Token>, ask: Ask, setup: Setup, head: seq<Token>) {
    && head != [] && ask.suffix != []
    && exists advance: Option<Token> ::
         && Engine.AdvanceRule(FreshRow(net, prefix + ask.suffix), setup.cue, setup.closers, advance)
         && head == Engine.HeadOf(prefix, ask.suffix, advance)
  }

  /** There is one such text. */
  lemma HeadUnique(net: Net, prefix: seq<Token>, ask: Ask, setup: Setup, head: seq<Token>, other: seq<Token>)
    requires HeadFits(net, prefix, ask, setup, head) && HeadFits(net, prefix, ask, setup, other)
    ensures head == other
    ensures !setup.cue.TwoStep? ==> head == prefix + ask.suffix
  {
    var row := FreshRow(net, prefix + ask.suffix);
    var a: Option<Token> :| Engine.AdvanceRule(row, setup.cue, setup.closers, a) && head == Engine.HeadOf(prefix, ask.suffix, a);
    var b: Option<Token> :| Engine.AdvanceRule(row, setup.cue, setup.closers, b) && other == Engine.HeadOf(prefix, ask.suffix, b);
    hide FreshRow, Engine.AdvanceRule;
    Engine.AdvanceUnique(row, setup.cue, setup.closers, a, b);
    if !setup.cue.TwoStep? {
      Engine.AdvanceNone(row, setup.cue, setup.closers, a, prefix, ask.suffix);
    }
  }

  /** `_answer_question`, as far as its numbers go: score the candidates in waves over the shared cache, normalise,
      softmax. The result is the one independent contexts give, whatever the split into waves, and the next
      question finds the prefix as this one did. */
  method AnswerQuestion(m: Maths, live: Sessions.Session, prefix: seq<Token>, ask: Ask, setup: Setup, nSeqMax: int,
                        verdicts: Wire.Reading)
    returns (r: Result<Wire.Reading, Sessions.Stop>, ghost head: seq<Token>)
    requires Sane(m) && setup.temperature > 0.0
    requires Holds(live.net, live.cells, 0, prefix) && Engine.Scorable(ask.candidates)
    modifies live`cells, live`decodeCalls
    ensures r.Success? <==> Answers(live.net, prefix, ask, setup)
    ensures r.Failure? ==> r.error == AskStop(ask, setup)
    ensures r.Success? ==>
              && HeadFits(live.net, prefix, ask, setup, head)
              && Independently(m, live.net, head, ToScore(ask.candidates, setup.single), setup, r.value)
              && r.value.steps == Steps(ToScore(ask.candidates, setup.single))
    ensures r.Success? ==> Holds(live.net, live.cells, 0, prefix)
    ensures r.Success? ==>
              live.decodeCalls == old(live.decodeCalls) + Planned(ask, setup.single, Engine.PerWave(nSeqMax))
                                  + Extra(live.net, prefix, ask, setup, Engine.PerWave(nSeqMax))
    ensures forall s :: s > Engine.PerWave(nSeqMax) ==> View(live.cells, s) == View(old(live.cells), s)
  {
    hide *;
    var scored := ToScore(ask.candidates, setup.single);
    head := [];
    AnswersMeans(live.net, prefix, ask, setup);
    var collides := Collides(scored);
    if collides {
      return Failure(Sessions.CandidateCollision), head;
    }
    var logprobs, advance := Engine.ScoreAnswer(live, prefix, ask.suffix, scored, setup.cue, setup.closers, setup.quotes, nSeqMax);
    if logprobs.Failure? {
      return Failure(logprobs.error), head;
    }
    head := Engine.HeadOf(prefix, ask.suffix, advance);
    HeadGrows(live.net, prefix, ask, setup, advance);
    CostMeans(live.net, prefix, ask, setup, Engine.PerWave(nSeqMax));
    AreAlone(live.net, head, scored, logprobs.value);
    var zs := SequenceScores(m, setup.norm, logprobs.value);
    var ps := Readout.Softmax(m.exp, zs, setup.temperature);
    LogOfSize(m, ps, zs, setup.temperature);
    var steps := CountSteps(scored);
    var confidence := Confidence(m.log, setup.mode, ps);
    var coverage := CoverWaves(m, logprobs.value, Engine.PerWave(nSeqMax));
    r := Success(verdicts.(probabilities := ps, confidence := confidence, steps := steps, coverage := coverage,
                           reliability := Reliability(coverage, setup.floor, setup.sure, confidence)));
    IsIndependent(m, live.net, head, scored, setup, r.value);
  }

  method CountSteps(scored: seq<Path>) returns (n: nat)
    ensures n == Steps(scored)
  {
    n := 0;
    for k := 0 to |scored|
      invariant n == Steps(scored[..k])
    {
      assert scored[..k + 1][..k] == scored[..k];
      n := n + |scored[k]|;
    }
    assert scored[..|scored|] == scored;
  }

  lemma AnswersMeans(net: Net, prefix: seq<Token>, ask: Ask, setup: Setup)
    requires Engine.Scorable(ask.candidates)
    ensures Engine.Scorable(ToScore(ask.candidates, setup.single))
    ensures Answers(net, prefix, ask, setup) <==>
              && AllDistinct(ToScore(ask.candidates, setup.single))
              && Engine.WaveReads(net, prefix, ask.suffix, setup.cue, setup.closers)
    ensures AskStop(ask, setup) == if !AllDistinct(ToScore(ask.candidates, setup.single)) then Sessions.CandidateCollision
                                   else if ask.suffix == [] then Sessions.EmptyBatch else Sessions.NoContentToken
    ensures Engine.WaveReads(net, prefix, ask.suffix, setup.cue, setup.closers) ==> ask.suffix != []
  {
    hide ToScore, AllDistinct, FreshRow;
  }

  lemma HeadGrows(net: Net, prefix: seq<Token>, ask: Ask, setup: Setup, advance: Option<Token>)
    requires ask.suffix != []
    requires Engine.AdvanceRule(FreshRow(net, prefix + ask.suffix), setup.cue, setup.closers, advance)
    ensures HeadFits(net, prefix, ask, setup, Engine.HeadOf(prefix, ask.suffix, advance))
    ensures Engine.HeadOf(prefix, ask.suffix, advance) != []
    ensures More(net, prefix, ask, setup) <==>
            Engine.ReadsMore(FreshRow(net, prefix + ask.suffix), setup.cue, setup.closers, setup.quotes)
  {
    hide FreshRow, Engine.ReadsMore, Engine.AdvanceRule;
  }

  lemma CostMeans(net: Net, prefix: seq<Token>, ask: Ask, setup: Setup, perWave: nat)
    requires perWave >= 1
    ensures Planned(ask, setup.single, perWave) == Engine.PlannedWaves(ToScore(ask.candidates, setup.single), perWave)
    ensures Extra(net, prefix, ask, setup, perWave)
            == if More(net, prefix, ask, setup) then Engine.Waves(ToScore(ask.candidates, setup.single), perWave) else 0
  {
    hide More, ToScore, Engine.PlannedWaves, Engine.Waves;
  }

  lemma AreAlone(net: Net, head: seq<Token>, scored: seq<Path>, logprobs: seq<seq<real>>)
    requires head != [] && Engine.Scorable(scored) && |logprobs| == |scored|
    requires forall k :: 0 <= k < |scored| ==> logprobs[k] == Probe.Sequential(net, head, scored[k])
    ensures logprobs == Alone(net, head, scored) && logprobs != [] && forall k :: 0 <= k < |logprobs| ==> logprobs[k] != []
  {
    hide Probe.Sequential;
  }

  lemma IsIndependent(m: Maths, net: Net, head: seq<Token>, scored: seq<Path>, setup: Setup, r: Wire.Reading)
    requires Sane(m) && head != [] && Engine.Scorable(scored) && setup.temperature > 0.0
    requires r.probabilities == Readout.Softmax(m.exp, SequenceScores(m, setup.norm, Alone(net, head, scored)), setup.temperature)
    requires |r.probabilities| >= 2 ==> m.log(|r.probabilities| as real) != 0.0
    requires r.confidence == Confidence(m.log, setup.mode, r.probabilities)
    requires r.coverage == Coverage(m, Alone(net, head, scored))
    requires r.reliability == Reliability(r.coverage, setup.floor, setup.sure, r.confidence)
    ensures Independently(m, net, head, scored, setup, r)
  {
    hide Coverage, Reliability, Alone, Readout.Softmax, SequenceScores, Confidence, Sane, Engine.Scorable;
  }

  lemma LogOfSize(m: Maths, ps: seq<real>, zs: seq<real>, t: real)
    requires Sane(m) && zs != [] && t > 0.0 && ps == Readout.Softmax(m.exp, zs, t)
    ensures |ps| >= 2 ==> m.log(|ps| as real) != 0.0
  {
    Readout.SoftmaxIsDistribution(m.exp, zs, t);
    hide Readout.Exponential, Readout.Softmax;
    ConfidenceInRange(m.log, NormalizedPeak, ps);
  }
}
