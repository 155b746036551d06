/** One request answered over one context: `decide`. */
module Deciding {
  import opened KvCache
  import opened Published
  import opened Trie
  import opened Wrappers
  import Engine
  import Sessions
  import Wire

  // ---------------------------------------------------------------- what a request needs

  /** The sequences a request asks for, the sequences and cells its context has, and the request's own limit. */
  datatype Plan = Plan(nSeqMax: int, hostSeqMax: int, hostCtx: int, margin: int, maxWaves: Option<int>)

  const MIN_SEQ_MAX := 3

  predicate Tokenized(asks: seq<Ask>) {
    forall k :: 0 <= k < |asks| ==> forall c <- asks[k].candidates :: c != []
  }

  /** The longest question: its text and its longest candidate. */
  function LongestQuestion(asks: seq<Ask>): nat {
    if asks == [] then 0
    else
      var n := |asks| - 1;
      var before, last := LongestQuestion(asks[..n]), |asks[n].suffix| + Engine.Longest(asks[n].candidates);
      if last > before then last else before
  }

  /** The decodes planned for the waves of all questions. */
  function PlannedAll(asks: seq<Ask>, single: bool, perWave: nat): nat
    requires perWave >= 1
  {
    if asks == [] then 0
    else
      var n := |asks| - 1;
      PlannedAll(asks[..n], single, perWave) + Planned(asks[n], single, perWave)
  }

  /** The decodes the waves of all questions take beyond that. */
  ghost function ExtraAll(net: Net, prefix: seq<Token>, asks: seq<Ask>, setup: Setup, perWave: nat): nat
    requires perWave >= 1
  {
    if asks == [] then 0
    else
      var n := |asks| - 1;
      ExtraAll(net, prefix, asks[..n], setup, perWave) + Extra(net, prefix, asks[n], setup, perWave)
  }

  function OutputTokens(asks: seq<Ask>, single: bool): nat {
    if asks == [] then 0
    else
      var n := |asks| - 1;
      OutputTokens(asks[..n], single) + Steps(ToScore(asks[n].candidates, single))
  }

  function SuffixTokens(asks: seq<Ask>): nat {
    if asks == [] then 0
    else
      var n := |asks| - 1;
      SuffixTokens(asks[..n]) + |asks[n].suffix|
  }

  predicate Fits(prefix: seq<Token>, asks: seq<Ask>, single: bool, plan: Plan) {
    && MIN_SEQ_MAX <= plan.nSeqMax <= plan.hostSeqMax
    && |prefix| + LongestQuestion(asks) + plan.margin <= plan.hostCtx
    && (plan.maxWaves.Some? ==> PlannedAll(asks, single, Engine.PerWave(plan.nSeqMax)) <= plan.maxWaves.value)
  }

  /** `planned_waves`. */
  method PlanWaves(asks: seq<Ask>, single: bool, perWave: nat) returns (total: nat)
    requires perWave >= 1
    ensures total == PlannedAll(asks, single, perWave)
  {
    hide Planned;
    total := 0;
    for i := 0 to |asks|
      invariant total == PlannedAll(asks[..i], single, perWave)
    {
      assert asks[..i + 1][..i] == asks[..i];
      total := total + Planned(asks[i], single, perWave);
    }
    assert asks[..|asks|] == asks;
  }

  /** `_guard_context`. */
  method Guard(prefix: seq<Token>, asks: seq<Ask>, single: bool, plan: Plan) returns (r: Result<(), Sessions.Stop>)
    ensures r.Success? <==> Fits(prefix, asks, single, plan)
    ensures r.Failure? ==> r.error in {Sessions.SeqMaxExceeded, Sessions.ContextTooSmall}
    ensures r == Failure(Sessions.ContextTooSmall) <==>
            MIN_SEQ_MAX <= plan.nSeqMax <= plan.hostSeqMax && |prefix| + LongestQuestion(asks) + plan.margin > plan.hostCtx
  {
    hide LongestQuestion, PlannedAll;
    if plan.nSeqMax < MIN_SEQ_MAX || plan.nSeqMax > plan.hostSeqMax {
      return Failure(Sessions.SeqMaxExceeded);
    }
    if |prefix| + LongestQuestion(asks) + plan.margin > plan.hostCtx {
      return Failure(Sessions.ContextTooSmall);
    }
    var waves := PlanWaves(asks, single, Engine.PerWave(plan.nSeqMax));
    if plan.maxWaves.Some? && waves > plan.maxWaves.value {
      return Failure(Sessions.SeqMaxExceeded);
    }
    return Success(());
  }

  method HasEmptyCandidate(asks: seq<Ask>) returns (b: bool)
    ensures b == !Tokenized(asks)
  {
    for i := 0 to |asks|
      invariant forall k :: 0 <= k < i ==> forall c <- asks[k].candidates :: c != []
    {
      var candidates := asks[i].candidates;
      for j := 0 to |candidates|
        invariant forall k :: 0 <= k < j ==> candidates[k] != []
      {
        if candidates[j] == [] {
          assert candidates[j] in asks[i].candidates;
          return true;
        }
      }
    }
    return false;
  }

  // ---------------------------------------------------------------- the questions

  ghost predicate Prepared(m: Maths, asks: seq<Ask>, setup: Setup) {
    Sane(m) && setup.temperature > 0.0 && forall k :: 0 <= k < |asks| ==> Engine.Scorable(asks[k].candidates)
  }

  /** One question's answer is the one contexts of their own give. */
  ghost predicate AnsweredAs(m: Maths, net: Net, prefix: seq<Token>, ask: Ask, setup: Setup, head: seq<Token>, r: Wire.Reading)
    requires Sane(m) && setup.temperature > 0.0 && Engine.Scorable(ask.candidates)
  {
    && HeadFits(net, prefix, ask, setup, head)
    && Independently(m, net, head, ToScore(ask.candidates, setup.single), setup, r)
    && r.steps == Steps(ToScore(ask.candidates, setup.single))
  }

  ghost predicate AllIndependent(m: Maths, net: Net, prefix: seq<Token>, asks: seq<Ask>, setup: Setup,
                                 heads: seq<seq<Token>>, readings: seq<Wire.Reading>)
    requires Prepared(m, asks, setup)
  {
    && |heads| == |readings| == |asks|
    && forall k :: 0 <= k < |asks| ==> AnsweredAs(m, net, prefix, asks[k], setup, heads[k], readings[k])
  }

  ghost predicate AllAnswer(net: Net, prefix: seq<Token>, asks: seq<Ask>, setup: Setup) {
    forall k :: 0 <= k < |asks| ==> Answers(net, prefix, asks[k], setup)
  }

  ghost predicate SomeMore(net: Net, prefix: seq<Token>, asks: seq<Ask>, setup: Setup) {
    exists k :: 0 <= k < |asks| && More(net, prefix, asks[k], setup)
  }

  /** What the loop over the questions keeps. */
  ghost predicate Answered(m: Maths, net: Net, prefix: seq<Token>, asks: seq<Ask>, setup: Setup, perWave: nat,
                           heads: seq<seq<Token>>, readings: seq<Wire.Reading>, before: seq<Cell>, now: seq<Cell>, calls: int)
    requires Prepared(m, asks, setup) && perWave >= 1
  {
    && Holds(net, now, 0, prefix)
    && AllAnswer(net, prefix, asks, setup) && AllIndependent(m, net, prefix, asks, setup, heads, readings)
    && calls == PlannedAll(asks, setup.single, perWave) + ExtraAll(net, prefix, asks, setup, perWave)
    && Engine.SameBeyond(now, before, perWave)
  }

  lemma AnsweredNone(m: Maths, net: Net, prefix: seq<Token>, setup: Setup, perWave: nat, before: seq<Cell>, now: seq<Cell>)
    requires Sane(m) && setup.temperature > 0.0 && perWave >= 1
    requires Holds(net, now, 0, prefix) && Engine.SameBeyond(now, before, perWave)
    ensures Prepared(m, [], setup) && Answered(m, net, prefix, [], setup, perWave, [], [], before, now, 0)
  {
    hide Holds, Engine.SameBeyond, Sane;
  }

  lemma PreparedPart(m: Maths, asks: seq<Ask>, setup: Setup, i: nat)
    requires Prepared(m, asks, setup) && i < |asks|
    ensures Prepared(m, asks[..i], setup) && Prepared(m, asks[..i + 1], setup) && Engine.Scorable(asks[i].candidates)
    ensures Sane(m) && setup.temperature > 0.0
  {
    hide Sane, Engine.Scorable;
  }

  /** One question more. */
  lemma AnsweredStep(m: Maths, net: Net, prefix: seq<Token>, asks: seq<Ask>, setup: Setup, perWave: nat,
                     heads: seq<seq<Token>>, readings: seq<Wire.Reading>, before: seq<Cell>, mid: seq<Cell>, now: seq<Cell>,
                     calls: int, after: int, head: seq<Token>, reading: Wire.Reading)
    requires asks != [] && Prepared(m, asks, setup) && perWave >= 1 && Prepared(m, asks[..|asks| - 1], setup)
    requires Answered(m, net, prefix, asks[..|asks| - 1], setup, perWave, heads, readings, before, mid, calls)
    requires var ask := asks[|asks| - 1];
             && Engine.Scorable(ask.candidates)
             && Answers(net, prefix, ask, setup) && AnsweredAs(m, net, prefix, ask, setup, head, reading)
             && after == calls + Planned(ask, setup.single, perWave) + Extra(net, prefix, ask, setup, perWave)
    requires Holds(net, now, 0, prefix) && Engine.SameBeyond(now, mid, perWave)
    ensures Answered(m, net, prefix, asks, setup, perWave, heads + [head], readings + [reading], before, now, after)
  {
    hide Holds, View, Answers, AnsweredAs, Sane, Engine.Scorable, Planned, Extra;
    var n := |asks| - 1;
    forall k | 0 <= k < |asks| ensures Answers(net, prefix, asks[k], setup) {
      if k < n {
        assert asks[..n][k] == asks[k];
      }
    }
    forall k | 0 <= k < |asks|
      ensures AnsweredAs(m, net, prefix, asks[k], setup, (heads + [head])[k], (readings + [reading])[k])
    {
      if k < n {
        assert asks[..n][k] == asks[k];
      }
    }
  }

  lemma AnsweredMeans(m: Maths, net: Net, prefix: seq<Token>, asks: seq<Ask>, setup: Setup, perWave: nat,
                      heads: seq<seq<Token>>, readings: seq<Wire.Reading>, before: seq<Cell>, now: seq<Cell>, calls: int)
    requires Prepared(m, asks, setup) && perWave >= 1
    requires Answered(m, net, prefix, asks, setup, perWave, heads, readings, before, now, calls)
    ensures Holds(net, now, 0, prefix) && Engine.SameBeyond(now, before, perWave)
    ensures AllAnswer(net, prefix, asks, setup) && AllIndependent(m, net, prefix, asks, setup, heads, readings)
    ensures calls == PlannedAll(asks, setup.single, perWave) + ExtraAll(net, prefix, asks, setup, perWave)
    ensures |readings| == |heads| == |asks|
  {
    hide Holds, AllAnswer, AnsweredAs, Engine.SameBeyond, Prepared, PlannedAll, ExtraAll;
  }

  lemma NotAllAnswer(net: Net, prefix: seq<Token>, asks: seq<Ask>, setup: Setup, k: nat, stop: Sessions.Stop)
    requires k < |asks| && !Answers(net, prefix, asks[k], setup) && AllAnswer(net, prefix, asks[..k], setup)
    requires stop == AskStop(asks[k], setup)
    ensures !AllAnswer(net, prefix, asks, setup) && StopsSomewhere(net, prefix, asks, setup, stop)
  {
    hide Answers, AskStop;
    forall j | 0 <= j < k ensures Answers(net, prefix, asks[j], setup) {
      assert asks[..k][j] == asks[j];
    }
    assert StopsAt(net, prefix, asks, setup, k, stop);
  }

  /** No question costs more than planned exactly when none of them reads a further row. */
  lemma {:induction false} ExtraIff(net: Net, prefix: seq<Token>, asks: seq<Ask>, setup: Setup, perWave: nat)
    requires perWave >= 1 && forall k :: 0 <= k < |asks| ==> Engine.Scorable(asks[k].candidates)
    ensures ExtraAll(net, prefix, asks, setup, perWave) == 0 <==> !SomeMore(net, prefix, asks, setup)
  {
    hide More, Engine.Scorable;
    if asks != [] {
      var n := |asks| - 1;
      ExtraIff(net, prefix, asks[..n], setup, perWave);
      SomeToScore(asks[n].candidates, setup.single);
      if SomeMore(net, prefix, asks[..n], setup) {
        var k :| 0 <= k < n && More(net, prefix, asks[..n][k], setup);
        assert More(net, prefix, asks[k], setup);
      }
      if SomeMore(net, prefix, asks, setup) {
        var k :| 0 <= k < |asks| && More(net, prefix, asks[k], setup);
        assert k < n ==> asks[..n][k] == asks[k];
      }
    }
  }

  lemma SomeToScore(candidates: seq<Path>, single: bool)
    requires Engine.Scorable(candidates)
    ensures ToScore(candidates, single) != []
  {
  }

  /** The first question that cannot be answered, and how it ends the request. */
  ghost predicate StopsAt(net: Net, prefix: seq<Token>, asks: seq<Ask>, setup: Setup, k: int, stop: Sessions.Stop) {
    && 0 <= k < |asks| && !Answers(net, prefix, asks[k], setup)
    && (forall j :: 0 <= j < k ==> Answers(net, prefix, asks[j], setup))
    && stop == AskStop(asks[k], setup)
  }

  ghost predicate StopsSomewhere(net: Net, prefix: seq<Token>, asks: seq<Ask>, setup: Setup, stop: Sessions.Stop) {
    exists k :: StopsAt(net, prefix, asks, setup, k, stop)
  }

  /** One question, after `i` others. */
  method AnswerNext(m: Maths, live: Sessions.Session, ghost before: seq<Cell>, ghost start: nat, prefix: seq<Token>, asks: seq<Ask>,
                    setup: Setup, nSeqMax: int, verdict: Wire.Reading, i: nat, ghost heads: seq<seq<Token>>,
                    ghost readings: seq<Wire.Reading>)
    returns (r: Result<Wire.Reading, Sessions.Stop>, ghost head: seq<Token>)
    requires Prepared(m, asks, setup) && i < |asks| && Prepared(m, asks[..i], setup) && Prepared(m, asks[..i + 1], setup)
    requires Answered(m, live.net, prefix, asks[..i], setup, Engine.PerWave(nSeqMax), heads, readings, before, live.cells,
                      live.decodeCalls - start)
    modifies live`cells, live`decodeCalls
    ensures r.Success? ==>
              Answered(m, live.net, prefix, asks[..i + 1], setup, Engine.PerWave(nSeqMax), heads + [head], readings + [r.value],
                       before, live.cells, live.decodeCalls - start)
    ensures r.Failure? ==>
              !AllAnswer(live.net, prefix, asks, setup) && StopsSomewhere(live.net, prefix, asks, setup, r.error)
    ensures Engine.SameBeyond(live.cells, before, Engine.PerWave(nSeqMax))
  {
    hide *;
    ghost var perWave := Engine.PerWave(nSeqMax);
    PreparedPart(m, asks, setup, i);
    AnsweredMeans(m, live.net, prefix, asks[..i], setup, perWave, heads, readings, before, live.cells, live.decodeCalls - start);
    ghost var mid, midCalls := live.cells, live.decodeCalls;
    r, head := AnswerQuestion(m, live, prefix, asks[i], setup, nSeqMax, verdict);
    SameTwice(live.cells, mid, before, perWave);
    if r.Failure? {
      NotAllAnswer(live.net, prefix, asks, setup, i, r.error);
    } else {
      assert asks[..i + 1][..i] == asks[..i];
      AnsweredIs(m, live.net, prefix, asks[i], setup, head, r.value);
      AnsweredStep(m, live.net, prefix, asks[..i + 1], setup, perWave, heads, readings, before, mid, live.cells,
                   midCalls - start, live.decodeCalls - start, head, r.value);
    }
  }

  /** The loop over the questions, on the prefix that sequence 0 holds. */
  method AnswerAll(m: Maths, live: Sessions.Session, prefix: seq<Token>, asks: seq<Ask>, setup: Setup, nSeqMax: int,
                   verdicts: seq<Wire.Reading>)
    returns (r: Result<seq<Wire.Reading>, Sessions.Stop>, ghost heads: seq<seq<Token>>)
    requires Prepared(m, asks, setup) && |verdicts| == |asks| && Holds(live.net, live.cells, 0, prefix)
    modifies live`cells, live`decodeCalls
    ensures r.Success? <==> AllAnswer(live.net, prefix, asks, setup)
    ensures r.Failure? ==> StopsSomewhere(live.net, prefix, asks, setup, r.error)
    ensures r.Success? ==>
              Answered(m, live.net, prefix, asks, setup, Engine.PerWave(nSeqMax), heads, r.value, old(live.cells), live.cells,
                       live.decodeCalls - old(live.decodeCalls))
    ensures Engine.SameBeyond(live.cells, old(live.cells), Engine.PerWave(nSeqMax))
  {
    ghost var before, start := live.cells, live.decodeCalls;
    ghost var perWave := Engine.PerWave(nSeqMax);
    PreparedMeans(m, asks, setup);
    SameAsItself(before, perWave);
    assert asks[..0] == [];
    AnsweredNone(m, live.net, prefix, setup, perWave, before, before);
    hide *;
    var readings: seq<Wire.Reading> := [];
    heads := [];
    for i := 0 to |asks|
      invariant Prepared(m, asks[..i], setup)
      invariant Answered(m, live.net, prefix, asks[..i], setup, perWave, heads, readings, before, live.cells,
                         live.decodeCalls - start)
    {
      PreparedPart(m, asks, setup, i);
      var reading, head := AnswerNext(m, live, before, start, prefix, asks, setup, nSeqMax, verdicts[i], i, heads, readings);
      if reading.Failure? {
        return Failure(reading.error), heads;
      }
      readings, heads := readings + [reading.value], heads + [head];
    }
    assert asks[..|asks|] == asks;
    AnsweredMeans(m, live.net, prefix, asks, setup, perWave, heads, readings, before, live.cells, live.decodeCalls - start);
    r := Success(readings);
  }

  lemma PreparedMeans(m: Maths, asks: seq<Ask>, setup: Setup)
    requires Prepared(m, asks, setup)
    ensures Sane(m) && setup.temperature > 0.0 && forall k :: 0 <= k < |asks| ==> Engine.Scorable(asks[k].candidates)
  {
    hide Sane, Engine.Scorable;
  }

  lemma AnsweredIs(m: Maths, net: Net, prefix: seq<Token>, ask: Ask, setup: Setup, head: seq<Token>, r: Wire.Reading)
    requires Sane(m) && setup.temperature > 0.0 && Engine.Scorable(ask.candidates) && HeadFits(net, prefix, ask, setup, head)
    requires Independently(m, net, head, ToScore(ask.candidates, setup.single), setup, r)
    requires r.steps == Steps(ToScore(ask.candidates, setup.single))
    ensures AnsweredAs(m, net, prefix, ask, setup, head, r)
  {
    hide Sane, Engine.Scorable, Independently, ToScore, Steps;
  }

  lemma SameAsItself(cells: seq<Cell>, n: nat)
    ensures Engine.SameBeyond(cells, cells, n)
  {
  }

  lemma SameTwice(now: seq<Cell>, mid: seq<Cell>, before: seq<Cell>, n: nat)
    requires Engine.SameBeyond(mid, before, n) && forall s :: s > n ==> View(now, s) == View(mid, s)
    ensures Engine.SameBeyond(now, mid, n) && Engine.SameBeyond(now, before, n)
  {
    hide View;
  }

  // ---------------------------------------------------------------- the request

  /** What `decide` reports beside the answers. */
  datatype Decision = Decision(readings: seq<Wire.Reading>, inputTokens: nat, outputTokens: nat, waves: nat, reused: bool)

  /** A request gets as far as its questions when its candidates have tokens, it fits the context, there is a
      prefix, and a state saved under its name is one of this prefix. */
  predicate Starts(prefix: seq<Token>, asks: seq<Ask>, single: bool, plan: Plan, saved: Option<Sessions.SavedState>) {
    Tokenized(asks) && Fits(prefix, asks, single, plan) && prefix != [] && (saved.Some? ==> saved.value.tokens == prefix)
  }

  /** It is answered exactly when every question can be, too. */
  ghost predicate Decides(net: Net, prefix: seq<Token>, asks: seq<Ask>, setup: Setup, plan: Plan,
                          saved: Option<Sessions.SavedState>) {
    Starts(prefix, asks, setup.single, plan, saved) && AllAnswer(net, prefix, asks, setup)
  }

  /** How a request that is not answered ends: by the first check that fails, in the program's order. */
  ghost predicate StopsWith(net: Net, prefix: seq<Token>, asks: seq<Ask>, setup: Setup, plan: Plan,
                            saved: Option<Sessions.SavedState>, stop: Sessions.Stop) {
    if !Tokenized(asks) then stop == Sessions.EmptyLabel
    else if !(MIN_SEQ_MAX <= plan.nSeqMax <= plan.hostSeqMax) then stop == Sessions.SeqMaxExceeded
    else if |prefix| + LongestQuestion(asks) + plan.margin > plan.hostCtx then stop == Sessions.ContextTooSmall
    else if !Fits(prefix, asks, setup.single, plan) then stop == Sessions.SeqMaxExceeded
    else if prefix == [] then stop == Sessions.EmptyPrefix
    else if saved.Some? && saved.value.tokens != prefix then stop == Sessions.StateLoadFailed
    else StopsSomewhere(net, prefix, asks, setup, stop)
  }

  ghost predicate Enough(m: Maths, asks: seq<Ask>, setup: Setup) {
    Sane(m) && setup.temperature > 0.0 && forall k :: 0 <= k < |asks| ==> asks[k].candidates != []
  }

  /** Prefill once and answer every question over it. */
  method Prefilled(m: Maths, live: Sessions.Session, prefix: seq<Token>, asks: seq<Ask>, setup: Setup, nSeqMax: int,
                   verdicts: seq<Wire.Reading>, saved: Option<Sessions.SavedState>)
    returns (r: Result<Decision, Sessions.Stop>, ghost heads: seq<seq<Token>>)
    requires Prepared(m, asks, setup) && |verdicts| == |asks|
    requires View(live.cells, 0) == [] && Sessions.OwnState(live.net, prefix, saved)
    modifies live`cells, live`decodeCalls
    ensures r.Success? <==>
              prefix != [] && (saved.Some? ==> saved.value.tokens == prefix) && AllAnswer(live.net, prefix, asks, setup)
    ensures r.Failure? ==>
              if prefix == [] then r.error == Sessions.EmptyPrefix
              else if saved.Some? && saved.value.tokens != prefix then r.error == Sessions.StateLoadFailed
              else StopsSomewhere(live.net, prefix, asks, setup, r.error)
    ensures prefix == [] || (saved.Some? && saved.value.tokens != prefix) ==>
              live.cells == old(live.cells) && live.decodeCalls == old(live.decodeCalls)
    ensures r.Success? ==> AllIndependent(m, live.net, prefix, asks, setup, heads, r.value.readings)
    ensures r.Success? ==>
              && r.value.reused == saved.Some?
              && live.decodeCalls == old(live.decodeCalls) + (if r.value.reused then 0 else 1) + r.value.waves
              && r.value.waves == PlannedAll(asks, setup.single, Engine.PerWave(nSeqMax))
                                  + ExtraAll(live.net, prefix, asks, setup, Engine.PerWave(nSeqMax))
    ensures r.Success? ==>
              r.value.inputTokens == |prefix| + SuffixTokens(asks) && r.value.outputTokens == OutputTokens(asks, setup.single)
    ensures forall s :: s > Engine.PerWave(nSeqMax) ==> View(live.cells, s) == View(old(live.cells), s)
  {
    hide *;
    heads := [];
    OwnMeans(live.net, prefix, saved);
    var prefilled := live.Prefill(prefix, saved);
    if prefilled.Failure? {
      return Failure(prefilled.error), heads;
    }
    HoldsMeans(live.net, live.cells, prefix);
    ghost var mid := live.cells;
    var start := live.decodeCalls;
    var readings, hs := AnswerAll(m, live, prefix, asks, setup, nSeqMax, verdicts);
    heads := hs;
    BeyondMeans(live.cells, mid, Engine.PerWave(nSeqMax));
    if readings.Failure? {
      return Failure(readings.error), heads;
    }
    AnsweredMeans(m, live.net, prefix, asks, setup, Engine.PerWave(nSeqMax), heads, readings.value, mid, live.cells,
                  live.decodeCalls - start);
    var input, output := CountTokens(m, live.net, prefix, asks, setup, heads, readings.value);
    r := Success(Decision(readings.value, input, output, live.decodeCalls - start, prefilled.value));
  }

  lemma OwnMeans(net: Net, prefix: seq<Token>, saved: Option<Sessions.SavedState>)
    requires Sessions.OwnState(net, prefix, saved)
    ensures saved.Some? && saved.value.tokens == prefix ==> saved.value.entries == Fresh(net, prefix)
  {
    hide Fresh;
  }

  lemma HoldsMeans(net: Net, cells: seq<Cell>, prefix: seq<Token>)
    ensures Holds(net, cells, 0, prefix) <==> View(cells, 0) == Fresh(net, prefix)
  {
    hide Fresh, View;
  }

  /** The prompt's tokens, and the tokens the answers say they scored. */
  method CountTokens(ghost m: Maths, ghost net: Net, prefix: seq<Token>, asks: seq<Ask>, ghost setup: Setup,
                     ghost heads: seq<seq<Token>>, readings: seq<Wire.Reading>)
    returns (input: nat, output: nat)
    requires Prepared(m, asks, setup) && AllIndependent(m, net, prefix, asks, setup, heads, readings)
    ensures input == |prefix| + SuffixTokens(asks) && output == OutputTokens(asks, setup.single)
  {
    hide *;
    input, output := |prefix|, 0;
    NoTokens(setup.single);
    assert asks[..0] == [];
    for i := 0 to |asks|
      invariant input == |prefix| + SuffixTokens(asks[..i]) && output == OutputTokens(asks[..i], setup.single)
    {
      OneMoreCounted(m, net, prefix, asks, setup, heads, readings, i);
      input, output := input + |asks[i].suffix|, output + readings[i].steps;
    }
    assert asks[..|asks|] == asks;
  }

  /** `decide`: the guards, one prefill or one reload, every question over it. Every number is the one an
      independent context gives, no sequence from the planned number on is touched, and the decodes are one for
      the prefix, none for a reloaded one, and the planned ones if and only if no question reads a further row.
      A request that is refused names the first check that fails, and before its questions decodes nothing. */
  method Decide(m: Maths, live: Sessions.Session, prefix: seq<Token>, asks: seq<Ask>, setup: Setup, plan: Plan,
                verdicts: seq<Wire.Reading>, saved: Option<Sessions.SavedState>)
    returns (r: Result<Decision, Sessions.Stop>, ghost heads: seq<seq<Token>>)
    requires Enough(m, asks, setup) && |verdicts| == |asks|
    requires View(live.cells, 0) == [] && Sessions.OwnState(live.net, prefix, saved)
    modifies live`cells, live`decodeCalls
    ensures Tokenized(asks) ==> Prepared(m, asks, setup)
    ensures r.Success? <==> Decides(live.net, prefix, asks, setup, plan, saved)
    ensures r.Failure? ==> StopsWith(live.net, prefix, asks, setup, plan, saved, r.error)
    ensures r.Success? ==> AllIndependent(m, live.net, prefix, asks, setup, heads, r.value.readings)
    ensures r.Success? ==>
              && r.value.reused == saved.Some?
              && live.decodeCalls == old(live.decodeCalls) + (if r.value.reused then 0 else 1) + r.value.waves
              && r.value.waves == PlannedAll(asks, setup.single, Engine.PerWave(plan.nSeqMax))
                                  + ExtraAll(live.net, prefix, asks, setup, Engine.PerWave(plan.nSeqMax))
    ensures r.Success? ==>
              (r.value.waves == PlannedAll(asks, setup.single, Engine.PerWave(plan.nSeqMax)) <==>
               !SomeMore(live.net, prefix, asks, setup))
    ensures r.Success? ==>
              r.value.inputTokens == |prefix| + SuffixTokens(asks) && r.value.outputTokens == OutputTokens(asks, setup.single)
    ensures !Starts(prefix, asks, setup.single, plan, saved) ==>
              live.cells == old(live.cells) && live.decodeCalls == old(live.decodeCalls)
    ensures forall s :: s >= plan.nSeqMax ==> View(live.cells, s) == View(old(live.cells), s)
  {
    heads := [];
    EnoughPrepares(m, asks, setup);
    DecidesMeans(live.net, prefix, asks, setup, plan, saved);
    hide *;
    var empty := HasEmptyCandidate(asks);
    if empty {
      EndsWith(live.net, prefix, asks, setup, plan, saved, Sessions.EmptyLabel);
      return Failure(Sessions.EmptyLabel), heads;
    }
    var fits := Guard(prefix, asks, setup.single, plan);
    if fits.Failure? {
      EndsWith(live.net, prefix, asks, setup, plan, saved, fits.error);
      return Failure(fits.error), heads;
    }
    SequencesLeft(prefix, asks, setup.single, plan);
    r, heads := Prefilled(m, live, prefix, asks, setup, plan.nSeqMax, verdicts, saved);
    if r.Failure? {
      EndsWith(live.net, prefix, asks, setup, plan, saved, r.error);
    }
    PreparedMeans(m, asks, setup);
    ExtraIff(live.net, prefix, asks, setup, Engine.PerWave(plan.nSeqMax));
  }

  lemma EnoughPrepares(m: Maths, asks: seq<Ask>, setup: Setup)
    requires Enough(m, asks, setup)
    ensures Tokenized(asks) ==> Prepared(m, asks, setup)
  {
    hide Sane;
    if Tokenized(asks) {
      forall k | 0 <= k < |asks| ensures Engine.Scorable(asks[k].candidates) {
        var candidates := asks[k].candidates;
        forall j | 0 <= j < |candidates| ensures candidates[j] != [] {
          assert candidates[j] in asks[k].candidates;
        }
      }
    }
  }

  lemma DecidesMeans(net: Net, prefix: seq<Token>, asks: seq<Ask>, setup: Setup, plan: Plan, saved: Option<Sessions.SavedState>)
    ensures Decides(net, prefix, asks, setup, plan, saved) <==>
            Starts(prefix, asks, setup.single, plan, saved) && AllAnswer(net, prefix, asks, setup)
    ensures Starts(prefix, asks, setup.single, plan, saved) <==>
            && Tokenized(asks) && Fits(prefix, asks, setup.single, plan) && prefix != []
            && (saved.Some? ==> saved.value.tokens == prefix)
  {
    hide Tokenized, Fits, AllAnswer;
  }

  /** The end of a request, from what the guards and the prefill report. */
  lemma EndsWith(net: Net, prefix: seq<Token>, asks: seq<Ask>, setup: Setup, plan: Plan, saved: Option<Sessions.SavedState>,
                 stop: Sessions.Stop)
    requires !Tokenized(asks) ==> stop == Sessions.EmptyLabel
    requires Tokenized(asks) && !Fits(prefix, asks, setup.single, plan) ==>
               && stop in {Sessions.SeqMaxExceeded, Sessions.ContextTooSmall}
               && (stop == Sessions.ContextTooSmall <==>
                   MIN_SEQ_MAX <= plan.nSeqMax <= plan.hostSeqMax && |prefix| + LongestQuestion(asks) + plan.margin > plan.hostCtx)
    requires Tokenized(asks) && Fits(prefix, asks, setup.single, plan) ==>
               if prefix == [] then stop == Sessions.EmptyPrefix
               else if saved.Some? && saved.value.tokens != prefix then stop == Sessions.StateLoadFailed
               else StopsSomewhere(net, prefix, asks, setup, stop)
    ensures StopsWith(net, prefix, asks, setup, plan, saved, stop)
  {
    hide Tokenized, LongestQuestion, PlannedAll, StopsSomewhere;
  }

  lemma SequencesLeft(prefix: seq<Token>, asks: seq<Ask>, single: bool, plan: Plan)
    requires Fits(prefix, asks, single, plan)
    ensures Engine.PerWave(plan.nSeqMax) == plan.nSeqMax - 1 && plan.nSeqMax > 0
  {
    hide LongestQuestion, PlannedAll;
  }

  lemma BeyondMeans(now: seq<Cell>, before: seq<Cell>, n: nat)
    requires Engine.SameBeyond(now, before, n)
    ensures forall s :: s > n ==> View(now, s) == View(before, s)
  {
    hide View;
  }

  lemma NoTokens(single: bool)
    ensures SuffixTokens([]) == 0 && OutputTokens([], single) == 0
  {
  }

  lemma OneMoreCounted(m: Maths, net: Net, prefix: seq<Token>, asks: seq<Ask>, setup: Setup, heads: seq<seq<Token>>,
                       readings: seq<Wire.Reading>, i: nat)
    requires Prepared(m, asks, setup) && AllIndependent(m, net, prefix, asks, setup, heads, readings) && i < |asks|
    ensures i < |readings|
    ensures SuffixTokens(asks[..i + 1]) == SuffixTokens(asks[..i]) + |asks[i].suffix|
    ensures OutputTokens(asks[..i + 1], setup.single) == OutputTokens(asks[..i], setup.single) + readings[i].steps
  {
    hide HeadFits, Independently, Steps, ToScore, Sane, Engine.Scorable;
    assert asks[..i + 1][..i] == asks[..i];
    assert AnsweredAs(m, net, prefix, asks[i], setup, heads[i], readings[i]);
  }
}
