/** From a request body to the body the client accepts. */
module Responding {
  import opened Deciding
  import opened Documents
  import opened KvCache
  import opened Published
  import opened Schema
  import opened Wrappers
  import Answers
  import Engine
  import Sequences
  import Rounding
  import Served
  import Sessions
  import Wire

  // ---------------------------------------------------------------- the options that reach the numbers

  const TEMPERATURE := 0
  const LENGTH_NORM := 1
  const READOUT := 2
  const CUE := 3
  const CONFIDENCE_MODE := 6
  const N_SEQ_MAX := 8
  const COVERAGE_FLOOR := 10
  const STATE_ID := 14
  const STATE_CACHE := 15
  const MAX_WAVES := 17

  /** The context, the tokens of its vocabulary that close a turn or a value, and the states on disk: by the
      request's `state_id`, or without one by the prefix. */
  datatype Host = Host(seqMax: int, ctx: int, margin: int, closers: set<Token>, quotes: set<Token>,
                       states: (Json, seq<Token>) -> Option<Sessions.SavedState>)

  /** Every state that would be put back is this network's own. */
  ghost predicate OwnStates(net: Net, host: Host) {
    forall id: Json, prefix: seq<Token> :: Sessions.OwnState(net, prefix, host.states(id, prefix))
  }

  function CueOf(v: Json): Engine.Cue {
    if v == Str("shipped") then Engine.Shipped
    else if v == Str("two_step") then Engine.TwoStep
    else if v == Str("json_field") then Engine.JsonField
    else Engine.JsonInstructed
  }

  /** Without a calibration table no mode means the default one. */
  function ModeOf(v: Json): Mode {
    if v == Str("entropy") then Entropy else if v == Str("margin") then Margin else NormalizedPeak
  }

  function WholeOf(v: Json): Option<int> {
    if v.Int? then Some(v.whole) else None
  }

  /** Options as an accepted request has them, with finite numbers. */
  predicate Settled(o: Schema.Options) {
    |o| == |TABLE| && o[TEMPERATURE].Num? && o[TEMPERATURE].num > 0.0 && o[LENGTH_NORM].Num? && o[COVERAGE_FLOOR].Num?
  }

  function SetupOf(o: Schema.Options, host: Host): (setup: Setup)
    requires Settled(o)
    ensures setup.temperature > 0.0
  {
    Setup(CueOf(o[CUE]), host.closers, host.quotes, o[READOUT] == Str("single_token"), o[LENGTH_NORM].num,
          o[TEMPERATURE].num, ModeOf(o[CONFIDENCE_MODE]), o[COVERAGE_FLOOR].num, None)
  }

  function MostCandidates(asks: seq<Ask>): nat {
    if asks == [] then 0
    else
      var n := |asks| - 1;
      var before, last := MostCandidates(asks[..n]), |asks[n].candidates|;
      if last > before then last else before
  }

  /** `options.n_seq_max`, or a sequence for the prefix and one for each candidate of the largest question. */
  function SequencesFor(o: Json, asks: seq<Ask>): int {
    if o.Int? then o.whole else if 1 + MostCandidates(asks) > MIN_SEQ_MAX then 1 + MostCandidates(asks) else MIN_SEQ_MAX
  }

  function PlanOf(o: Schema.Options, asks: seq<Ask>, host: Host): Plan
    requires Settled(o)
  {
    Plan(SequencesFor(o[N_SEQ_MAX], asks), host.seqMax, host.ctx, host.margin, WholeOf(o[MAX_WAVES]))
  }

  /** Options as an accepted request has them, as far as they are numbers. */
  lemma AcceptedSettled(r: Request)
    requires Valid(TABLE, r)
    ensures |r.options| == |TABLE|
    ensures Settled(r.options) <==> forall k <- [TEMPERATURE, LENGTH_NORM, COVERAGE_FLOOR] :: !r.options[k].NotFinite?
  {
    var o := r.options;
    assert Normalise(TABLE[TEMPERATURE].rule, o[TEMPERATURE]) == Some(o[TEMPERATURE]);
    assert Normalise(TABLE[LENGTH_NORM].rule, o[LENGTH_NORM]) == Some(o[LENGTH_NORM]);
    assert Normalise(TABLE[COVERAGE_FLOOR].rule, o[COVERAGE_FLOOR]) == Some(o[COVERAGE_FLOOR]);
    NumberNormal(TABLE[TEMPERATURE].rule, o[TEMPERATURE]);
    NumberNormal(TABLE[LENGTH_NORM].rule, o[LENGTH_NORM]);
    NumberNormal(TABLE[COVERAGE_FLOOR].rule, o[COVERAGE_FLOOR]);
    hide TABLE, Normalise;
    assert TEMPERATURE in [TEMPERATURE, LENGTH_NORM, COVERAGE_FLOOR];
    assert LENGTH_NORM in [TEMPERATURE, LENGTH_NORM, COVERAGE_FLOOR];
    assert COVERAGE_FLOOR in [TEMPERATURE, LENGTH_NORM, COVERAGE_FLOOR];
  }

  /** The request's numbers are those the payload gives under each option's own name. */
  ghost predicate NumbersGiven(payload: Json, setup: Setup) {
    var temperature, norm := Given(payload, "temperature", Num(1.0)), Given(payload, "length_norm", Num(1.0));
    var floor := Given(payload, "coverage_floor", Num(0.10));
    && IsNumber(temperature) && setup.temperature == NumberOf(temperature)
    && IsNumber(norm) && setup.norm == NumberOf(norm)
    && IsNumber(floor) && setup.floor == NumberOf(floor)
  }

  /** Its readout, cue and confidence are those the payload names. */
  ghost predicate NamesGiven(payload: Json, setup: Setup) {
    var cue, mode := Given(payload, "cue", Str("json_instructed")), Given(payload, "confidence_mode", Null);
    && (setup.single <==> Given(payload, "readout", Str("sequence")) == Str("single_token"))
    && (setup.cue.Shipped? <==> cue == Str("shipped")) && (setup.cue.TwoStep? <==> cue == Str("two_step"))
    && (setup.cue.JsonField? <==> cue == Str("json_field")) && (setup.cue.JsonInstructed? <==> cue == Str("json_instructed"))
    && (setup.mode.Entropy? <==> mode == Str("entropy")) && (setup.mode.Margin? <==> mode == Str("margin"))
    && (setup.mode.NormalizedPeak? <==> mode == Null || mode == Str("normalized_peak"))
  }

  /** What the request decides with is what its payload gives under each option's own name. */
  lemma SetupAsGiven(payload: Json, host: Host)
    requires RequestOf(TABLE, payload).Success? && Settled(RequestOf(TABLE, payload).value.options)
    ensures NumbersGiven(payload, SetupOf(RequestOf(TABLE, payload).value.options, host))
    ensures NamesGiven(payload, SetupOf(RequestOf(TABLE, payload).value.options, host))
    ensures var setup := SetupOf(RequestOf(TABLE, payload).value.options, host);
            setup.closers == host.closers && setup.quotes == host.quotes && setup.sure == None
  {
    HostSetup(RequestOf(TABLE, payload).value.options, host);
    hide TABLE, RequestOf, Given, NumbersGiven, NamesGiven, SetupOf, CUES, MODES;
    NumberSettings();
    GivenKept(payload, TEMPERATURE, Setting("temperature", Number(0.0, false, None), Num(1.0)));
    GivenKept(payload, LENGTH_NORM, Setting("length_norm", Number(0.0, true, None), Num(1.0)));
    GivenKept(payload, COVERAGE_FLOOR, Setting("coverage_floor", Number(0.0, true, Some(1.0)), Num(0.10)));
    NumbersAre(payload, RequestOf(TABLE, payload).value.options, host);
    NameSettings();
    GivenKept(payload, READOUT, Setting("readout", OneOf(["sequence", "single_token"]), Str("sequence")));
    GivenKept(payload, CUE, Setting("cue", OneOf(CUES), Str("json_instructed")));
    GivenKept(payload, CONFIDENCE_MODE, Setting("confidence_mode", OneOfOrNull(MODES), Null));
    NamesAre(payload, RequestOf(TABLE, payload).value.options, host);
  }

  lemma HostSetup(o: Schema.Options, host: Host)
    requires Settled(o)
    ensures SetupOf(o, host).closers == host.closers && SetupOf(o, host).quotes == host.quotes && SetupOf(o, host).sure == None
  {
  }

  const CUES := ["shipped", "two_step", "json_field", "json_instructed"]
  const MODES := ["normalized_peak", "entropy", "margin"]

  lemma NumberSettings()
    ensures COVERAGE_FLOOR < |TABLE|
    ensures TABLE[TEMPERATURE] == Setting("temperature", Number(0.0, false, None), Num(1.0))
    ensures TABLE[LENGTH_NORM] == Setting("length_norm", Number(0.0, true, None), Num(1.0))
    ensures TABLE[COVERAGE_FLOOR] == Setting("coverage_floor", Number(0.0, true, Some(1.0)), Num(0.10))
  {
  }

  lemma NameSettings()
    ensures CONFIDENCE_MODE < |TABLE|
    ensures TABLE[READOUT] == Setting("readout", OneOf(["sequence", "single_token"]), Str("sequence"))
    ensures TABLE[CUE] == Setting("cue", OneOf(CUES), Str("json_instructed"))
    ensures TABLE[CONFIDENCE_MODE] == Setting("confidence_mode", OneOfOrNull(MODES), Null)
  {
  }

  lemma PlanSettings()
    ensures MAX_WAVES < |TABLE|
    ensures TABLE[N_SEQ_MAX] == Setting("n_seq_max", WholeFromOrNull(3), Null)
    ensures TABLE[MAX_WAVES] == Setting("max_waves", WholeFromOrNull(1), Null)
    ensures TABLE[STATE_ID] == Setting("state_id", TextOrNull, Null)
    ensures TABLE[STATE_CACHE] == Setting("state_cache", Boolean, Flag(true))
  {
  }

  lemma NumbersAre(payload: Json, o: Schema.Options, host: Host)
    requires Settled(o)
    requires var v := Given(payload, "temperature", Num(1.0)); IsNumber(v) && o[TEMPERATURE].num == NumberOf(v)
    requires var v := Given(payload, "length_norm", Num(1.0)); IsNumber(v) && o[LENGTH_NORM].num == NumberOf(v)
    requires var v := Given(payload, "coverage_floor", Num(0.10)); IsNumber(v) && o[COVERAGE_FLOOR].num == NumberOf(v)
    ensures NumbersGiven(payload, SetupOf(o, host))
  {
    hide Given, CueOf, ModeOf;
  }

  lemma NamesAre(payload: Json, o: Schema.Options, host: Host)
    requires Settled(o)
    requires o[READOUT] == Given(payload, "readout", Str("sequence"))
    requires o[CUE] == Given(payload, "cue", Str("json_instructed")) && o[CUE].Str? && o[CUE].text in CUES
    requires o[CONFIDENCE_MODE] == Given(payload, "confidence_mode", Null)
    requires o[CONFIDENCE_MODE].Null? || (o[CONFIDENCE_MODE].Str? && o[CONFIDENCE_MODE].text in MODES)
    ensures NamesGiven(payload, SetupOf(o, host))
  {
    hide Given;
  }

  /** So are the number of sequences, the cap on the waves and the saved state it may start from. */
  lemma PlanAsGiven(payload: Json, p: Prompt, host: Host)
    requires RequestOf(TABLE, payload).Success? && Settled(RequestOf(TABLE, payload).value.options)
    ensures PlanGiven(payload, PlanFor(RequestOf(TABLE, payload).value, p, host), host)
    ensures StateGiven(payload, p, host, StateFor(RequestOf(TABLE, payload).value, p, host))
  {
    hide TABLE, RequestOf, Settled, Given, PlanGiven, StateGiven, PlanFor, StateFor;
    PlanSettings();
    GivenKept(payload, N_SEQ_MAX, Setting("n_seq_max", WholeFromOrNull(3), Null));
    GivenKept(payload, MAX_WAVES, Setting("max_waves", WholeFromOrNull(1), Null));
    GivenKept(payload, STATE_ID, Setting("state_id", TextOrNull, Null));
    GivenKept(payload, STATE_CACHE, Setting("state_cache", Boolean, Flag(true)));
    PlanAre(payload, RequestOf(TABLE, payload).value, p, host);
  }

  ghost predicate PlanGiven(payload: Json, plan: Plan, host: Host) {
    var sequences, waves := Given(payload, "n_seq_max", Null), Given(payload, "max_waves", Null);
    && (sequences.Int? ==> plan.nSeqMax == sequences.whole)
    && (waves.Int? ==> plan.maxWaves == Some(waves.whole)) && (waves == Null ==> plan.maxWaves == None)
    && plan.hostSeqMax == host.seqMax && plan.hostCtx == host.ctx && plan.margin == host.margin
  }

  ghost predicate StateGiven(payload: Json, p: Prompt, host: Host, saved: Option<Sessions.SavedState>) {
    var cached := Given(payload, "state_cache", Flag(true));
    && (cached == Flag(true) ==> saved == host.states(Given(payload, "state_id", Null), p.prefix))
    && (cached == Flag(false) ==> saved == None)
  }

  lemma PlanAre(payload: Json, r: Request, p: Prompt, host: Host)
    requires Settled(r.options)
    requires r.options[N_SEQ_MAX] == Given(payload, "n_seq_max", Null)
    requires r.options[MAX_WAVES] == Given(payload, "max_waves", Null)
    requires r.options[STATE_ID] == Given(payload, "state_id", Null)
    requires r.options[STATE_CACHE] == Given(payload, "state_cache", Flag(true))
    ensures PlanGiven(payload, PlanFor(r, p, host), host) && StateGiven(payload, p, host, StateFor(r, p, host))
  {
    hide Given, MostCandidates;
  }

  // ---------------------------------------------------------------- the default number of sequences

  lemma {:induction false} MostBound(asks: seq<Ask>, k: nat)
    requires k < |asks|
    ensures |asks[k].candidates| <= MostCandidates(asks)
  {
    if k < |asks| - 1 {
      MostBound(asks[..|asks| - 1], k);
    }
  }

  /** The number of questions that read a further row. */
  ghost function Reading(net: Net, prefix: seq<Token>, asks: seq<Ask>, setup: Setup): nat {
    if asks == [] then 0
    else
      var n := |asks| - 1;
      Reading(net, prefix, asks[..n], setup) + if More(net, prefix, asks[n], setup) then 1 else 0
  }

  /** The longest candidates of all questions. */
  function LongestAll(asks: seq<Ask>, single: bool): nat {
    if asks == [] then 0
    else
      var n := |asks| - 1;
      LongestAll(asks[..n], single) + Engine.Longest(ToScore(asks[n].candidates, single))
  }

  /** With enough sequences for every candidate of every question each question is one wave: the decodes are
      one per token of its longest candidate, and one for each question that reads a further row. */
  lemma {:induction false} OneWaveEach(net: Net, prefix: seq<Token>, asks: seq<Ask>, setup: Setup, perWave: nat)
    requires perWave >= 1 && forall k :: 0 <= k < |asks| ==> 1 <= |asks[k].candidates| <= perWave
    ensures PlannedAll(asks, setup.single, perWave) == LongestAll(asks, setup.single)
    ensures ExtraAll(net, prefix, asks, setup, perWave) == Reading(net, prefix, asks, setup)
  {
    hide More, ToScore, Engine.Longest;
    if asks != [] {
      var n := |asks| - 1;
      OneWaveEach(net, prefix, asks[..n], setup, perWave);
      assert |ToScore(asks[n].candidates, setup.single)| == |asks[n].candidates|;
    }
  }

  /** ... which is what a request that names no number of sequences gets. */
  lemma DefaultIsOneWave(net: Net, prefix: seq<Token>, asks: seq<Ask>, setup: Setup)
    requires forall k :: 0 <= k < |asks| ==> asks[k].candidates != []
    ensures var perWave := Engine.PerWave(SequencesFor(Null, asks));
            && PlannedAll(asks, setup.single, perWave) == LongestAll(asks, setup.single)
            && ExtraAll(net, prefix, asks, setup, perWave) == Reading(net, prefix, asks, setup)
  {
    var perWave := Engine.PerWave(SequencesFor(Null, asks));
    forall k | 0 <= k < |asks| ensures 1 <= |asks[k].candidates| <= perWave {
      MostBound(asks, k);
    }
    hide *;
    OneWaveEach(net, prefix, asks, setup, perWave);
  }

  /** A request gets the sequences it names; one that names none gets the fewest that are three and, beside one for
      the prefix, enough for every question's candidates. */
  lemma {:induction false} SequencesNeeded(asks: seq<Ask>, n: int)
    ensures SequencesFor(Int(n), asks) == n
    ensures var least := SequencesFor(Null, asks);
            && least >= 3 && (forall k :: 0 <= k < |asks| ==> least >= 1 + |asks[k].candidates|)
            && (least == 3 || exists k :: 0 <= k < |asks| && least == 1 + |asks[k].candidates|)
  {
    forall k | 0 <= k < |asks| ensures |asks[k].candidates| <= MostCandidates(asks) {
      MostBound(asks, k);
    }
    MostReached(asks);
  }

  lemma {:induction false} MostReached(asks: seq<Ask>)
    ensures MostCandidates(asks) == 0 || exists k :: 0 <= k < |asks| && |asks[k].candidates| == MostCandidates(asks)
  {
    if asks != [] {
      var n := |asks| - 1;
      MostReached(asks[..n]);
      if k :| 0 <= k < n && |asks[..n][k].candidates| == MostCandidates(asks[..n]) {
        assert asks[k] == asks[..n][k];
      }
    }
  }

  // ---------------------------------------------------------------- the whole way

  /** What the prompt builder and the tokenizer make of a request: the shared prefix and the questions. */
  datatype Prompt = Prompt(prefix: seq<Token>, asks: seq<Ask>)

  ghost predicate Renders(r: Request, p: Prompt) {
    && |p.asks| == |r.questions|
    && forall i :: 0 <= i < |p.asks| ==> |p.asks[i].candidates| == |r.questions[i].candidates.keys|
  }

  /** What the response carries beside the answers. */
  datatype Extras = Extras(model: string, verdicts: int -> Wire.Reading, engine: Json, usage: Fields, native: Fields)

  lemma AskedSome(r: Request, p: Prompt)
    requires Valid(TABLE, r) && Renders(r, p)
    ensures forall k :: 0 <= k < |p.asks| ==> p.asks[k].candidates != []
  {
    forall k | 0 <= k < |p.asks| ensures p.asks[k].candidates != [] {
      assert r.questions[k] in r.questions;
      assert |r.questions[k].candidates.keys| > 0;
    }
  }

  lemma AllMeasured(m: Maths, net: Net, r: Request, p: Prompt, setup: Setup, heads: seq<seq<Token>>, readings: seq<Wire.Reading>)
    requires Renders(r, p) && Prepared(m, p.asks, setup)
    requires AllIndependent(m, net, p.prefix, p.asks, setup, heads, readings)
    ensures |readings| == |r.questions|
    ensures forall i :: 0 <= i < |r.questions| ==> Served.Measured(r.questions[i].candidates.keys, readings[i])
  {
    forall i | 0 <= i < |r.questions| ensures Served.Measured(r.questions[i].candidates.keys, readings[i]) {
      hide Independently, Sane, Served.Measured, ToScore;
      var scored := ToScore(p.asks[i].candidates, setup.single);
      assert AnsweredAs(m, net, p.prefix, p.asks[i], setup, heads[i], readings[i]);
      IndependentIsMeasured(m, net, heads[i], scored, setup, readings[i], r.questions[i].candidates.keys);
    }
  }

  /** From the request body and the network to the client: what an accepted request's answers are when every
      number is an independent context's at the request's own temperature, length norm and confidence mode
      is a body the client finds no problem with and meets no exception on. */
  lemma AcceptedIsServed(m: Maths, net: Net, floats: Wire.Floats, payload: Json, p: Prompt, host: Host,
                         heads: seq<seq<Token>>, readings: seq<Wire.Reading>, input: nat, output: nat, extras: Extras)
    requires WellFormed(payload) && RequestOf(TABLE, payload).Success?
    requires extras.model != "" && input > 0 && Renders(RequestOf(TABLE, payload).value, p)
    requires var r := RequestOf(TABLE, payload).value;
             && Settled(r.options) && Prepared(m, p.asks, SetupOf(r.options, host))
             && AllIndependent(m, net, p.prefix, p.asks, SetupOf(r.options, host), heads, readings)
    ensures Served.Delivered(floats, extras.model, RequestOf(TABLE, payload).value.questions, readings, input, output, extras.engine,
                             extras.usage, extras.native)
  {
    TableFits();
    var r := RequestOf(TABLE, payload).value;
    hide *;
    AcceptedIsValid(TABLE, payload);
    AllMeasured(m, net, r, p, SetupOf(r.options, host), heads, readings);
    Served.AcceptedIsServed(floats, payload, readings, extras.model, input, output, extras.engine, extras.usage, extras.native);
  }

  lemma ValidMeans(r: Request)
    requires Valid(TABLE, r)
    ensures r.questions != [] && Sequences.AllDistinct(Ids(r.questions)) && r.format in {"native", "typesafe"}
  {
  }

  // ---------------------------------------------------------------- one request

  datatype Refusal = Invalid(code: Code) | Stopped(stop: Sessions.Stop)

  /** How a request is decided: its numbers, and what it needs of the context. */
  function SetupFor(r: Request, host: Host): Setup
    requires Settled(r.options)
  {
    SetupOf(r.options, host)
  }

  function PlanFor(r: Request, p: Prompt, host: Host): Plan
    requires Settled(r.options)
  {
    PlanOf(r.options, p.asks, host)
  }

  /** The saved prefix a request would start from. */
  function StateFor(r: Request, p: Prompt, host: Host): Option<Sessions.SavedState>
    requires Settled(r.options)
  {
    if r.options[STATE_CACHE] == Flag(true) then host.states(r.options[STATE_ID], p.prefix) else None
  }

  /** The published body is the rendering of readings that independent contexts give. */
  ghost predicate Publishes(m: Maths, net: Net, r: Request, p: Prompt, host: Host, extras: Extras, body: Json) {
    && Settled(r.options) && Prepared(m, p.asks, SetupFor(r, host))
    && exists heads, readings ::
         && AllIndependent(m, net, p.prefix, p.asks, SetupFor(r, host), heads, readings)
         && Served.AllSound(r.questions, readings)
         && Wire.Rendered(Wire.Payload(extras.model, r.questions, readings, |p.prefix| + SuffixTokens(p.asks),
                                       OutputTokens(p.asks, SetupFor(r, host).single), extras.engine, extras.usage, extras.native),
                          r.format) == Success(body)
  }

  /** `decide_on_handle`, from the payload to the body. A payload the schema refuses decodes nothing, nor does a
      request that does not get as far as its questions. The body is made exactly when the request can be
      decided, and otherwise the first thing in its way is named; the body publishes the numbers of independent
      contexts, the adapter's client accepts it, and the context decoded once for a prefix that was not on disk
      and as planned for the waves if and only if no question reads a further row. */
  method Respond(m: Maths, net: Net, ghost floats: Wire.Floats, payload: Json, prompts: Request -> Prompt, host: Host,
                 extras: Extras)
    returns (r: Result<Json, Refusal>, calls: nat)
    requires Sane(m) && WellFormed(payload) && extras.model != "" && OwnStates(net, host)
    requires forall q: Request :: Valid(TABLE, q) ==> Renders(q, prompts(q))
    requires RequestOf(TABLE, payload).Success? ==> Settled(RequestOf(TABLE, payload).value.options)
    ensures RequestOf(TABLE, payload).Failure? ==> r == Failure(Invalid(RequestOf(TABLE, payload).error)) && calls == 0
    ensures RequestOf(TABLE, payload).Success? ==>
              var q := RequestOf(TABLE, payload).value;
              var p := prompts(q);
              && (r.Success? <==> Decides(net, p.prefix, p.asks, SetupFor(q, host), PlanFor(q, p, host), StateFor(q, p, host)))
              && (r.Failure? ==>
                    && r.error.Stopped?
                    && StopsWith(net, p.prefix, p.asks, SetupFor(q, host), PlanFor(q, p, host), StateFor(q, p, host), r.error.stop))
              && (!Starts(p.prefix, p.asks, SetupFor(q, host).single, PlanFor(q, p, host), StateFor(q, p, host)) ==> calls == 0)
              && (r.Success? ==> Publishes(m, net, q, p, host, extras, r.value))
              && (r.Success? && q.format == "typesafe" ==>
                    && Wire.Conforms(r.value, Served.AskedOf(q.questions))
                    && Wire.Runs(floats, r.value, Served.AskedOf(q.questions)))
              && (r.Success? ==>
                    var perWave := Engine.PerWave(PlanFor(q, p, host).nSeqMax);
                    var first := if StateFor(q, p, host).Some? then 0 else 1;
                    && calls == first + PlannedAll(p.asks, SetupFor(q, host).single, perWave)
                                + ExtraAll(net, p.prefix, p.asks, SetupFor(q, host), perWave)
                    && (calls == first + PlannedAll(p.asks, SetupFor(q, host).single, perWave) <==>
                        !SomeMore(net, p.prefix, p.asks, SetupFor(q, host))))
  {
    hide *;
    calls := 0;
    var parsed := ParseRequest(payload);
    if parsed.Failure? {
      return Failure(Invalid(parsed.error)), calls;
    }
    var q := parsed.value;
    var p := prompts(q);
    var setup, plan := SetupFor(q, host), PlanFor(q, p, host);
    AskedSome(q, p);
    IsEnough(m, q, p, host);
    var live := new Sessions.Session(net);
    NothingSeen();
    var verdicts := seq(|p.asks|, extras.verdicts);
    var saved := StateFor(q, p, host);
    OwnState(net, q, p, host);
    var decision, heads := Decide(m, live, p.prefix, p.asks, setup, plan, verdicts, saved);
    calls := live.decodeCalls;
    if decision.Failure? {
      return Failure(Stopped(decision.error)), calls;
    }
    DecidesMeans(net, p.prefix, p.asks, setup, plan, saved);
    var body := RenderBody(m, net, floats, payload, q, p, host, extras, heads, decision.value);
    r := Success(body);
  }

  lemma OwnState(net: Net, q: Request, p: Prompt, host: Host)
    requires Settled(q.options) && OwnStates(net, host)
    ensures Sessions.OwnState(net, p.prefix, StateFor(q, p, host))
  {
    hide Fresh;
  }

  lemma IsEnough(m: Maths, q: Request, p: Prompt, host: Host)
    requires Sane(m) && Settled(q.options) && forall k :: 0 <= k < |p.asks| ==> p.asks[k].candidates != []
    ensures Enough(m, p.asks, SetupFor(q, host))
  {
    hide Sane;
  }

  lemma NothingSeen()
    ensures View([], 0) == []
  {
  }

  method RenderBody(ghost m: Maths, ghost net: Net, ghost floats: Wire.Floats, ghost payload: Json, q: Request, p: Prompt,
                    ghost host: Host, extras: Extras, ghost heads: seq<seq<Token>>, decision: Decision)
    returns (body: Json)
    requires WellFormed(payload) && RequestOf(TABLE, payload) == Success(q) && extras.model != "" && Renders(q, p)
    requires Valid(TABLE, q) && Settled(q.options) && Prepared(m, p.asks, SetupFor(q, host)) && p.prefix != []
    requires AllIndependent(m, net, p.prefix, p.asks, SetupFor(q, host), heads, decision.readings)
    requires decision.inputTokens == |p.prefix| + SuffixTokens(p.asks)
    requires decision.outputTokens == OutputTokens(p.asks, SetupFor(q, host).single)
    ensures Publishes(m, net, q, p, host, extras, body)
    ensures q.format == "typesafe" ==> Wire.Conforms(body, Served.AskedOf(q.questions))
                                       && Wire.Runs(floats, body, Served.AskedOf(q.questions))
  {
    hide *;
    SetupMeans(q, host);
    AcceptedIsServed(m, net, floats, payload, p, host, heads, decision.readings, decision.inputTokens, decision.outputTokens, extras);
    DeliveredMeans(floats, q, decision, extras);
    ValidMeans(q);
    var result := Wire.Payload(extras.model, q.questions, decision.readings, decision.inputTokens, decision.outputTokens,
                               extras.engine, extras.usage, extras.native);
    var rendered := Wire.RenderResponse(result, q.format);
    body := rendered.value;
    IsPublished(m, net, q, p, host, extras, heads, decision.readings, body);
  }

  lemma SetupMeans(q: Request, host: Host)
    requires Settled(q.options)
    ensures SetupFor(q, host) == SetupOf(q.options, host)
  {
    hide SetupOf;
  }

  lemma DeliveredMeans(floats: Wire.Floats, q: Request, d: Decision, extras: Extras)
    requires Served.Delivered(floats, extras.model, q.questions, d.readings, d.inputTokens, d.outputTokens, extras.engine,
                              extras.usage, extras.native)
    ensures Served.AllSound(q.questions, d.readings)
    ensures |q.questions| == |d.readings| && forall i :: 0 <= i < |q.questions| ==> Wire.Fit(q.questions[i], d.readings[i])
    ensures var body := Wire.Rendered(Wire.Payload(extras.model, q.questions, d.readings, d.inputTokens, d.outputTokens,
                                                   extras.engine, extras.usage, extras.native), "typesafe");
            && body.Success? && Wire.Conforms(body.value, Served.AskedOf(q.questions))
            && Wire.Runs(floats, body.value, Served.AskedOf(q.questions))
  {
    hide Wire.Fit, Answerable, Wire.Rendered, Wire.Payload, Wire.Conforms, Wire.Runs;
  }

  lemma IsPublished(m: Maths, net: Net, q: Request, p: Prompt, host: Host, extras: Extras, heads: seq<seq<Token>>,
                    readings: seq<Wire.Reading>, body: Json)
    requires Settled(q.options) && Prepared(m, p.asks, SetupFor(q, host))
    requires AllIndependent(m, net, p.prefix, p.asks, SetupFor(q, host), heads, readings) && Served.AllSound(q.questions, readings)
    requires |q.questions| == |readings| && forall i :: 0 <= i < |q.questions| ==> Wire.Fit(q.questions[i], readings[i])
    requires Wire.Rendered(Wire.Payload(extras.model, q.questions, readings, |p.prefix| + SuffixTokens(p.asks),
                                        OutputTokens(p.asks, SetupFor(q, host).single), extras.engine, extras.usage, extras.native),
                           q.format) == Success(body)
    ensures Publishes(m, net, q, p, host, extras, body)
  {
    hide AllIndependent, Served.AllSound, Wire.Rendered, Wire.Payload, Prepared, Wire.Fit, SetupFor, OutputTokens, SuffixTokens;
  }

  /** What is published says, under every question's own name, what independent contexts give it. */
  lemma PublishedSays(m: Maths, net: Net, q: Request, p: Prompt, host: Host, extras: Extras, body: Json)
    requires Valid(TABLE, q) && Publishes(m, net, q, p, host, extras, body)
    ensures Settled(q.options) && Prepared(m, p.asks, SetupFor(q, host))
    ensures exists heads, readings ::
              && AllIndependent(m, net, p.prefix, p.asks, SetupFor(q, host), heads, readings)
              && Answers.SaysAll(q.questions, readings, body)
              && Answers.SaysService(extras.model, |p.prefix| + SuffixTokens(p.asks),
                                     OutputTokens(p.asks, SetupFor(q, host).single), body)
  {
    hide AllIndependent, Answers.SaysAll, Answers.SaysService, Wire.Payload, Wire.Rendered, Prepared, SetupFor, Settled, Valid,
         OutputTokens, SuffixTokens, Wire.Fit, Answerable, Rounding.Sum;
    var heads, readings :|
      && AllIndependent(m, net, p.prefix, p.asks, SetupFor(q, host), heads, readings)
      && Served.AllSound(q.questions, readings)
      && Wire.Rendered(Wire.Payload(extras.model, q.questions, readings, |p.prefix| + SuffixTokens(p.asks),
                                    OutputTokens(p.asks, SetupFor(q, host).single), extras.engine, extras.usage, extras.native),
                       q.format) == Success(body);
    ValidMeans(q);
    assert forall i :: 0 <= i < |q.questions| ==> Wire.Fit(q.questions[i], readings[i]);
    Answers.RenderedSays(extras.model, q.questions, readings, |p.prefix| + SuffixTokens(p.asks),
                         OutputTokens(p.asks, SetupFor(q, host).single), extras.engine, extras.usage, extras.native, q.format);
  }
}
