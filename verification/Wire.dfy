/** The served response and the client's judgement of it. */
module Wire {
  import opened Documents
  import opened Rounding
  import opened Schema
  import opened Text
  import opened Wrappers

  // ---------------------------------------------------------------- the engine's answers

  /** What the readout of one question measured, a probability for each candidate. */
  datatype Reading = Reading(
    probabilities: seq<real>, confidence: real, coverage: real, reliability: string, cue: Json, steps: nat,
    advance: Option<Json>)

  /** Σ i·pᵢ from level `i` on. */
  function MeanFrom(ps: seq<real>, i: nat): real {
    if ps == [] then 0.0 else i as real * ps[0] + MeanFrom(ps[1..], i + 1)
  }

  /** `score_weighted_mean`: at wire precision already. */
  function WeightedMean(ps: seq<real>): real {
    RoundSig(MeanFrom(ps, 0))
  }

  /** `argmax_first`: the lowest index wins a tie. */
  function FirstArgmax(ps: seq<real>): (k: nat)
    requires ps != []
    ensures k < |ps|
    ensures forall i :: 0 <= i < |ps| ==> ps[i] <= ps[k]
    ensures forall i :: 0 <= i < k ==> ps[i] < ps[k]
  {
    if |ps| == 1 then 0
    else
      var k := FirstArgmax(ps[..|ps| - 1]);
      if ps[|ps| - 1] > ps[k] then |ps| - 1 else k
  }

  function Pairs(keys: seq<string>, ps: seq<real>): (fields: Fields)
    requires |keys| == |ps|
    ensures |fields| == |keys|
  {
    seq(|keys|, i requires 0 <= i < |keys| => Field(keys[i], Num(ps[i])))
  }

  /** The described candidates, each with its description. */
  function Legend(c: Candidates): Fields
    requires |c.keys| == |c.descriptions|
    decreases |c.keys|
  {
    if c.keys == [] then []
    else
      (if c.descriptions[0].Some? then [Field(c.keys[0], Str(c.descriptions[0].value))] else [])
      + Legend(Candidates(c.keys[1..], c.descriptions[1..]))
  }

  predicate Fit(q: Question, r: Reading) {
    |r.probabilities| == |q.candidates.keys| == |q.candidates.descriptions|
    && (q.kind.Noul? ==> q.candidates.keys == ["yes", "no"])
    && (q.kind.Choice? ==> r.probabilities != [])
  }

  /** The typed part of an answer: the fields both forms of the response carry. */
  function Head(q: Question, r: Reading): Fields
    requires Fit(q, r)
  {
    var keys := q.candidates.keys;
    var ps := Field("probabilities", Obj(Pairs(keys, r.probabilities)));
    var confidence := Field("confidence", Num(r.confidence));
    match q.kind
    case Choice => [Field("type", Str("choice")), Field("choice", Str(keys[FirstArgmax(r.probabilities)])), ps, confidence]
    case Score =>
      [Field("type", Str("score")), Field("score", Num(WeightedMean(r.probabilities))), ps, confidence,
       Field("legend", Obj(Legend(q.candidates)))]
    case Noul => [Field("type", Str("noul")), Field("noul", Num(r.probabilities[0])), ps]
  }

  /** What only the native form carries; a choice's legend among it. */
  function Tail(q: Question, r: Reading): Fields
    requires Fit(q, r)
  {
    var legend := Legend(q.candidates);
    [Field("coverage", Num(r.coverage)), Field("reliability", Str(r.reliability)), Field("cue", r.cue),
     Field("decode_steps", Int(r.steps))]
    + (if q.kind.Choice? && legend != [] then [Field("legend", Obj(legend))] else [])
    + (if r.advance.Some? then [Field("advance", r.advance.value)] else [])
  }

  /** The answer the engine publishes for one question, its fields in the order they are set. */
  function AnswerFields(q: Question, r: Reading): Fields
    requires Fit(q, r)
  {
    Head(q, r) + Tail(q, r)
  }

  /** One answered question for each question asked, in the order asked. */
  function AnswersField(questions: seq<Question>, readings: seq<Reading>): (fields: Fields)
    requires |questions| == |readings|
    requires forall i :: 0 <= i < |questions| ==> Fit(questions[i], readings[i])
    ensures |fields| == |questions|
  {
    seq(|questions|, i requires 0 <= i < |questions| => Field(questions[i].id, Obj(AnswerFields(questions[i], readings[i]))))
  }

  /** `DecideResult.payload`: the native body before rounding, with the keys only the native form carries. */
  function Payload(model: string, questions: seq<Question>, readings: seq<Reading>, input: nat, output: nat,
                   engine: Json, usage: Fields, native: Fields): Fields
    requires |questions| == |readings|
    requires forall i :: 0 <= i < |questions| ==> Fit(questions[i], readings[i])
  {
    [Field("model", Str(model)), Field("engine", engine), Field("answers", Obj(AnswersField(questions, readings))),
     Field("usage", Obj([Field("input_tokens", Int(input)), Field("output_tokens", Int(output))] + usage))] + native
  }

  // ---------------------------------------------------------------- rendering

  datatype Stop = BadFormat | MissingKey

  /** One answer of the adapter's body: no native-only key, the legend for `score` alone. */
  function Project(answer: Json): Option<Json> {
    if !answer.Obj? then None
    else
      var fields := answer.fields;
      var kind := KindOf(Get(fields, "type"));
      if kind.None? || KindName(kind.value) !in KeySet(fields) || "probabilities" !in KeySet(fields) then None
      else
        var name := KindName(kind.value);
        Some(Obj(
          [Field("type", Str(name)), Field(name, Get(fields, name)), Field("probabilities", Get(fields, "probabilities"))]
          + (if "confidence" in KeySet(fields) then [Field("confidence", Get(fields, "confidence"))] else [])
          + (if kind.value.Score? && "legend" in KeySet(fields) then [Field("legend", Get(fields, "legend"))] else [])))
  }

  predicate Projects(answers: Fields) {
    forall i :: 0 <= i < |answers| ==> Project(answers[i].value).Some?
  }

  function ProjectAll(answers: Fields): Fields
    requires Projects(answers)
  {
    seq(|answers|, i requires 0 <= i < |answers| => Field(answers[i].key, Project(answers[i].value).value))
  }

  function Count(usage: Fields, key: string): Json {
    if key in KeySet(usage) then Get(usage, key) else Int(0)
  }

  function Rounded(result: Fields): (fields: Fields)
    ensures Obj(fields) == RoundTree(Obj(result))
  {
    RoundTree(Obj(result)).fields
  }

  /** `render_response`: the rounded body, or its projection for the adapter. */
  function Rendered(result: Fields, format: string): Result<Json, Stop> {
    if format != "native" && format != "typesafe" then Failure(BadFormat)
    else
      var rounded := Rounded(result);
      if format == "native" then Success(Obj(rounded))
      else
        var answers := Get(rounded, "answers");
        var usage := if "usage" in KeySet(rounded) then Get(rounded, "usage") else Obj([]);
        if !answers.Obj? || !Projects(answers.fields) || !usage.Obj? || "model" !in KeySet(rounded) then
          Failure(MissingKey)
        else
          Success(Obj([Field("model", Get(rounded, "model")),
                       Field("answers", Obj(ProjectAll(answers.fields))),
                       Field("usage", Obj([Field("input_tokens", Count(usage.fields, "input_tokens")),
                                           Field("output_tokens", Count(usage.fields, "output_tokens"))]))]))
  }

  /** The loop over the rounded answers, one projection added at a time. */
  method ProjectAnswers(answers: Fields) returns (r: Option<Fields>)
    ensures r == if Projects(answers) then Some(ProjectAll(answers)) else None
  {
    hide Project;
    var projected: Fields := [];
    for i := 0 to |answers|
      invariant |projected| == i
      invariant forall j :: 0 <= j < i ==> Project(answers[j].value).Some?
      invariant forall j :: 0 <= j < i ==> projected[j] == Field(answers[j].key, Project(answers[j].value).value)
    {
      var answer := Project(answers[i].value);
      if answer.None? {
        return None;
      }
      projected := projected + [Field(answers[i].key, answer.value)];
    }
    assert Projects(answers) && projected == ProjectAll(answers);
    return Some(projected);
  }

  /** A document whose floats are all at wire precision. */
  predicate Settled(v: Json) {
    RoundTree(v) == v
  }

  lemma SettledGet(fields: Fields, key: string)
    requires Settled(Obj(fields))
    ensures Settled(Get(fields, key))
  {
    RoundedGet(fields, key);
    hide RoundTree, Get;
  }

  lemma SettledFields(fields: Fields)
    ensures Settled(Obj(fields)) <==> forall i :: 0 <= i < |fields| ==> Settled(fields[i].value)
  {
    var rounded := RoundTree(Obj(fields)).fields;
    if forall i :: 0 <= i < |fields| ==> Settled(fields[i].value) {
      assert forall i :: 0 <= i < |fields| ==> rounded[i] == fields[i];
    } else {
      var i :| 0 <= i < |fields| && !Settled(fields[i].value);
      assert rounded[i].value != fields[i].value;
    }
  }

  /** The field's value is the answer's type or a value of the answer. */
  ghost predicate OfAnswer(answer: Fields, kind: Kind, field: Field) {
    || field.value == Str(KindName(kind)) || field.value == Get(answer, KindName(kind))
    || field.value == Get(answer, "probabilities") || field.value == Get(answer, "confidence")
    || field.value == Get(answer, "legend")
  }

  lemma OneOfAnswer(answer: Fields, kind: Kind)
    ensures OfAnswer(answer, kind, Field("type", Str(KindName(kind))))
    ensures OfAnswer(answer, kind, Field(KindName(kind), Get(answer, KindName(kind))))
    ensures OfAnswer(answer, kind, Field("probabilities", Get(answer, "probabilities")))
    ensures OfAnswer(answer, kind, Field("confidence", Get(answer, "confidence")))
    ensures OfAnswer(answer, kind, Field("legend", Get(answer, "legend")))
  {
    hide Get, KindName;
  }

  /** A projection holds the answer's type and values of the answer. */
  lemma ProjectedFrom(answer: Json)
    requires Project(answer).Some?
    ensures answer.Obj? && Project(answer).value.Obj? && KindOf(Get(answer.fields, "type")).Some?
    ensures forall field <- Project(answer).value.fields ::
              OfAnswer(answer.fields, KindOf(Get(answer.fields, "type")).value, field)
  {
    var f := answer.fields;
    var kind := KindOf(Get(f, "type")).value;
    OneOfAnswer(f, kind);
    hide Get, KeySet, KindName, KindOf, OfAnswer;
    var name := KindName(kind);
    var all := [Field("type", Str(name)), Field(name, Get(f, name)), Field("probabilities", Get(f, "probabilities"))];
    var confidence := if "confidence" in KeySet(f) then [Field("confidence", Get(f, "confidence"))] else [];
    var legend := if kind.Score? && "legend" in KeySet(f) then [Field("legend", Get(f, "legend"))] else [];
    assert Project(answer).value.fields == all + confidence + legend;
    hide Project;
    forall field | field in all + confidence + legend ensures OfAnswer(f, kind, field) {
      assert field in all || field in confidence || field in legend;
    }
  }

  lemma SettledProject(answer: Json)
    requires Settled(answer) && Project(answer).Some?
    ensures Settled(Project(answer).value)
  {
    ProjectedFrom(answer);
    var fields := Project(answer).value.fields;
    var kind := KindOf(Get(answer.fields, "type")).value;
    assert Settled(Str(KindName(kind)));
    hide Project, Get, Settled, KindName, KindOf;
    SettledGet(answer.fields, KindName(kind));
    SettledGet(answer.fields, "probabilities");
    SettledGet(answer.fields, "confidence");
    SettledGet(answer.fields, "legend");
    forall i | 0 <= i < |fields| ensures Settled(fields[i].value) {
      assert fields[i] in fields && OfAnswer(answer.fields, kind, fields[i]);
    }
    SettledFields(fields);
  }

  lemma SettledCount(usage: Fields, key: string)
    requires Settled(Obj(usage))
    ensures Settled(Count(usage, key))
  {
    SettledGet(usage, key);
    hide Get, KeySet;
  }

  lemma SettledProjections(answers: Fields)
    requires Settled(Obj(answers)) && Projects(answers)
    ensures Settled(Obj(ProjectAll(answers)))
  {
    SettledFields(answers);
    hide Settled, Project;
    forall i | 0 <= i < |answers| ensures Settled(ProjectAll(answers)[i].value) {
      SettledProject(answers[i].value);
    }
    SettledFields(ProjectAll(answers));
  }

  /** Whatever is sent is at wire precision, and the adapter's body has the service's three keys. */
  lemma RenderedIsSettled(result: Fields, format: string)
    requires Rendered(result, format).Success?
    ensures Settled(Rendered(result, format).value)
    ensures format == "typesafe" ==>
              Rendered(result, format).value.Obj? && KeySet(Rendered(result, format).value.fields) == SERVICE_KEYS
  {
    var rounded := Rounded(result);
    RoundTreeIdempotent(Obj(result));
    assert Settled(Obj(rounded));
    if format == "typesafe" {
      var answers, usage := Get(rounded, "answers"), if "usage" in KeySet(rounded) then Get(rounded, "usage") else Obj([]);
      SettledFields([]);
      SettledGet(rounded, "answers");
      SettledGet(rounded, "usage");
      SettledGet(rounded, "model");
      hide Settled, Get, RoundTree, Rounded, Count, ProjectAll, Projects, KeySet;
      SettledProjections(answers.fields);
      SettledCount(usage.fields, "input_tokens");
      SettledCount(usage.fields, "output_tokens");
      SettledService(Get(rounded, "model"), Obj(ProjectAll(answers.fields)), Count(usage.fields, "input_tokens"),
                     Count(usage.fields, "output_tokens"));
    }
  }

  lemma SettledService(model: Json, answers: Json, input: Json, output: Json)
    requires Settled(model) && Settled(answers) && Settled(input) && Settled(output)
    ensures var body := [Field("model", model), Field("answers", answers),
                         Field("usage", Obj([Field("input_tokens", input), Field("output_tokens", output)]))];
            Settled(Obj(body)) && KeySet(body) == SERVICE_KEYS
  {
    var counts := [Field("input_tokens", input), Field("output_tokens", output)];
    var body := [Field("model", model), Field("answers", answers), Field("usage", Obj(counts))];
    hide Settled;
    SettledFields(counts);
    SettledFields(body);
    assert body[0].key == "model" && body[1].key == "answers" && body[2].key == "usage";
  }

  /** The rendered body. It is at wire precision, rendering its native form again gives it back, and the
      adapter's body is a projection of the native one with the service's three keys. */
  method RenderResponse(result: Fields, format: string) returns (r: Result<Json, Stop>)
    ensures r == Rendered(result, format)
    ensures r.Success? ==> Settled(r.value)
    ensures format == "native" ==> r.Success? && r.value.Obj? && Rendered(r.value.fields, "native") == r
    ensures r == Rendered(Rendered(result, "native").value.fields, format)
    ensures r.Success? && format == "typesafe" ==> r.value.Obj? && KeySet(r.value.fields) == SERVICE_KEYS
  {
    NativeAgain(result, format);
    if Rendered(result, format).Success? {
      RenderedIsSettled(result, format);
    }
    hide RoundTree, Get, KeySet, Projects, ProjectAll, Settled;
    if format != "native" && format != "typesafe" {
      return Failure(BadFormat);
    }
    var rounded := Rounded(result);
    if format == "native" {
      return Success(Obj(rounded));
    }
    var answers := Get(rounded, "answers");
    if !answers.Obj? {
      return Failure(MissingKey);
    }
    var projected := ProjectAnswers(answers.fields);
    var usage := if "usage" in KeySet(rounded) then Get(rounded, "usage") else Obj([]);
    if projected.None? || !usage.Obj? || "model" !in KeySet(rounded) {
      return Failure(MissingKey);
    }
    return Success(Obj([Field("model", Get(rounded, "model")),
                        Field("answers", Obj(projected.value)),
                        Field("usage", Obj([Field("input_tokens", Count(usage.fields, "input_tokens")),
                                            Field("output_tokens", Count(usage.fields, "output_tokens"))]))]));
  }

  /** Rendering the native body again, in either form, is rendering the result itself. */
  lemma {:induction false} NativeAgain(result: Fields, format: string)
    ensures Rendered(Rendered(result, "native").value.fields, format) == Rendered(result, format)
  {
    RoundTreeIdempotent(Obj(result));
    assert Rounded(Rounded(result)) == Rounded(result);
    hide Rounded, Get, Project, Projects, ProjectAll, Count, KeySet;
  }

  // ---------------------------------------------------------------- the client's judgement

  const SERVICE_KEYS := {"model", "answers", "usage"}
  const USAGE_KEYS := {"input_tokens", "output_tokens"}
  const TOLERANCE := 0.00001

  function AnswerKeys(kind: Kind): set<string> {
    match kind
    case Noul => {"type", "noul"}
    case Choice => {"type", "choice", "confidence", "probabilities"}
    case Score => {"type", "score", "confidence", "legend", "probabilities"}
  }

  function Tolerated(kind: Kind): set<string> {
    if kind.Noul? then {"probabilities"} else {}
  }

  predicate Probability(v: Json) {
    IsNumber(v) && 0.0 <= NumberOf(v) <= 1.0
  }

  /** The sum of the numbers among the values. */
  function Total(fields: Fields): real {
    if fields == [] then 0.0
    else (if IsNumber(fields[0].value) then NumberOf(fields[0].value) else 0.0) + Total(fields[1..])
  }

  ghost predicate Distribution(v: Json) {
    && v.Obj? && v.fields != []
    && (forall i :: 0 <= i < |v.fields| ==> Probability(v.fields[i].value))
    && -TOLERANCE <= Total(v.fields) - 1.0 <= TOLERANCE
  }

  /** The name is one of the labels whose probability no other exceeds. */
  ghost predicate Winner(name: Json, fields: Fields)
    requires forall i :: 0 <= i < |fields| ==> IsNumber(fields[i].value)
  {
    && name.Str? && name.text != ""
    && exists i :: 0 <= i < |fields| && fields[i].key == name.text
                   && forall j :: 0 <= j < |fields| ==> NumberOf(fields[j].value) <= NumberOf(fields[i].value)
  }

  function Levels(n: nat): set<string> {
    set i | 0 <= i < n :: Digits(i)
  }

  ghost predicate AnswerConforms(kind: Kind, a: Fields) {
    && AnswerKeys(kind) <= KeySet(a) <= AnswerKeys(kind) + Tolerated(kind)
    && Get(a, "type") == Str(KindName(kind))
    && var ps := Get(a, "probabilities");
       match kind
       case Noul =>
         && Probability(Get(a, "noul"))
         && (ps.Null? || (Distribution(ps) && KeySet(ps.fields) == {"yes", "no"}))
       case Choice =>
         && Distribution(ps) && Winner(Get(a, "choice"), ps.fields) && Probability(Get(a, "confidence"))
       case Score =>
         && Distribution(ps) && Probability(Get(a, "confidence")) && ScoreConforms(Get(a, "score"), Get(a, "legend"))
  }

  predicate ScoreConforms(score: Json, legend: Json) {
    && legend.Obj? && legend.fields != [] && KeySet(legend.fields) == Levels(|legend.fields|)
    && IsNumber(score) && 0.0 <= NumberOf(score) <= (|legend.fields| - 1) as real
  }

  predicate UsageConforms(v: Json) {
    && v.Obj? && KeySet(v.fields) == USAGE_KEYS
    && (forall i :: 0 <= i < |v.fields| ==> v.fields[i].value.Int? && v.fields[i].value.whole >= 0)
    && Get(v.fields, "input_tokens") != Int(0)
  }

  datatype Asked = Asked(id: string, kind: Kind)

  function AskedIds(expected: seq<Asked>): set<string> {
    set i | 0 <= i < |expected| :: expected[i].id
  }

  /** The body is what a well-behaved service sends for these questions. */
  ghost predicate Conforms(payload: Json, expected: seq<Asked>) {
    && payload.Obj? && KeySet(payload.fields) == SERVICE_KEYS
    && Get(payload.fields, "model").Str? && Get(payload.fields, "model").text != ""
    && UsageConforms(Get(payload.fields, "usage"))
    && var answers := Get(payload.fields, "answers");
       && answers.Obj? && KeySet(answers.fields) == AskedIds(expected)
       && forall i :: 0 <= i < |expected| ==> ConformsAt(answers.fields, expected[i])
  }

  /** The question has an answer, and it is a conforming one. */
  ghost predicate ConformsAt(answers: Fields, asked: Asked) {
    Get(answers, asked.id).Obj? && AnswerConforms(asked.kind, Get(answers, asked.id).fields)
  }

  /** What the client reports, in the order it finds it. */
  datatype Problem =
    | BodyNotObject
    | TopLevelKeys
    | NoModel
    | UsageShape
    | UsageValue(key: string)
    | NoInput
    | AnswersNotObject
    | AnswerIds
    | NoAnswer(id: string)
    | MissingKeys(id: string)
    | UnexpectedKeys(id: string)
    | WrongType(id: string)
    | NotProbability(id: string, what: string)
    | NoDistribution(id: string)
    | BadSum(id: string)
    | NoulConfidence(id: string)
    | NoulLabels(id: string)
    | NoChoice(id: string)
    | ChoiceNotListed(id: string)
    | ChoiceNotArgmax(id: string)
    | NoLegend(id: string)
    | LegendKeys(id: string)
    | ScoreRange(id: string)

  /** The client itself stops with an exception on such an answer. */
  datatype Crash = Crash

  /** What `float()` makes of a string, where it parses one. */
  type Floats = string -> Option<Json>

  /** `float(value)`: a number or a special one; booleans count, strings are parsed. */
  function FloatOf(floats: Floats, v: Json): Option<Json> {
    if Overflows(v) then None
    else if IsNumber(v) then Some(Num(NumberOf(v)))
    else if v.NotFinite? then Some(v)
    else if v.Flag? then Some(Num(if v.flag then 1.0 else 0.0))
    else if v.Str? then floats(v.text)
    else None
  }

  /** `a > b` of two floats. */
  predicate Greater(a: Json, b: Json) {
    if a.Num? && b.Num? then a.num > b.num
    else if a == NotFinite(NaN) || b == NotFinite(NaN) then false
    else a != b && (a == NotFinite(Infinity) || b == NotFinite(MinusInfinity))
  }

  /** `a == b` of two floats. */
  predicate SameFloat(a: Json, b: Json) {
    a == b && a != NotFinite(NaN)
  }

  /** `a + b` of two floats. */
  function Plus(a: Json, b: Json): Json {
    if a.Num? && b.Num? then Num(a.num + b.num)
    else if a == NotFinite(NaN) || b == NotFinite(NaN) then NotFinite(NaN)
    else if a.NotFinite? && b.NotFinite? && a != b then NotFinite(NaN)
    else if a.NotFinite? then a
    else b
  }

  /** The argmax check converts every probability, whatever was reported about it before. */
  ghost predicate CrashesOn(floats: Floats, ps: Fields, choice: Json) {
    && choice.Str? && choice.text != ""
    && ((forall i :: 0 <= i < |ps| ==> !IsNumeric(ps[i].value))
        || exists i :: 0 <= i < |ps| && FloatOf(floats, ps[i].value).None?)
  }

  ghost predicate SomeOverflow(ps: Fields) {
    exists i :: 0 <= i < |ps| && Overflows(ps[i].value)
  }

  /** The judgement of one answer ends in an exception: some number on its way is too large for `float()`, or
      the argmax check meets no number or something `float()` does not take. */
  ghost predicate Crashes(floats: Floats, kind: Kind, a: Fields) {
    var ps := Get(a, "probabilities");
    if kind.Noul? && ps.Null? then Overflows(Get(a, "noul"))
    else
      && ps.Obj? && ps.fields != []
      && (SomeOverflow(ps.fields)
          || match kind
             case Noul => Overflows(Get(a, "noul"))
             case Choice => CrashesOn(floats, ps.fields, Get(a, "choice")) || Overflows(Get(a, "confidence"))
             case Score => ScoreCrashes(Get(a, "score"), Get(a, "legend")) || Overflows(Get(a, "confidence")))
  }

  predicate ScoreCrashes(score: Json, legend: Json) {
    legend.Obj? && legend.fields != [] && Overflows(score)
  }

  function Check(ok: bool, problem: Problem): (problems: seq<Problem>)
    ensures problems == [] <==> ok
  {
    if ok then [] else [problem]
  }

  /** `0.0 <= float(value) <= 1.0` of a number. */
  function VerifyProbability(v: Json, problem: Problem): (r: Result<seq<Problem>, Crash>)
    ensures r.Failure? <==> Overflows(v)
    ensures r.Success? ==> (r.value == [] <==> Probability(v)) && r.value == Check(Probability(v), problem)
  {
    if Overflows(v) then Failure(Crash) else Success(Check(Probability(v), problem))
  }

  /** `abs(total - 1.0) > PROBABILITY_SUM_TOLERANCE`, which no NaN is. */
  predicate FarFromOne(total: Json) {
    if total.Num? then total.num - 1.0 > TOLERANCE || 1.0 - total.num > TOLERANCE else total != NotFinite(NaN)
  }

  /** The sum as it is added up, special floats and all. */
  function FloatSum(fields: Fields): Json {
    if fields == [] then Num(0.0)
    else
      var n := |fields| - 1;
      var before, v := FloatSum(fields[..n]), fields[n].value;
      if IsNumber(v) then Plus(before, Num(NumberOf(v))) else if v.NotFinite? then Plus(before, v) else before
  }

  /** One of the first `n` values is reported. */
  ghost predicate NoShare(id: string, fields: Fields, n: nat, p: Problem)
    requires n <= |fields|
  {
    exists i :: 0 <= i < n && !Probability(fields[i].value) && p == NotProbability(id, fields[i].key)
  }

  /** What is reported of a distribution: each value that is no probability under its label, and a sum off one. */
  ghost predicate ShareProblem(id: string, fields: Fields, p: Problem) {
    NoShare(id, fields, |fields|, p) || (p == BadSum(id) && FarFromOne(FloatSum(fields)))
  }

  /** The values of the first `n` that are no probabilities, in order. */
  function NoShares(id: string, fields: Fields, n: nat): seq<Problem>
    requires n <= |fields|
  {
    if n == 0 then []
    else NoShares(id, fields, n - 1) + Check(Probability(fields[n - 1].value), NotProbability(id, fields[n - 1].key))
  }

  lemma NoSharesAre(id: string, fields: Fields, n: nat)
    requires n <= |fields|
    ensures forall p :: p in NoShares(id, fields, n) <==> NoShare(id, fields, n, p)
    ensures NoShares(id, fields, n) == [] <==> forall i :: 0 <= i < n ==> Probability(fields[i].value)
  {
    hide *;
    forall p ensures p in NoShares(id, fields, n) <==> NoShare(id, fields, n, p) {
      NoSharesHave(id, fields, n, p);
    }
    NoSharesEmpty(id, fields, n);
  }

  lemma {:induction false} NoSharesHave(id: string, fields: Fields, n: nat, p: Problem)
    requires n <= |fields|
    ensures p in NoShares(id, fields, n) <==> NoShare(id, fields, n, p)
  {
    if n > 0 {
      hide *;
      NoSharesHave(id, fields, n - 1, p);
      NoSharesLast(id, fields, n);
      NoShareStep(id, fields, n - 1, p);
    }
  }

  lemma {:induction false} NoSharesEmpty(id: string, fields: Fields, n: nat)
    requires n <= |fields|
    ensures NoShares(id, fields, n) == [] <==> forall i :: 0 <= i < n ==> Probability(fields[i].value)
  {
    if n > 0 {
      hide *;
      NoSharesEmpty(id, fields, n - 1);
      NoSharesLast(id, fields, n);
      assert NoShares(id, fields, n) == [] <==> NoShares(id, fields, n - 1) == [] && Probability(fields[n - 1].value);
    }
  }

  lemma NoSharesLast(id: string, fields: Fields, n: nat)
    requires 0 < n <= |fields|
    ensures var before, v := NoShares(id, fields, n - 1), fields[n - 1];
            NoShares(id, fields, n) == if Probability(v.value) then before else before + [NotProbability(id, v.key)]
  {
    hide Probability;
  }

  lemma NoShareStep(id: string, fields: Fields, n: nat, p: Problem)
    requires n < |fields|
    ensures NoShare(id, fields, n + 1, p) <==>
              NoShare(id, fields, n, p) || (!Probability(fields[n].value) && p == NotProbability(id, fields[n].key))
  {
    hide Probability;
  }

  /** One value more in the sum. */
  function Added(total: Json, v: Json): Json {
    if IsNumber(v) then Plus(total, Num(NumberOf(v))) else if v.NotFinite? then Plus(total, v) else total
  }

  lemma FloatSumStep(fields: Fields, n: nat)
    requires n < |fields|
    ensures FloatSum(fields[..n + 1]) == Added(FloatSum(fields[..n]), fields[n].value)
  {
    assert fields[..n + 1][..n] == fields[..n];
  }

  lemma {:induction false} FiniteSum(fields: Fields, n: nat)
    requires n <= |fields| && forall i :: 0 <= i < n ==> IsNumber(fields[i].value)
    ensures FloatSum(fields[..n]).Num?
    ensures FloatSum(fields[..n]).num + Total(fields[n..]) == Total(fields)
  {
    if n == 0 {
      assert fields[0..] == fields && fields[..0] == [];
    } else {
      FiniteSum(fields, n - 1);
      FloatSumStep(fields, n - 1);
      assert fields[n - 1..][1..] == fields[n..];
      hide FloatSum;
    }
  }

  /** Nothing is reported exactly of a distribution. */
  lemma SharesConform(fields: Fields)
    requires fields != []
    ensures Distribution(Obj(fields)) <==>
              (forall i :: 0 <= i < |fields| ==> Probability(fields[i].value)) && !FarFromOne(FloatSum(fields))
  {
    if forall i :: 0 <= i < |fields| ==> Probability(fields[i].value) {
      FiniteSum(fields, |fields|);
      assert fields[..|fields|] == fields && fields[|fields|..] == [];
    }
    hide FloatSum, Total, Probability;
    assert Total([]) == 0.0 by {
      NoTotal();
    }
  }

  lemma NoTotal()
    ensures Total([]) == 0.0
  {
  }

  /** The loop over the values. */
  method VerifyValues(id: string, fields: Fields) returns (r: Result<seq<Problem>, Crash>)
    ensures r.Failure? <==> SomeOverflow(fields)
    ensures r.Success? ==> r.value == NoShares(id, fields, |fields|)
  {
    hide Probability, Overflows;
    var problems: seq<Problem> := [];
    for i := 0 to |fields|
      invariant forall j :: 0 <= j < i ==> !Overflows(fields[j].value)
      invariant problems == NoShares(id, fields, i)
    {
      var found :- VerifyProbability(fields[i].value, NotProbability(id, fields[i].key));
      problems := problems + found;
    }
    return Success(problems);
  }

  /** The loop of `sum`, over the values that are numbers. */
  method SumValues(fields: Fields) returns (total: Json)
    ensures total == FloatSum(fields)
  {
    hide FloatSum, Plus;
    total := Num(0.0);
    NoFloatSum();
    for i := 0 to |fields|
      invariant total == FloatSum(fields[..i])
    {
      FloatSumStep(fields, i);
      if IsNumber(fields[i].value) {
        total := Plus(total, Num(NumberOf(fields[i].value)));
      } else if fields[i].value.NotFinite? {
        total := Plus(total, fields[i].value);
      }
    }
    assert fields[..|fields|] == fields;
  }

  lemma NoFloatSum()
    ensures FloatSum([]) == Num(0.0)
  {
  }

  /** The values one by one, and their sum. */
  method VerifyDistribution(id: string, fields: Fields) returns (r: Result<seq<Problem>, Crash>)
    requires fields != []
    ensures r.Failure? <==> SomeOverflow(fields)
    ensures r.Success? ==> (r.value == [] <==> Distribution(Obj(fields)))
    ensures r.Success? ==> forall p :: p in r.value <==> ShareProblem(id, fields, p)
  {
    hide Probability, Overflows, FloatSum, NoShare, NoShares, ShareProblem, SomeOverflow, FarFromOne, Distribution, Check;
    var values :- VerifyValues(id, fields);
    var total := SumValues(fields);
    SharesConform(fields);
    NoSharesAre(id, fields, |fields|);
    AllShares(id, fields, values, total);
    return Success(values + Check(!FarFromOne(total), BadSum(id)));
  }

  lemma AllShares(id: string, fields: Fields, problems: seq<Problem>, total: Json)
    requires total == FloatSum(fields) && forall p :: p in problems <==> NoShare(id, fields, |fields|, p)
    ensures forall p :: p in problems + Check(!FarFromOne(total), BadSum(id)) <==> ShareProblem(id, fields, p)
    ensures problems + Check(!FarFromOne(total), BadSum(id)) == [] <==> problems == [] && !FarFromOne(total)
  {
    hide FloatSum, NoShare, FarFromOne;
  }

  predicate Equals(value: Option<Json>, best: Json) {
    value.Some? && SameFloat(value.value, best)
  }

  /** `max` of the numbers among the values, as floats are compared. */
  function Best(fields: Fields): Option<Json> {
    if fields == [] then None
    else
      var n := |fields| - 1;
      var before, v := Best(fields[..n]), fields[n].value;
      if !IsNumeric(v) then before
      else
        var number := if v.NotFinite? then v else Num(NumberOf(v));
        if before.None? || Greater(number, before.value) then Some(number) else before
  }

  ghost predicate Wins(floats: Floats, fields: Fields, n: nat, name: string)
    requires n <= |fields|
  {
    Best(fields).Some? && exists i :: 0 <= i < n && fields[i].key == name && Equals(FloatOf(floats, fields[i].value), Best(fields).value)
  }

  /** What is reported of a choice: no name, a name that is not listed, a name that is no maximum. */
  ghost predicate ChoiceProblem(floats: Floats, id: string, choice: Json, fields: Fields, p: Problem) {
    if !choice.Str? || choice.text == "" then p == NoChoice(id)
    else
      || (p == ChoiceNotListed(id) && choice.text !in KeySet(fields))
      || (p == ChoiceNotArgmax(id) && !Wins(floats, fields, |fields|, choice.text))
  }

  /** The loop of `max`, over the values that are numbers. */
  method Maximum(fields: Fields) returns (best: Option<Json>)
    ensures best == Best(fields)
    ensures best.None? <==> forall i :: 0 <= i < |fields| ==> !IsNumeric(fields[i].value)
    ensures fields != [] && (forall i :: 0 <= i < |fields| ==> IsNumber(fields[i].value)) ==>
              && best.Some? && best.value.Num?
              && (forall i :: 0 <= i < |fields| ==> NumberOf(fields[i].value) <= best.value.num)
              && exists i :: 0 <= i < |fields| && NumberOf(fields[i].value) == best.value.num
  {
    best := None;
    for i := 0 to |fields|
      invariant best == Best(fields[..i])
      invariant best.None? <==> forall j :: 0 <= j < i ==> !IsNumeric(fields[j].value)
      invariant (forall j :: 0 <= j < i ==> IsNumber(fields[j].value)) && i > 0 ==>
                  && best.Some? && best.value.Num?
                  && (forall j :: 0 <= j < i ==> NumberOf(fields[j].value) <= best.value.num)
                  && exists j :: 0 <= j < i && NumberOf(fields[j].value) == best.value.num
    {
      var value := fields[i].value;
      assert fields[..i + 1][..i] == fields[..i];
      if IsNumeric(value) {
        var number := if value.NotFinite? then value else Num(NumberOf(value));
        if best.None? || Greater(number, best.value) {
          best := Some(number);
        }
      }
    }
    assert fields[..|fields|] == fields;
  }

  /** The label must be listed and none may exceed it. */
  method VerifyChoice(floats: Floats, id: string, choice: Json, fields: Fields)
    returns (r: Result<seq<Problem>, Crash>)
    requires fields != []
    ensures r.Failure? <==> CrashesOn(floats, fields, choice)
    ensures r.Success? && (forall i :: 0 <= i < |fields| ==> IsNumber(fields[i].value)) ==>
              (r.value == [] <==> Winner(choice, fields))
    ensures r.Success? ==> forall p :: p in r.value <==> ChoiceProblem(floats, id, choice, fields, p)
  {
    hide Best, KeySet;
    if !choice.Str? || choice.text == "" {
      return Success([NoChoice(id)]);
    }
    var problems := Check(choice.text in KeySet(fields), ChoiceNotListed(id));
    var best := Maximum(fields);
    if best.None? {
      return Failure(Crash);
    }
    var wins := false;
    for i := 0 to |fields|
      invariant forall j :: 0 <= j < i ==> FloatOf(floats, fields[j].value).Some?
      invariant wins <==> Wins(floats, fields, i, choice.text)
    {
      var value := FloatOf(floats, fields[i].value);
      if value.None? {
        return Failure(Crash);
      }
      wins := wins || (fields[i].key == choice.text && Equals(value, best.value));
    }
    if forall i :: 0 <= i < |fields| ==> IsNumber(fields[i].value) {
      WinsIff(floats, choice.text, fields, best.value);
    }
    return Success(problems + Check(wins, ChoiceNotArgmax(id)));
  }

  /** Among finite numbers a label wins exactly when nothing exceeds it, and a winner is listed. */
  lemma WinsIff(floats: Floats, name: string, fields: Fields, best: Json)
    requires name != "" && Best(fields) == Some(best) && best.Num?
    requires forall i :: 0 <= i < |fields| ==> IsNumber(fields[i].value) && FloatOf(floats, fields[i].value).Some?
    requires forall i :: 0 <= i < |fields| ==> NumberOf(fields[i].value) <= best.num
    requires exists i :: 0 <= i < |fields| && NumberOf(fields[i].value) == best.num
    ensures Winner(Str(name), fields) <==> Wins(floats, fields, |fields|, name)
    ensures Winner(Str(name), fields) ==> name in KeySet(fields)
  {
    hide Best;
    if Winner(Str(name), fields) {
      var i :| 0 <= i < |fields| && fields[i].key == name
               && forall j :: 0 <= j < |fields| ==> NumberOf(fields[j].value) <= NumberOf(fields[i].value);
      assert Equals(FloatOf(floats, fields[i].value), best);
    }
  }

  ghost predicate ConfidenceProblem(id: string, a: Fields, p: Problem) {
    p == NotProbability(id, "confidence") && !Probability(Get(a, "confidence"))
  }

  function VerifyConfidence(id: string, a: Fields): (r: Result<seq<Problem>, Crash>)
    ensures r.Failure? <==> Overflows(Get(a, "confidence"))
    ensures r.Success? ==> (r.value == [] <==> Probability(Get(a, "confidence")))
    ensures r.Success? ==> forall p :: p in r.value <==> ConfidenceProblem(id, a, p)
  {
    VerifyProbability(Get(a, "confidence"), NotProbability(id, "confidence"))
  }

  /** What is reported of a score: no legend, a legend of other keys than the level numbers, no number in range. */
  ghost predicate ScoreProblem(id: string, score: Json, legend: Json, p: Problem) {
    if !legend.Obj? || legend.fields == [] then p == NoLegend(id)
    else
      || (p == LegendKeys(id) && KeySet(legend.fields) != Levels(|legend.fields|))
      || (p == ScoreRange(id) && !(IsNumber(score) && 0.0 <= NumberOf(score) <= (|legend.fields| - 1) as real))
  }

  function VerifyScore(id: string, score: Json, legend: Json): (r: Result<seq<Problem>, Crash>)
    ensures r.Failure? <==> ScoreCrashes(score, legend)
    ensures r.Success? ==> (r.value == [] <==> ScoreConforms(score, legend))
    ensures r.Success? ==> forall p :: p in r.value <==> ScoreProblem(id, score, legend, p)
  {
    if !legend.Obj? || legend.fields == [] then Success([NoLegend(id)])
    else if Overflows(score) then Failure(Crash)
    else
      Success(Check(KeySet(legend.fields) == Levels(|legend.fields|), LegendKeys(id))
              + Check(IsNumber(score) && 0.0 <= NumberOf(score) <= (|legend.fields| - 1) as real, ScoreRange(id)))
  }

  /** What is reported of the keys and the type of an answer. */
  ghost predicate ShapeProblem(id: string, kind: Kind, a: Fields, p: Problem) {
    || (p == MissingKeys(id) && !(AnswerKeys(kind) <= KeySet(a)))
    || (p == UnexpectedKeys(id) && !(KeySet(a) <= AnswerKeys(kind) + Tolerated(kind)))
    || (p == WrongType(id) && Get(a, "type") != Str(KindName(kind)))
  }

  ghost predicate RateProblem(id: string, a: Fields, p: Problem) {
    p == NotProbability(id, "noul") && !Probability(Get(a, "noul"))
  }

  /** What is reported of an answer's values, which without probabilities is that there are none. */
  ghost predicate ValueProblem(floats: Floats, id: string, kind: Kind, a: Fields, p: Problem) {
    var ps := Get(a, "probabilities");
    if kind.Noul? && ps.Null? then RateProblem(id, a, p)
    else if !ps.Obj? || ps.fields == [] then p == NoDistribution(id)
    else ShareProblem(id, ps.fields, p) || TypedProblem(floats, id, kind, a, ps.fields, p)
  }

  /** What is reported of the values one type of answer has. */
  ghost predicate TypedProblem(floats: Floats, id: string, kind: Kind, a: Fields, ps: Fields, p: Problem) {
    match kind
    case Noul =>
      || RateProblem(id, a, p) || (p == NoulConfidence(id) && "confidence" in KeySet(a))
      || (p == NoulLabels(id) && KeySet(ps) != {"yes", "no"})
    case Choice => ChoiceProblem(floats, id, Get(a, "choice"), ps, p) || ConfidenceProblem(id, a, p)
    case Score => ScoreProblem(id, Get(a, "score"), Get(a, "legend"), p) || ConfidenceProblem(id, a, p)
  }

  /** What is reported of an answer: each problem for its own cause and for no other. */
  ghost predicate AnswerProblem(floats: Floats, id: string, kind: Kind, a: Fields, p: Problem) {
    ShapeProblem(id, kind, a, p) || ValueProblem(floats, id, kind, a, p)
  }

  /** What conforming asks of those values, and where judging them ends in an exception. */
  ghost predicate TypedConforms(kind: Kind, a: Fields, ps: Fields)
    requires forall i :: 0 <= i < |ps| ==> IsNumber(ps[i].value)
  {
    match kind
    case Noul => Probability(Get(a, "noul")) && "confidence" !in KeySet(a) && KeySet(ps) == {"yes", "no"}
    case Choice => Winner(Get(a, "choice"), ps) && Probability(Get(a, "confidence"))
    case Score => ScoreConforms(Get(a, "score"), Get(a, "legend")) && Probability(Get(a, "confidence"))
  }

  ghost predicate TypedCrashes(floats: Floats, kind: Kind, a: Fields, ps: Fields) {
    match kind
    case Noul => Overflows(Get(a, "noul"))
    case Choice => CrashesOn(floats, ps, Get(a, "choice")) || Overflows(Get(a, "confidence"))
    case Score => ScoreCrashes(Get(a, "score"), Get(a, "legend")) || Overflows(Get(a, "confidence"))
  }

  /** The values one type of answer has. */
  method VerifyTyped(floats: Floats, id: string, kind: Kind, a: Fields, ps: Fields)
    returns (r: Result<seq<Problem>, Crash>)
    requires ps != []
    ensures r.Failure? <==> TypedCrashes(floats, kind, a, ps)
    ensures r.Success? && (forall i :: 0 <= i < |ps| ==> IsNumber(ps[i].value)) ==> (r.value == [] <==> TypedConforms(kind, a, ps))
    ensures r.Success? ==> forall p :: p in r.value <==> TypedProblem(floats, id, kind, a, ps, p)
  {
    hide Get, KeySet, CrashesOn, Winner, ScoreConforms, Overflows, ScoreCrashes, Probability, ChoiceProblem, ScoreProblem;
    match kind
    case Noul =>
      var rate :- VerifyProbability(Get(a, "noul"), NotProbability(id, "noul"));
      return Success(rate + Check("confidence" !in KeySet(a), NoulConfidence(id))
                     + Check(KeySet(ps) == {"yes", "no"}, NoulLabels(id)));
    case Choice =>
      var winner :- VerifyChoice(floats, id, Get(a, "choice"), ps);
      var confidence :- VerifyConfidence(id, a);
      return Success(winner + confidence);
    case Score =>
      var score :- VerifyScore(id, Get(a, "score"), Get(a, "legend"));
      var confidence :- VerifyConfidence(id, a);
      return Success(score + confidence);
  }

  method VerifyAnswer(floats: Floats, id: string, kind: Kind, a: Fields)
    returns (r: Result<seq<Problem>, Crash>)
    ensures r.Failure? <==> Crashes(floats, kind, a)
    ensures r.Success? ==> (r.value == [] <==> AnswerConforms(kind, a))
    ensures r.Success? ==> forall p :: p in r.value <==> AnswerProblem(floats, id, kind, a, p)
  {
    hide Get, KeySet, CrashesOn, Winner, ScoreConforms, SomeOverflow, Overflows, ScoreCrashes, Probability,
         ShareProblem, TypedProblem;
    var keys := KeySet(a);
    var problems := Check(AnswerKeys(kind) <= keys, MissingKeys(id))
                    + Check(keys <= AnswerKeys(kind) + Tolerated(kind), UnexpectedKeys(id))
                    + Check(Get(a, "type") == Str(KindName(kind)), WrongType(id));
    var ps := Get(a, "probabilities");
    if kind.Noul? && ps.Null? {
      var rate :- VerifyProbability(Get(a, "noul"), NotProbability(id, "noul"));
      return Success(problems + rate);
    }
    if !ps.Obj? || ps.fields == [] {
      return Success(problems + [NoDistribution(id)]);
    }
    var sums :- VerifyDistribution(id, ps.fields);
    problems := problems + sums;
    NumbersOf(ps.fields);
    var typed :- VerifyTyped(floats, id, kind, a, ps.fields);
    return Success(problems + typed);
  }

  lemma NumbersOf(fields: Fields)
    ensures Distribution(Obj(fields)) ==> forall i :: 0 <= i < |fields| ==> IsNumber(fields[i].value)
  {
  }

  const GATE_QUESTIONS := [Asked("renew_style", Choice), Asked("risk", Score), Asked("escalate", Noul)]

  ghost predicate BadCount(fields: Fields, n: nat, p: Problem)
    requires n <= |fields|
  {
    exists i :: 0 <= i < n && !(fields[i].value.Int? && fields[i].value.whole >= 0) && p == UsageValue(fields[i].key)
  }

  /** What is reported of the counts: other keys, a value that is no count under its key, no input at all. */
  ghost predicate UsageProblem(usage: Json, p: Problem) {
    if !usage.Obj? || KeySet(usage.fields) != USAGE_KEYS then p == UsageShape
    else BadCount(usage.fields, |usage.fields|, p) || (p == NoInput && Falsy(Get(usage.fields, "input_tokens")))
  }

  method VerifyUsage(usage: Json) returns (problems: seq<Problem>)
    ensures problems == [] <==> UsageConforms(usage)
    ensures forall p :: p in problems <==> UsageProblem(usage, p)
  {
    if !usage.Obj? || KeySet(usage.fields) != USAGE_KEYS {
      return [UsageShape];
    }
    problems := [];
    var i := 0;
    while i < |usage.fields|
      invariant 0 <= i <= |usage.fields|
      invariant problems == [] <==>
                forall j :: 0 <= j < i ==> usage.fields[j].value.Int? && usage.fields[j].value.whole >= 0
      invariant forall p :: p in problems <==> BadCount(usage.fields, i, p)
    {
      var value := usage.fields[i].value;
      problems := problems + Check(value.Int? && value.whole >= 0, UsageValue(usage.fields[i].key));
      i := i + 1;
    }
    var input := Get(usage.fields, "input_tokens");
    problems := problems + Check(!Falsy(input), NoInput);
    assert "input_tokens" in KeySet(usage.fields);
  }

  /** Without questions the gate's own three are meant. */
  function Expected(questions: seq<Asked>): seq<Asked> {
    if questions == [] then GATE_QUESTIONS else questions
  }

  ghost predicate Reached(payload: Json) {
    payload.Obj? && Get(payload.fields, "answers").Obj?
  }

  ghost predicate CrashesAt(floats: Floats, answers: Fields, asked: Asked) {
    Get(answers, asked.id).Obj? && Crashes(floats, asked.kind, Get(answers, asked.id).fields)
  }

  /** No answer the judgement reaches ends it with an exception. */
  ghost predicate Runs(floats: Floats, payload: Json, expected: seq<Asked>) {
    Reached(payload) ==> forall q <- expected :: !CrashesAt(floats, Get(payload.fields, "answers").fields, q)
  }

  ghost predicate ProblemAt(floats: Floats, answers: Fields, asked: Asked, p: Problem) {
    if !Get(answers, asked.id).Obj? then p == NoAnswer(asked.id)
    else AnswerProblem(floats, asked.id, asked.kind, Get(answers, asked.id).fields, p)
  }

  ghost predicate ProblemBefore(floats: Floats, answers: Fields, expected: seq<Asked>, n: nat, p: Problem)
    requires n <= |expected|
  {
    exists i :: 0 <= i < n && ProblemAt(floats, answers, expected[i], p)
  }

  /** What is reported of a body: each problem for its own cause and for no other. */
  ghost predicate BodyProblem(floats: Floats, payload: Json, expected: seq<Asked>, p: Problem) {
    if !payload.Obj? then p == BodyNotObject
    else
      var model, answers := Get(payload.fields, "model"), Get(payload.fields, "answers");
      || (p == TopLevelKeys && KeySet(payload.fields) != SERVICE_KEYS)
      || (p == NoModel && !(model.Str? && model.text != ""))
      || UsageProblem(Get(payload.fields, "usage"), p)
      || (if !answers.Obj? then p == AnswersNotObject
          else
            || (p == AnswerIds && KeySet(answers.fields) != AskedIds(expected))
            || ProblemBefore(floats, answers.fields, expected, |expected|, p))
  }

  /** `verify`: an empty list exactly for a conforming body; an exception exactly where an answer causes one. */
  method Verify(floats: Floats, payload: Json, questions: seq<Asked>)
    returns (r: Result<seq<Problem>, Crash>)
    ensures r.Failure? <==> !Runs(floats, payload, Expected(questions))
    ensures r.Success? ==> (r.value == [] <==> Conforms(payload, Expected(questions)))
    ensures r.Success? ==> forall p :: p in r.value <==> BodyProblem(floats, payload, Expected(questions), p)
  {
    hide AnswerConforms, Crashes, Get, UsageConforms, KeySet, AnswerProblem, UsageProblem;
    var expected := Expected(questions);
    if !payload.Obj? {
      return Success([BodyNotObject]);
    }
    var fields := payload.fields;
    var problems := Check(KeySet(fields) == SERVICE_KEYS, TopLevelKeys);
    var model := Get(fields, "model");
    problems := problems + Check(model.Str? && model.text != "", NoModel);
    var usage := VerifyUsage(Get(fields, "usage"));
    problems := problems + usage;
    var answers := Get(fields, "answers");
    if !answers.Obj? {
      return Success(problems + [AnswersNotObject]);
    }
    problems := problems + Check(KeySet(answers.fields) == AskedIds(expected), AnswerIds);
    ghost var before := problems;
    var i := 0;
    while i < |expected|
      invariant 0 <= i <= |expected|
      invariant forall j :: 0 <= j < i ==> !CrashesAt(floats, answers.fields, expected[j])
      invariant problems == [] <==> before == [] && forall j :: 0 <= j < i ==> ConformsAt(answers.fields, expected[j])
      invariant forall p :: p in problems <==> p in before || ProblemBefore(floats, answers.fields, expected, i, p)
    {
      var answer := Get(answers.fields, expected[i].id);
      if !answer.Obj? {
        problems := problems + [NoAnswer(expected[i].id)];
      } else {
        var more := VerifyAnswer(floats, expected[i].id, expected[i].kind, answer.fields);
        if more.Failure? {
          assert expected[i] in expected && CrashesAt(floats, answers.fields, expected[i]);
          return Failure(more.error);
        }
        problems := problems + more.value;
      }
      i := i + 1;
    }
    return Success(problems);
  }

  /** A conforming answer is judged without an exception, as long as its score is no oversized integer. */
  lemma ConformingRuns(floats: Floats, kind: Kind, a: Fields)
    requires AnswerConforms(kind, a)
    requires kind.Score? ==> !Overflows(Get(a, "score"))
    ensures !Crashes(floats, kind, a)
  {
    var ps := Get(a, "probabilities");
    hide Get, KeySet, ScoreConforms;
    if ps.Obj? && Distribution(ps) {
      forall i | 0 <= i < |ps.fields| ensures IsNumber(ps.fields[i].value) && FloatOf(floats, ps.fields[i].value).Some? {
        assert Probability(ps.fields[i].value);
      }
      assert IsNumber(ps.fields[0].value);
    }
  }
}
