/** Validation of a native request: questions, options and error codes. */
module Schema {
  import opened Documents
  import opened Sequences
  import opened Text
  import opened Wrappers

  datatype Kind = Choice | Score | Noul

  /** The codes of a refusal, and the one exception that has none. */
  datatype Code =
    | UnknownKey
    | StateEmpty
    | QidInvalid
    | TypeUnknown
    | ChoiceCriteria
    | ChoiceTooMany
    | ScoreLevels
    | NoulCriteria
    | FloatOverflow // `float()` of an integer no double can hold: OverflowError, not a code

  /** The candidates of a question: their keys in wire order and what each is described as. */
  datatype Candidates = Candidates(keys: seq<string>, descriptions: seq<Option<string>>)

  datatype Question = Question(id: string, kind: Kind, instructions: Json, criteria: Json, candidates: Candidates)

  /** The values of the option table, in the table's order. */
  type Options = seq<Json>

  datatype Request = Request(
    state: Json, model: Option<string>, questions: seq<Question>, options: Options, format: string, warned: bool)

  const CHOICE_LIMIT := 255
  const SCORE_LOW := 2
  const SCORE_HIGH := 10

  // ---------------------------------------------------------------- criteria

  function KindName(kind: Kind): string {
    match kind
    case Choice => "choice"
    case Score => "score"
    case Noul => "noul"
  }

  function KindOf(v: Json): Option<Kind> {
    if v == Str("choice") then Some(Choice)
    else if v == Str("score") then Some(Score)
    else if v == Str("noul") then Some(Noul)
    else None
  }

  predicate Filled(v: Json) {
    v.Str? && !Blank(v.text)
  }

  function TextOf(v: Json): Option<string> {
    if v.Str? then Some(v.text) else None
  }

  function LevelNames(n: nat): (names: seq<string>)
    ensures |names| == n
  {
    seq(n, i requires 0 <= i < n => Digits(i))
  }

  function ChoiceOf(criteria: Json): Result<Candidates, Code> {
    if !criteria.Obj? || criteria.fields == [] || exists f <- criteria.fields :: Blank(f.key) then
      Failure(ChoiceCriteria)
    else if |criteria.fields| > CHOICE_LIMIT then
      Failure(ChoiceTooMany)
    else
      var fields := criteria.fields;
      Success(Candidates(
        seq(|fields|, i requires 0 <= i < |fields| => fields[i].key),
        seq(|fields|, i requires 0 <= i < |fields| => TextOf(fields[i].value))))
  }

  function ScoreOf(criteria: Json): Result<Candidates, Code> {
    if && criteria.Arr? && SCORE_LOW <= |criteria.items| <= SCORE_HIGH
       && forall v <- criteria.items :: Filled(v)
    then
      var items := criteria.items;
      Success(Candidates(LevelNames(|items|), seq(|items|, i requires 0 <= i < |items| => TextOf(items[i]))))
    else
      Failure(ScoreLevels)
  }

  function NoulOf(criteria: Json): Result<Candidates, Code> {
    if criteria.Null? then
      Success(Candidates(["yes", "no"], [None, None]))
    else if && criteria.Obj? && KeySet(criteria.fields) == {"true", "false"}
            && Filled(Get(criteria.fields, "true")) && Filled(Get(criteria.fields, "false"))
    then
      Success(Candidates(["yes", "no"],
                         [TextOf(Get(criteria.fields, "true")), TextOf(Get(criteria.fields, "false"))]))
    else
      Failure(NoulCriteria)
  }

  function CandidatesOf(kind: Kind, criteria: Json): Result<Candidates, Code> {
    match kind
    case Choice => ChoiceOf(criteria)
    case Score => ScoreOf(criteria)
    case Noul => NoulOf(criteria)
  }

  /** The loop over the option names; the first thing wrong decides the code. */
  method ParseChoice(criteria: Json) returns (r: Result<Candidates, Code>)
    ensures r == ChoiceOf(criteria)
  {
    if !criteria.Obj? || criteria.fields == [] {
      return Failure(ChoiceCriteria);
    }
    var fields := criteria.fields;
    for i := 0 to |fields|
      invariant forall j :: 0 <= j < i ==> !Blank(fields[j].key)
    {
      if Blank(fields[i].key) {
        return Failure(ChoiceCriteria);
      }
    }
    if |fields| > CHOICE_LIMIT {
      return Failure(ChoiceTooMany);
    }
    var keys, descriptions := [], [];
    for i := 0 to |fields|
      invariant |keys| == |descriptions| == i
      invariant forall j :: 0 <= j < i ==> keys[j] == fields[j].key && descriptions[j] == TextOf(fields[j].value)
    {
      keys, descriptions := keys + [fields[i].key], descriptions + [TextOf(fields[i].value)];
    }
    assert forall j :: 0 <= j < |fields| ==> !Blank(fields[j].key);
    assert ChoiceOf(criteria).Success?;
    assert keys == ChoiceOf(criteria).value.keys;
    assert descriptions == ChoiceOf(criteria).value.descriptions;
    return Success(Candidates(keys, descriptions));
  }

  method ParseScore(criteria: Json) returns (r: Result<Candidates, Code>)
    ensures r == ScoreOf(criteria)
  {
    if !criteria.Arr? || !(SCORE_LOW <= |criteria.items| <= SCORE_HIGH) {
      return Failure(ScoreLevels);
    }
    var items := criteria.items;
    var keys, descriptions := [], [];
    for i := 0 to |items|
      invariant |keys| == |descriptions| == i
      invariant forall j :: 0 <= j < i ==> Filled(items[j])
      invariant forall j :: 0 <= j < i ==> keys[j] == Digits(j) && descriptions[j] == TextOf(items[j])
    {
      if !Filled(items[i]) {
        return Failure(ScoreLevels);
      }
      keys, descriptions := keys + [Digits(i)], descriptions + [TextOf(items[i])];
    }
    assert ScoreOf(criteria).Success?;
    assert keys == LevelNames(|items|);
    assert descriptions == ScoreOf(criteria).value.descriptions;
    return Success(Candidates(keys, descriptions));
  }

  /** Both sides or neither: only the keys `true` and `false`, each with text. */
  method ParseNoul(criteria: Json) returns (r: Result<Candidates, Code>)
    ensures r == NoulOf(criteria)
  {
    if criteria.Null? {
      return Success(Candidates(["yes", "no"], [None, None]));
    }
    if !criteria.Obj? || criteria.fields == [] {
      return Failure(NoulCriteria);
    }
    var fields := criteria.fields;
    for i := 0 to |fields|
      invariant forall j :: 0 <= j < i ==> fields[j].key in {"true", "false"}
    {
      if fields[i].key != "true" && fields[i].key != "false" {
        assert fields[i].key in KeySet(fields);
        return Failure(NoulCriteria);
      }
    }
    var descriptions := [];
    var sides := ["true", "false"];
    for i := 0 to 2
      invariant |descriptions| == i
      invariant forall j :: 0 <= j < i ==> Filled(Get(fields, sides[j])) && descriptions[j] == TextOf(Get(fields, sides[j]))
    {
      var value := Get(fields, sides[i]);
      if !Filled(value) {
        return Failure(NoulCriteria);
      }
      descriptions := descriptions + [TextOf(value)];
    }
    assert sides[0] == "true" && sides[1] == "false";
    assert KeySet(fields) == {"true", "false"};
    assert descriptions == [TextOf(Get(fields, "true")), TextOf(Get(fields, "false"))];
    return Success(Candidates(["yes", "no"], descriptions));
  }

  // ---------------------------------------------------------------- questions

  const QUESTION_KEYS := {"type", "instructions", "criteria"}

  function QuestionOf(id: string, body: Json): Result<Question, Code> {
    if !body.Obj? then Failure(TypeUnknown)
    else if !(KeySet(body.fields) <= QUESTION_KEYS) then Failure(UnknownKey)
    else
      var kind := KindOf(Get(body.fields, "type"));
      if kind.None? then Failure(TypeUnknown)
      else
        var criteria := Get(body.fields, "criteria");
        var candidates :- CandidatesOf(kind.value, criteria);
        Success(Question(id, kind.value, Get(body.fields, "instructions"), criteria, candidates))
  }

  function QuestionsFrom(fields: Fields): Result<seq<Question>, Code> {
    if fields == [] then Success([])
    else if Blank(fields[0].key) then Failure(QidInvalid)
    else
      var first :- QuestionOf(fields[0].key, fields[0].value);
      var rest :- QuestionsFrom(fields[1..]);
      Success([first] + rest)
  }

  function QuestionsOf(raw: Json): Result<seq<Question>, Code> {
    if !raw.Obj? || raw.fields == [] then Failure(QidInvalid) else QuestionsFrom(raw.fields)
  }

  /** The result for a whole object, once its first questions are parsed. */
  function After(done: seq<Question>, rest: Result<seq<Question>, Code>): Result<seq<Question>, Code> {
    if rest.Failure? then rest else Success(done + rest.value)
  }

  lemma {:induction false} QuestionsStep(fields: Fields, done: seq<Question>)
    requires fields != [] && !Blank(fields[0].key)
    ensures var q := QuestionOf(fields[0].key, fields[0].value);
            After(done, QuestionsFrom(fields)) ==
            if q.Failure? then Failure(q.error) else After(done + [q.value], QuestionsFrom(fields[1..]))
  {
    hide QuestionOf, Blank;
    var q := QuestionOf(fields[0].key, fields[0].value);
    var rest := QuestionsFrom(fields[1..]);
    if q.Success? && rest.Success? {
      assert done + ([q.value] + rest.value) == done + [q.value] + rest.value;
    }
  }

  /** The loop over the questions, in the order the object lists them. */
  method ParseQuestions(raw: Json) returns (r: Result<seq<Question>, Code>)
    ensures r == QuestionsOf(raw)
  {
    hide QuestionOf, Blank;
    if !raw.Obj? || raw.fields == [] {
      return Failure(QidInvalid);
    }
    var fields := raw.fields;
    var questions := [];
    assert fields[0..] == fields;
    assert QuestionsFrom(fields).Success? ==> [] + QuestionsFrom(fields).value == QuestionsFrom(fields).value;
    for i := 0 to |fields|
      invariant After(questions, QuestionsFrom(fields[i..])) == QuestionsFrom(fields)
    {
      if Blank(fields[i].key) {
        return Failure(QidInvalid);
      }
      QuestionsStep(fields[i..], questions);
      assert fields[i..][1..] == fields[i + 1..];
      var question := QuestionOf(fields[i].key, fields[i].value);
      if question.Failure? {
        return Failure(question.error);
      }
      questions := questions + [question.value];
    }
    assert QuestionsFrom(fields[|fields|..]) == Success([]);
    assert questions + [] == questions;
    return Success(questions);
  }

  // ---------------------------------------------------------------- options

  datatype Rule =
    | Number(low: real, inclusive: bool, high: Option<real>)
    | OneOf(allowed: seq<string>)
    | OneOfOrNull(allowed: seq<string>)
    | Whole
    | WholeFrom(least: int)
    | WholeFromOrNull(least: int)
    | TextOrNull
    | StrippedOrNull
    | Boolean

  datatype Setting = Setting(name: string, rule: Rule, default: Json)

  /** What a rule makes of a value, or none where it rejects it. */
  function Normalise(rule: Rule, v: Json): Option<Json> {
    match rule
    case Number(low, inclusive, high) =>
      if v.NotFinite? then (if v.special.NaN? || (v.special.Infinity? && high.None?) then Some(v) else None)
      else if !IsNumber(v) || Overflows(v) then None
      else
        var x := NumberOf(v);
        if x < low || (x == low && !inclusive) || (high.Some? && x > high.value) then None else Some(Num(x))
    case OneOf(allowed) => if v.Str? && v.text in allowed then Some(v) else None
    case OneOfOrNull(allowed) => if v.Null? || (v.Str? && v.text in allowed) then Some(v) else None
    case Whole => if v.Int? then Some(v) else None
    case WholeFrom(least) => if v.Int? && v.whole >= least then Some(v) else None
    case WholeFromOrNull(least) => if v.Null? || (v.Int? && v.whole >= least) then Some(v) else None
    case TextOrNull => if v.Null? || Filled(v) then Some(v) else None
    case StrippedOrNull => if v.Null? then Some(v) else if Filled(v) then Some(Str(Strip(v.text))) else None
    case Boolean => if v.Flag? then Some(v) else None
  }

  /** Where a value is not rejected with a code but ends the program: `_number` converts before it compares. */
  predicate Raises(rule: Rule, v: Json) {
    rule.Number? && Overflows(v)
  }

  predicate InRange(rule: Rule, x: real)
    requires rule.Number?
  {
    && (if rule.inclusive then rule.low <= x else rule.low < x)
    && (rule.high.Some? ==> x <= rule.high.value)
  }

  /** The values a number option can have in an accepted request: the range, and beside it NaN, of which every
      comparison is false, and infinity where there is no upper bound. */
  lemma NumberNormal(rule: Rule, v: Json)
    requires rule.Number?
    ensures Normalise(rule, v) == Some(v) <==>
            || (v.Num? && InRange(rule, v.num))
            || v == NotFinite(NaN) || (v == NotFinite(Infinity) && rule.high.None?)
  {
  }

  /** A normalised value is its own normal form. */
  lemma {:induction false} NormaliseIdempotent(rule: Rule, v: Json)
    requires Normalise(rule, v).Some?
    ensures Normalise(rule, Normalise(rule, v).value) == Normalise(rule, v)
  {
    if rule.StrippedOrNull? && v.Str? {
      StripIdempotent(v.text);
      StripSplits(v.text);
      StripSplits(Strip(v.text));
    }
  }

  const TABLE: seq<Setting> := [
    Setting("temperature", Number(0.0, false, None), Num(1.0)),
    Setting("length_norm", Number(0.0, true, None), Num(1.0)),
    Setting("readout", OneOf(["sequence", "single_token"]), Str("sequence")),
    Setting("cue", OneOf(["shipped", "two_step", "json_field", "json_instructed"]), Str("json_instructed")),
    Setting("chat_format", OneOf(["answer_sheet", "role_split"]), Str("role_split")),
    Setting("json_contract", OneOf(["question", "system"]), Str("question")),
    Setting("confidence_mode", OneOfOrNull(["normalized_peak", "entropy", "margin"]), Null),
    Setting("n_ctx", WholeFromOrNull(1), Null),
    Setting("n_seq_max", WholeFromOrNull(3), Null),
    Setting("kv_type", OneOf(["auto", "f16", "q8_0", "q4_0"]), Str("auto")),
    Setting("coverage_floor", Number(0.0, true, Some(1.0)), Num(0.10)),
    Setting("seed", Whole, Int(0)),
    Setting("threads", WholeFromOrNull(1), Null),
    Setting("backend", OneOf(["auto", "cpu", "vulkan", "cuda", "metal"]), Str("auto")),
    Setting("state_id", TextOrNull, Null),
    Setting("state_cache", Boolean, Flag(true)),
    Setting("save_state", Boolean, Flag(false)),
    Setting("max_waves", WholeFromOrNull(1), Null),
    Setting("strict", Boolean, Flag(false)),
    Setting("template", StrippedOrNull, Null),
    Setting("thinking", Boolean, Flag(false)),
    Setting("route", OneOf(["off", "auto"]), Str("off")),
    Setting("escalate", Boolean, Flag(false)),
    Setting("max_escalations", WholeFrom(0), Int(1))]

  const STRICT := 18

  /** What the theory needs of an option table: names used once, and every default its own normal form. */
  ghost predicate Fits(table: seq<Setting>) {
    && (forall i, j :: 0 <= i < j < |table| ==> table[i].name != table[j].name)
    && (forall i :: 0 <= i < |table| ==> Normalise(table[i].rule, table[i].default) == Some(table[i].default))
    && STRICT < |table| && table[STRICT] == Setting("strict", Boolean, Flag(false))
  }

  function Names(table: seq<Setting>): set<string> {
    set i | 0 <= i < |table| :: table[i].name
  }

  /** The value a setting starts from: the request's where it names the setting, the default elsewhere. */
  function Chosen(setting: Setting, fields: Fields): Json {
    if setting.name in KeySet(fields) then Get(fields, setting.name) else setting.default
  }

  function NormaliseAll(table: seq<Setting>, values: seq<Json>): Option<Options>
    requires |values| == |table|
  {
    if table == [] then Some([])
    else
      var first, rest := Normalise(table[0].rule, values[0]), NormaliseAll(table[1..], values[1..]);
      if first.None? || rest.None? then None else Some([first.value] + rest.value)
  }

  lemma {:induction false} NormaliseAllAt(table: seq<Setting>, values: seq<Json>)
    requires |values| == |table|
    ensures NormaliseAll(table, values).Some? <==>
            forall i :: 0 <= i < |table| ==> Normalise(table[i].rule, values[i]).Some?
    ensures NormaliseAll(table, values).Some? ==>
              && |NormaliseAll(table, values).value| == |table|
              && forall i :: 0 <= i < |table| ==> Some(NormaliseAll(table, values).value[i]) == Normalise(table[i].rule, values[i])
  {
    if table != [] {
      NormaliseAllAt(table[1..], values[1..]);
      assert forall i :: 1 <= i < |table| ==> table[i] == table[1..][i - 1] && values[i] == values[1..][i - 1];
    }
  }

  /** What the first value without a normal form ends in. */
  function Refusal(table: seq<Setting>, values: seq<Json>): Code
    requires |values| == |table|
  {
    if table == [] then UnknownKey
    else if Normalise(table[0].rule, values[0]).Some? then Refusal(table[1..], values[1..])
    else if Raises(table[0].rule, values[0]) then FloatOverflow
    else UnknownKey
  }

  function Defaults(table: seq<Setting>): (values: seq<Json>)
    ensures |values| == |table|
  {
    seq(|table|, i requires 0 <= i < |table| => table[i].default)
  }

  function AllChosen(table: seq<Setting>, fields: Fields): (values: seq<Json>)
    ensures |values| == |table|
  {
    seq(|table|, i requires 0 <= i < |table| => Chosen(table[i], fields))
  }

  datatype ParsedOptions = ParsedOptions(options: Options, warned: bool)

  /** The options and whether `W_UNKNOWN_OPTION` is warned. */
  function OptionsOf(table: seq<Setting>, raw: Json): Result<ParsedOptions, Code> {
    if raw.Null? then Success(ParsedOptions(Defaults(table), false))
    else if !raw.Obj? then Failure(UnknownKey)
    else
      var strict := if "strict" in KeySet(raw.fields) then Get(raw.fields, "strict") else Flag(false);
      var unknown := !(KeySet(raw.fields) <= Names(table));
      if !strict.Flag? || (unknown && strict.flag) then Failure(UnknownKey)
      else
        var values := AllChosen(table, raw.fields);
        var options := NormaliseAll(table, values);
        if options.None? then Failure(Refusal(table, values)) else Success(ParsedOptions(options.value, unknown))
  }

  function IndexIn(table: seq<Setting>, name: string): (i: nat)
    ensures i <= |table|
    ensures name in Names(table) <==> i < |table|
    ensures i < |table| ==> table[i].name == name
  {
    if table == [] then 0
    else
      assert Names(table) == {table[0].name} + Names(table[1..]);
      if table[0].name == name then 0 else 1 + IndexIn(table[1..], name)
  }

  /** The loop over the request's options, each known one overwriting its default. */
  method ParseOptions(table: seq<Setting>, raw: Json) returns (r: Result<ParsedOptions, Code>)
    requires Fits(table) && WellFormed(raw)
    ensures r == OptionsOf(table, raw)
  {
    if raw.Null? {
      return Success(ParsedOptions(Defaults(table), false));
    }
    if !raw.Obj? {
      return Failure(UnknownKey);
    }
    var fields := raw.fields;
    var strict := if "strict" in KeySet(fields) then Get(fields, "strict") else Flag(false);
    if !strict.Flag? {
      return Failure(UnknownKey);
    }
    var unknown := !(KeySet(fields) <= Names(table));
    if unknown && strict.flag {
      return Failure(UnknownKey);
    }
    var values := Defaults(table);
    for i := 0 to |fields|
      invariant |values| == |table|
      invariant values == AllChosen(table, fields[..i])
    {
      var k := IndexIn(table, fields[i].key);
      OneMoreChosen(table, fields, i, k);
      if k < |table| {
        values := values[k := fields[i].value];
      }
    }
    assert fields[..|fields|] == fields;
    var options := NormaliseAll(table, values);
    if options.None? {
      return Failure(Refusal(table, values));
    }
    return Success(ParsedOptions(options.value, unknown));
  }

  lemma {:induction false} OneMoreChosen(table: seq<Setting>, fields: Fields, i: nat, k: nat)
    requires Fits(table) && Distinct(fields) && i < |fields|
    requires k == IndexIn(table, fields[i].key)
    ensures AllChosen(table, fields[..i + 1]) ==
            if k < |table| then AllChosen(table, fields[..i])[k := fields[i].value] else AllChosen(table, fields[..i])
  {
    var before, after := fields[..i], fields[..i + 1];
    NamesOnce(table, fields[i].key, k);
    hide Fits, IndexIn, Chosen, Distinct;
    forall j | 0 <= j < |table|
      ensures Chosen(table[j], after) == if j == k then fields[i].value else Chosen(table[j], before)
    {
      NextChosen(table[j], fields, i);
    }
  }

  lemma NamesOnce(table: seq<Setting>, name: string, k: nat)
    requires Fits(table) && k == IndexIn(table, name)
    ensures forall j :: 0 <= j < |table| ==> (table[j].name == name <==> j == k)
  {
    hide Normalise;
    if k == |table| {
      assert forall j :: 0 <= j < |table| ==> table[j].name in Names(table);
    }
  }

  /** One field more settles the setting it names and no other. */
  lemma NextChosen(setting: Setting, fields: Fields, i: nat)
    requires Distinct(fields) && i < |fields|
    ensures Chosen(setting, fields[..i + 1]) == if setting.name == fields[i].key then fields[i].value else Chosen(setting, fields[..i])
  {
    var before, after, name := fields[..i], fields[..i + 1], setting.name;
    assert after[i] == fields[i];
    if name == fields[i].key {
      GetAt(after, i);
    } else if name in KeySet(before) {
      var m :| 0 <= m < |before| && before[m] == Field(name, Get(before, name));
      assert after[m] == before[m];
      GetAt(after, m);
      assert name in KeySet(after);
    } else {
      assert name !in KeySet(after);
    }
  }

  // ---------------------------------------------------------------- the request

  const REQUEST_KEYS := {"state", "model", "questions", "format", "options"}

  predicate StatePresent(state: Json) {
    match state
    case Str(s) => !Blank(s)
    case Arr(items) => items != []
    case Obj(fields) => fields != []
    case _ => false
  }

  function RequestOf(table: seq<Setting>, payload: Json): Result<Request, Code> {
    if !payload.Obj? || !(KeySet(payload.fields) <= REQUEST_KEYS) then Failure(UnknownKey)
    else
      var fields := payload.fields;
      var model := Get(fields, "model");
      var format := if "format" in KeySet(fields) then Get(fields, "format") else Str("native");
      if !StatePresent(Get(fields, "state")) then Failure(StateEmpty)
      else if !model.Null? && !model.Str? then Failure(UnknownKey)
      else if format != Str("native") && format != Str("typesafe") then Failure(UnknownKey)
      else
        var parsed :- OptionsOf(table, Get(fields, "options"));
        var questions :- QuestionsOf(Get(fields, "questions"));
        Success(Request(Get(fields, "state"), TextOf(model), questions, parsed.options, format.text, parsed.warned))
  }

  /** `parse_request`: the checks in their order, the two loops in their own methods. What is accepted meets
      every promise the engine relies on, and its canonical payload is parsed back to it. */
  method ParseRequest(payload: Json) returns (r: Result<Request, Code>)
    requires WellFormed(payload)
    ensures r == RequestOf(TABLE, payload)
    ensures r.Success? ==> Valid(TABLE, r.value) && Again(r.value)
    ensures r.Success? ==> Requests(payload, r.value)
  {
    TableFits();
    AcceptedAgain(payload);
    if RequestOf(TABLE, payload).Success? {
      AcceptedAsks(TABLE, payload);
    }
    hide Requests, Fits, Valid, Again, Normalise, OptionsOf, QuestionsOf, Get, KeySet, StatePresent, WellFormed, TABLE;
    if !payload.Obj? || !(KeySet(payload.fields) <= REQUEST_KEYS) {
      return Failure(UnknownKey);
    }
    var fields := payload.fields;
    var state, model, raw := Get(fields, "state"), Get(fields, "model"), Get(fields, "options");
    if !StatePresent(state) {
      return Failure(StateEmpty);
    }
    if !model.Null? && !model.Str? {
      return Failure(UnknownKey);
    }
    var format := if "format" in KeySet(fields) then Get(fields, "format") else Str("native");
    if format != Str("native") && format != Str("typesafe") {
      return Failure(UnknownKey);
    }
    var parsed :- ParseOptions(TABLE, raw);
    var questions :- ParseQuestions(Get(fields, "questions"));
    return Success(Request(state, TextOf(model), questions, parsed.options, format.text, parsed.warned));
  }

  /** The request's canonical payload is parsed back to it, with nothing warned. */
  ghost predicate Again(r: Request) {
    |r.options| == |TABLE| && RequestOf(TABLE, Canonical(TABLE, r)) == Success(r.(warned := false))
  }

  lemma AcceptedAgain(payload: Json)
    requires WellFormed(payload)
    ensures RequestOf(TABLE, payload).Success? ==>
              Valid(TABLE, RequestOf(TABLE, payload).value) && Again(RequestOf(TABLE, payload).value)
  {
    hide *;
    if RequestOf(TABLE, payload).Success? {
      TableFits();
      AcceptedIsValid(TABLE, payload);
      ReadAgain(RequestOf(TABLE, payload).value);
    }
  }

  lemma ReadAgain(r: Request)
    requires Valid(TABLE, r)
    ensures Again(r)
  {
    TableFits();
    CanonicalRoundTrip(TABLE, r);
    hide RequestOf, Canonical, Normalise, Fits;
  }

  // ---------------------------------------------------------------- numbers no double can hold

  /** The checks before the option values: the request's keys, its state, model and format, and `strict`. */
  ghost predicate OptionsReached(table: seq<Setting>, payload: Json) {
    && payload.Obj? && KeySet(payload.fields) <= REQUEST_KEYS
    && StatePresent(Get(payload.fields, "state"))
    && (Get(payload.fields, "model").Null? || Get(payload.fields, "model").Str?)
    && ("format" in KeySet(payload.fields) ==> Get(payload.fields, "format") in {Str("native"), Str("typesafe")})
    && var options := Get(payload.fields, "options");
       && options.Obj?
       && ("strict" in KeySet(options.fields) ==> Get(options.fields, "strict").Flag?)
       && (KeySet(options.fields) <= Names(table) || Get(options.fields, "strict") != Flag(true))
  }

  /** A number option is too large for `float()` and every option before it is in order. */
  ghost predicate OversizedFirst(table: seq<Setting>, values: seq<Json>)
    requires |values| == |table|
  {
    exists i :: 0 <= i < |table| && Raises(table[i].rule, values[i])
                && forall j :: 0 <= j < i ==> Normalise(table[j].rule, values[j]).Some?
  }

  lemma {:induction false} RefusalRaises(table: seq<Setting>, values: seq<Json>)
    requires |values| == |table|
    ensures Refusal(table, values) == FloatOverflow <==> OversizedFirst(table, values)
    ensures OversizedFirst(table, values) ==> NormaliseAll(table, values).None?
  {
    hide Raises, Normalise, OversizedFirst;
    OversizedSplits(table, values);
    if table != [] {
      RefusalRaises(table[1..], values[1..]);
      if Raises(table[0].rule, values[0]) {
        RaisesRejects(table[0].rule, values[0]);
      }
    }
  }

  lemma OversizedSplits(table: seq<Setting>, values: seq<Json>)
    requires |values| == |table|
    ensures OversizedFirst(table, values) <==>
            table != [] && (Raises(table[0].rule, values[0])
                            || (Normalise(table[0].rule, values[0]).Some? && OversizedFirst(table[1..], values[1..])))
  {
    hide Raises, Normalise;
    if table != [] {
      var rest, others := table[1..], values[1..];
      if OversizedFirst(rest, others) && Normalise(table[0].rule, values[0]).Some? {
        var i :| 0 <= i < |rest| && Raises(rest[i].rule, others[i]) && forall j :: 0 <= j < i ==> Normalise(rest[j].rule, others[j]).Some?;
        forall j | 0 <= j < i + 1 ensures Normalise(table[j].rule, values[j]).Some? {
          assert j > 0 ==> table[j] == rest[j - 1] && values[j] == others[j - 1];
        }
        assert Raises(table[i + 1].rule, values[i + 1]);
      }
      if OversizedFirst(table, values) {
        var i :| 0 <= i < |table| && Raises(table[i].rule, values[i]) && forall j :: 0 <= j < i ==> Normalise(table[j].rule, values[j]).Some?;
        if i > 0 {
          assert Raises(rest[i - 1].rule, others[i - 1]);
          forall j | 0 <= j < i - 1 ensures Normalise(rest[j].rule, others[j]).Some? {
            assert rest[j] == table[j + 1] && others[j] == values[j + 1];
          }
        }
      }
    }
  }

  lemma RaisesRejects(rule: Rule, v: Json)
    requires Raises(rule, v)
    ensures Normalise(rule, v).None?
  {
  }

  lemma QuestionNeverRaises(id: string, body: Json)
    ensures QuestionOf(id, body) != Failure(FloatOverflow)
  {
    hide Filled, Blank, Get, KeySet, LevelNames;
  }

  lemma {:induction false} QuestionsNeverRaise(fields: Fields)
    ensures QuestionsFrom(fields) != Failure(FloatOverflow)
  {
    if fields != [] {
      QuestionNeverRaises(fields[0].key, fields[0].value);
      QuestionsNeverRaise(fields[1..]);
      hide QuestionOf, Blank;
    }
  }

  /** `parse_request` ends in an OverflowError exactly when every check before the option values passes and
      the first option out of order is a number no double can hold. */
  lemma OversizedRaises(table: seq<Setting>, payload: Json)
    ensures RequestOf(table, payload) == Failure(FloatOverflow) <==>
            OptionsReached(table, payload) && OversizedFirst(table, AllChosen(table, Get(payload.fields, "options").fields))
  {
    hide OversizedFirst, NormaliseAll, Refusal, AllChosen, Get, KeySet, Names, StatePresent, QuestionsFrom;
    if payload.Obj? {
      var raw := Get(payload.fields, "options");
      if raw.Obj? {
        RefusalRaises(table, AllChosen(table, raw.fields));
      }
      var questions := Get(payload.fields, "questions");
      if questions.Obj? {
        QuestionsNeverRaise(questions.fields);
      }
    }
  }

  // ---------------------------------------------------------------- what an accepted request satisfies

  /** The candidates the engine is handed: distinct, described, and as many as the question type allows. */
  ghost predicate Answerable(kind: Kind, c: Candidates) {
    && |c.keys| == |c.descriptions| && AllDistinct(c.keys)
    && match kind
       case Choice => 1 <= |c.keys| <= CHOICE_LIMIT && forall k <- c.keys :: !Blank(k)
       case Score =>
         && SCORE_LOW <= |c.keys| <= SCORE_HIGH && c.keys == LevelNames(|c.keys|)
         && forall d <- c.descriptions :: d.Some? && !Blank(d.value)
       case Noul =>
         && c.keys == ["yes", "no"] && (c.descriptions[0].Some? <==> c.descriptions[1].Some?)
         && forall d <- c.descriptions :: d.Some? ==> !Blank(d.value)
  }

  lemma {:induction false} CandidatesAnswerable(kind: Kind, criteria: Json)
    requires WellFormed(criteria) && CandidatesOf(kind, criteria).Success?
    ensures Answerable(kind, CandidatesOf(kind, criteria).value)
  {
    var c := CandidatesOf(kind, criteria).value;
    if kind.Score? {
      forall d | d in c.descriptions ensures d.Some? && !Blank(d.value) {
        var i :| 0 <= i < |c.descriptions| && c.descriptions[i] == d;
        assert criteria.items[i] in criteria.items;
      }
      forall i, j | 0 <= i < j < |c.keys| ensures c.keys[i] != c.keys[j] {
        if c.keys[i] == c.keys[j] {
          DigitsInjective(i, j);
        }
      }
    }
  }

  /** A question as `_parse_question` returns it: named, with the candidates its criteria give. */
  ghost predicate Sensible(q: Question) {
    !Blank(q.id) && CandidatesOf(q.kind, q.criteria) == Success(q.candidates) && Answerable(q.kind, q.candidates)
  }

  /** A request as `parse_request` returns it. */
  ghost predicate Valid(table: seq<Setting>, r: Request) {
    && StatePresent(r.state)
    && r.questions != [] && AllDistinct(Ids(r.questions))
    && (forall q <- r.questions :: Sensible(q))
    && |r.options| == |table|
    && (forall i :: 0 <= i < |table| ==> Normalise(table[i].rule, r.options[i]) == Some(r.options[i]))
    && r.format in {"native", "typesafe"}
  }

  function Ids(questions: seq<Question>): seq<string> {
    seq(|questions|, i requires 0 <= i < |questions| => questions[i].id)
  }

  lemma QuestionKeeps(id: string, body: Json)
    requires WellFormed(body) && QuestionOf(id, body).Success?
    ensures QuestionOf(id, body).value.id == id && (!Blank(id) ==> Sensible(QuestionOf(id, body).value))
  {
    hide CandidatesOf, Answerable;
    var q := QuestionOf(id, body).value;
    CandidatesAnswerable(q.kind, q.criteria);
  }

  lemma {:induction false} QuestionsKeep(fields: Fields)
    requires WellFormed(Obj(fields)) && QuestionsFrom(fields).Success?
    ensures |QuestionsFrom(fields).value| == |fields|
    ensures forall i :: 0 <= i < |fields| ==> QuestionsFrom(fields).value[i].id == fields[i].key
    ensures forall q <- QuestionsFrom(fields).value :: Sensible(q)
  {
    if fields != [] {
      WellFormedParts(fields);
      QuestionsParts(fields);
      hide *;
      QuestionKeeps(fields[0].key, fields[0].value);
      QuestionsKeep(fields[1..]);
    }
  }

  lemma WellFormedParts(fields: Fields)
    requires WellFormed(Obj(fields)) && fields != []
    ensures WellFormed(fields[0].value) && WellFormed(Obj(fields[1..]))
  {
  }

  lemma QuestionsParts(fields: Fields)
    requires fields != [] && QuestionsFrom(fields).Success?
    ensures !Blank(fields[0].key) && QuestionOf(fields[0].key, fields[0].value).Success? && QuestionsFrom(fields[1..]).Success?
    ensures QuestionsFrom(fields).value == [QuestionOf(fields[0].key, fields[0].value).value] + QuestionsFrom(fields[1..]).value
  {
    hide QuestionOf, Blank;
  }

  lemma {:induction false} OptionsNormal(table: seq<Setting>, raw: Json)
    requires Fits(table) && OptionsOf(table, raw).Success?
    ensures |OptionsOf(table, raw).value.options| == |table|
    ensures forall i :: 0 <= i < |table| ==>
              Normalise(table[i].rule, OptionsOf(table, raw).value.options[i]) == Some(OptionsOf(table, raw).value.options[i])
  {
    if raw.Obj? {
      var values := AllChosen(table, raw.fields);
      NormaliseAllAt(table, values);
      forall i | 0 <= i < |table| {
        NormaliseIdempotent(table[i].rule, values[i]);
      }
    }
  }

  /** Every accepted request meets every promise the engine relies on. */
  lemma {:induction false} AcceptedIsValid(table: seq<Setting>, payload: Json)
    requires Fits(table) && WellFormed(payload) && RequestOf(table, payload).Success?
    ensures Valid(table, RequestOf(table, payload).value)
  {
    var fields := payload.fields;
    var raw := Get(fields, "questions");
    OptionsNormal(table, Get(fields, "options"));
    QuestionsKeep(raw.fields);
  }

  // ---------------------------------------------------------------- what an accepted request asks

  /** `yes` is described by the text under `true` and `no` by the one under `false`, or neither is. */
  ghost predicate SidesDescribed(criteria: Json, c: Candidates) {
    && c.keys == ["yes", "no"] && |c.descriptions| == 2
    && if criteria.Null? then c.descriptions == [None, None]
       else
         && criteria.Obj? && KeySet(criteria.fields) == {"true", "false"}
         && c.descriptions[0].Some? && Get(criteria.fields, "true") == Str(c.descriptions[0].value)
         && c.descriptions[1].Some? && Get(criteria.fields, "false") == Str(c.descriptions[1].value)
  }

  /** Every option is described by its own text, or by nothing where its value is no text. */
  ghost predicate NamesDescribed(criteria: Json, c: Candidates) {
    && criteria.Obj? && |c.keys| == |c.descriptions| == |criteria.fields|
    && forall i :: 0 <= i < |criteria.fields| ==>
         && c.keys[i] == criteria.fields[i].key
         && if criteria.fields[i].value.Str? then c.descriptions[i] == Some(criteria.fields[i].value.text)
            else c.descriptions[i] == None
  }

  /** The levels are numbered from zero in the order listed, each described by its own item. */
  ghost predicate LevelsDescribed(criteria: Json, c: Candidates) {
    && criteria.Arr? && |c.keys| == |c.descriptions| == |criteria.items|
    && forall i :: 0 <= i < |criteria.items| ==>
         c.keys[i] == Digits(i) && c.descriptions[i].Some? && criteria.items[i] == Str(c.descriptions[i].value)
  }

  /** The question is what its body says. */
  ghost predicate Asks(body: Json, q: Question) {
    && body.Obj? && KeySet(body.fields) <= {"type", "instructions", "criteria"}
    && q.instructions == Get(body.fields, "instructions") && q.criteria == Get(body.fields, "criteria")
    && (q.kind.Choice? ==> Get(body.fields, "type") == Str("choice") && NamesDescribed(q.criteria, q.candidates))
    && (q.kind.Score? ==> Get(body.fields, "type") == Str("score") && LevelsDescribed(q.criteria, q.candidates))
    && (q.kind.Noul? ==> Get(body.fields, "type") == Str("noul") && SidesDescribed(q.criteria, q.candidates))
  }

  /** The request is what the payload says: state, model and format, and every question under its own id. */
  ghost predicate Requests(payload: Json, r: Request) {
    && payload.Obj? && KeySet(payload.fields) <= {"state", "model", "questions", "format", "options"}
    && r.state == Get(payload.fields, "state")
    && (r.model.Some? ==> Get(payload.fields, "model") == Str(r.model.value))
    && (r.model.None? ==> Get(payload.fields, "model") == Null)
    && r.format in {"native", "typesafe"}
    && (if "format" in KeySet(payload.fields) then Get(payload.fields, "format") == Str(r.format) else r.format == "native")
    && Get(payload.fields, "questions").Obj?
    && var raw := Get(payload.fields, "questions").fields;
       && |r.questions| == |raw| > 0
       && forall i :: 0 <= i < |raw| ==> r.questions[i].id == raw[i].key && Asks(raw[i].value, r.questions[i])
  }

  lemma CandidatesDescribed(kind: Kind, criteria: Json)
    requires CandidatesOf(kind, criteria).Success?
    ensures kind.Choice? ==> NamesDescribed(criteria, CandidatesOf(kind, criteria).value)
    ensures kind.Score? ==> LevelsDescribed(criteria, CandidatesOf(kind, criteria).value)
    ensures kind.Noul? ==> SidesDescribed(criteria, CandidatesOf(kind, criteria).value)
  {
    hide Get, KeySet, Blank;
    if kind.Score? {
      forall i | 0 <= i < |criteria.items| ensures criteria.items[i].Str? {
        assert criteria.items[i] in criteria.items;
      }
    }
  }

  lemma QuestionAsks(id: string, body: Json)
    requires QuestionOf(id, body).Success?
    ensures QuestionOf(id, body).value.id == id && Asks(body, QuestionOf(id, body).value)
  {
    var q := QuestionOf(id, body).value;
    hide CandidatesOf, Get, KeySet, NamesDescribed, LevelsDescribed, SidesDescribed;
    CandidatesDescribed(q.kind, q.criteria);
  }

  lemma {:induction false} QuestionsAsk(fields: Fields)
    requires QuestionsFrom(fields).Success?
    ensures |QuestionsFrom(fields).value| == |fields|
    ensures forall i :: 0 <= i < |fields| ==>
              QuestionsFrom(fields).value[i].id == fields[i].key && Asks(fields[i].value, QuestionsFrom(fields).value[i])
  {
    if fields != [] {
      QuestionsParts(fields);
      hide *;
      QuestionAsks(fields[0].key, fields[0].value);
      QuestionsAsk(fields[1..]);
      var questions, rest := QuestionsFrom(fields).value, QuestionsFrom(fields[1..]).value;
      forall i | 0 <= i < |fields| ensures questions[i].id == fields[i].key && Asks(fields[i].value, questions[i]) {
        if i > 0 {
          assert fields[i] == fields[1..][i - 1] && questions[i] == rest[i - 1];
        }
      }
    }
  }

  /** An accepted request asks what its payload says. */
  lemma AcceptedAsks(table: seq<Setting>, payload: Json)
    requires RequestOf(table, payload).Success?
    ensures Requests(payload, RequestOf(table, payload).value)
  {
    hide OptionsOf, Asks, Get, KeySet, QuestionsFrom, StatePresent;
    QuestionsAsk(Get(payload.fields, "questions").fields);
  }

  /** A described yes/no question: whichever side is written first, `true` describes `yes` and `false` describes `no`. */
  lemma {:induction false} SidesInOrder(id: string, instructions: Json, a: string, b: string, swapped: bool)
    requires !Blank(a) && !Blank(b)
    ensures var sides := if swapped then [Field("false", Str(b)), Field("true", Str(a))]
                         else [Field("true", Str(a)), Field("false", Str(b))];
            QuestionOf(id, Obj([Field("type", Str("noul")), Field("instructions", instructions), Field("criteria", Obj(sides))]))
            == Success(Question(id, Noul, instructions, Obj(sides), Candidates(["yes", "no"], [Some(a), Some(b)])))
  {
    var sides := if swapped then [Field("false", Str(b)), Field("true", Str(a))]
                 else [Field("true", Str(a)), Field("false", Str(b))];
    hide *;
    SidesGet(a, b, swapped);
    QuestionGets("noul", instructions, Obj(sides));
    DescribedSides(id, [Field("type", Str("noul")), Field("instructions", instructions), Field("criteria", Obj(sides))], sides, a, b);
  }

  lemma SidesGet(a: string, b: string, swapped: bool)
    ensures var sides := if swapped then [Field("false", Str(b)), Field("true", Str(a))]
                         else [Field("true", Str(a)), Field("false", Str(b))];
            KeySet(sides) == {"true", "false"} && Get(sides, "true") == Str(a) && Get(sides, "false") == Str(b)
  {
    var sides := if swapped then [Field("false", Str(b)), Field("true", Str(a))]
                 else [Field("true", Str(a)), Field("false", Str(b))];
    assert sides[0].key in {"true", "false"} && sides[1].key in {"true", "false"} && sides[0].key != sides[1].key;
    GetAt(sides, 0);
    GetAt(sides, 1);
    hide Get;
  }

  lemma QuestionGets(kind: string, instructions: Json, criteria: Json)
    ensures var body := [Field("type", Str(kind)), Field("instructions", instructions), Field("criteria", criteria)];
            && KeySet(body) == {"type", "instructions", "criteria"} && Get(body, "type") == Str(kind)
            && Get(body, "instructions") == instructions && Get(body, "criteria") == criteria
  {
    var body := [Field("type", Str(kind)), Field("instructions", instructions), Field("criteria", criteria)];
    assert body[0].key == "type" && body[1].key == "instructions" && body[2].key == "criteria";
    GetAt(body, 0);
    GetAt(body, 1);
    GetAt(body, 2);
    hide Get;
  }

  lemma DescribedSides(id: string, body: Fields, sides: Fields, a: string, b: string)
    requires !Blank(a) && !Blank(b) && KeySet(body) <= {"type", "instructions", "criteria"}
    requires Get(body, "type") == Str("noul") && Get(body, "criteria") == Obj(sides)
    requires KeySet(sides) == {"true", "false"} && Get(sides, "true") == Str(a) && Get(sides, "false") == Str(b)
    ensures QuestionOf(id, Obj(body))
         == Success(Question(id, Noul, Get(body, "instructions"), Obj(sides), Candidates(["yes", "no"], [Some(a), Some(b)])))
  {
    hide Get, KeySet, Blank;
  }

  /** Which criteria are accepted, and how too many options are refused. */
  lemma {:induction false} CandidatesIff(criteria: Json)
    ensures ChoiceOf(criteria).Success? <==>
              criteria.Obj? && 1 <= |criteria.fields| <= 255 && forall f <- criteria.fields :: !Blank(f.key)
    ensures ChoiceOf(criteria) == Failure(ChoiceTooMany) <==>
              criteria.Obj? && |criteria.fields| > 255 && forall f <- criteria.fields :: !Blank(f.key)
    ensures ScoreOf(criteria).Success? <==>
              criteria.Arr? && 2 <= |criteria.items| <= 10 && forall v <- criteria.items :: v.Str? && !Blank(v.text)
    ensures NoulOf(criteria).Success? <==>
              || criteria == Null
              || (&& criteria.Obj? && KeySet(criteria.fields) == {"true", "false"}
                  && forall side <- ["true", "false"] ::
                       Get(criteria.fields, side).Str? && !Blank(Get(criteria.fields, side).text))
  {
    hide Blank, Get, KeySet;
    assert "true" in ["true", "false"] && "false" in ["true", "false"];
    if criteria.Obj? && KeySet(criteria.fields) == {"true", "false"}
       && Filled(Get(criteria.fields, "true")) && Filled(Get(criteria.fields, "false")) {
      forall side | side in ["true", "false"] ensures Filled(Get(criteria.fields, side)) {
      }
    }
  }

  // ---------------------------------------------------------------- the canonical payload

  function QuestionPayload(q: Question): Field {
    Field(q.id, Obj([Field("type", Str(KindName(q.kind))), Field("instructions", q.instructions),
                     Field("criteria", q.criteria)]))
  }

  function QuestionsPayload(questions: seq<Question>): Fields {
    seq(|questions|, i requires 0 <= i < |questions| => QuestionPayload(questions[i]))
  }

  function OptionsPayload(table: seq<Setting>, options: Options): Fields
    requires |options| == |table|
  {
    seq(|table|, i requires 0 <= i < |table| => Field(table[i].name, options[i]))
  }

  /** The request written out in full: every question and every option named. */
  function Canonical(table: seq<Setting>, r: Request): Json
    requires |r.options| == |table|
  {
    Obj(FiveFields(r.state, if r.model.Some? then Str(r.model.value) else Null, Obj(QuestionsPayload(r.questions)),
                   Str(r.format), Obj(OptionsPayload(table, r.options))))
  }

  function FiveFields(state: Json, model: Json, questions: Json, format: Json, options: Json): Fields {
    [Field("state", state), Field("model", model), Field("questions", questions), Field("format", format),
     Field("options", options)]
  }

  lemma {:induction false} QuestionsRoundTrip(questions: seq<Question>)
    requires forall q <- questions :: !Blank(q.id) && CandidatesOf(q.kind, q.criteria) == Success(q.candidates)
    ensures QuestionsFrom(QuestionsPayload(questions)) == Success(questions)
  {
    if questions != [] {
      QuestionsRoundTrip(questions[1..]);
      assert QuestionsPayload(questions)[1..] == QuestionsPayload(questions[1..]);
      var q := questions[0];
      QuestionRoundTrip(q);
      assert [q] + questions[1..] == questions;
    }
  }

  lemma {:induction false} QuestionRoundTrip(q: Question)
    requires CandidatesOf(q.kind, q.criteria) == Success(q.candidates)
    ensures QuestionOf(q.id, QuestionPayload(q).value) == Success(q)
  {
    var fields := QuestionPayload(q).value.fields;
    assert fields[0] == Field("type", Str(KindName(q.kind)));
    GetAt(fields, 0);
    GetAt(fields, 1);
    GetAt(fields, 2);
    assert KeySet(fields) <= QUESTION_KEYS;
  }

  lemma {:induction false} NormalAlready(table: seq<Setting>, values: seq<Json>)
    requires |values| == |table|
    requires forall i :: 0 <= i < |table| ==> Normalise(table[i].rule, values[i]) == Some(values[i])
    ensures NormaliseAll(table, values) == Some(values)
  {
    hide Normalise, NormaliseAll;
    NormaliseAllAt(table, values);
    assert NormaliseAll(table, values).value == values;
  }

  /** A payload that names every option once is where every chosen value comes from. */
  lemma {:induction false} PayloadChosen(table: seq<Setting>, options: Options)
    requires Fits(table) && |options| == |table|
    ensures var fields := OptionsPayload(table, options);
            && AllChosen(table, fields) == options && KeySet(fields) <= Names(table)
            && "strict" in KeySet(fields) && Get(fields, "strict") == options[STRICT]
  {
    var fields := OptionsPayload(table, options);
    hide Normalise, Get;
    forall i | 0 <= i < |table|
      ensures table[i].name in KeySet(fields) && Get(fields, table[i].name) == options[i]
    {
      assert fields[i].key == table[i].name;
      GetAt(fields, i);
    }
    assert table[STRICT].name == "strict";
  }

  /** Options that are all known are accepted as soon as every chosen value is in normal form. */
  lemma OptionsFrom(table: seq<Setting>, fields: Fields, values: Options)
    requires KeySet(fields) <= Names(table) && "strict" in KeySet(fields) && Get(fields, "strict").Flag?
    requires NormaliseAll(table, AllChosen(table, fields)) == Some(values)
    ensures OptionsOf(table, Obj(fields)) == Success(ParsedOptions(values, false))
  {
    hide KeySet, Names, Get, NormaliseAll, AllChosen;
  }

  lemma {:induction false} OptionsRoundTrip(table: seq<Setting>, options: Options)
    requires Fits(table) && |options| == |table|
    requires forall i :: 0 <= i < |table| ==> Normalise(table[i].rule, options[i]) == Some(options[i])
    ensures OptionsOf(table, Obj(OptionsPayload(table, options))) == Success(ParsedOptions(options, false))
  {
    assert STRICT < |table|;
    hide *;
    PayloadChosen(table, options);
    NormalAlready(table, options);
    OptionsFrom(table, OptionsPayload(table, options), options);
  }

  /** The canonical payload of a valid request is parsed back to that request, with nothing warned. */
  lemma {:induction false} CanonicalRoundTrip(table: seq<Setting>, r: Request)
    requires Fits(table) && Valid(table, r)
    ensures RequestOf(table, Canonical(table, r)) == Success(r.(warned := false))
  {
    QuestionsRoundTrip(r.questions);
    hide OptionsOf, QuestionsFrom, Get, KeySet, CandidatesOf, Normalise, Fits, Answerable, Ids, Canonical, RequestOf;
    CanonicalGets(table, r);
    OptionsRoundTrip(table, r.options);
    assert QuestionsOf(Obj(QuestionsPayload(r.questions))) == Success(r.questions);
    hide QuestionsOf, QuestionsPayload, OptionsPayload, StatePresent;
    ReadFrom(table, Canonical(table, r).fields, r);
  }

  /** A body whose keys hold what the canonical one's hold. */
  lemma ReadFrom(table: seq<Setting>, fields: Fields, r: Request)
    requires KeySet(fields) <= REQUEST_KEYS && "format" in KeySet(fields)
    requires Get(fields, "state") == r.state && StatePresent(r.state)
    requires Get(fields, "model") == if r.model.Some? then Str(r.model.value) else Null
    requires Get(fields, "format") == Str(r.format) && r.format in {"native", "typesafe"}
    requires QuestionsOf(Get(fields, "questions")) == Success(r.questions)
    requires OptionsOf(table, Get(fields, "options")) == Success(ParsedOptions(r.options, false))
    ensures RequestOf(table, Obj(fields)) == Success(r.(warned := false))
  {
    hide QuestionsOf, OptionsOf, Get, KeySet, StatePresent;
  }

  /** The number options of an accepted request are in range exactly when none of them is a special float. */
  lemma InRangeIff(table: seq<Setting>, r: Request)
    requires Valid(table, r)
    ensures (forall i :: 0 <= i < |table| && table[i].rule.Number? ==> r.options[i].Num? && InRange(table[i].rule, r.options[i].num))
       <==> (forall i :: 0 <= i < |table| && table[i].rule.Number? ==> !r.options[i].NotFinite?)
  {
    forall i | 0 <= i < |table| && table[i].rule.Number?
      ensures r.options[i].NotFinite? || (r.options[i].Num? && InRange(table[i].rule, r.options[i].num))
    {
      NumberNormal(table[i].rule, r.options[i]);
    }
    hide Normalise, InRange;
  }

  /** ... and NaN is taken for any of them: the request that has it there is valid and its payload accepted. */
  lemma NaNAccepted(table: seq<Setting>, r: Request, k: nat)
    requires Fits(table) && Valid(table, r) && k < |table| && table[k].rule.Number?
    ensures var odd := r.(options := r.options[k := NotFinite(NaN)]);
            Valid(table, odd) && RequestOf(table, Canonical(table, odd)) == Success(odd.(warned := false))
  {
    var odd := r.(options := r.options[k := NotFinite(NaN)]);
    NumberNormal(table[k].rule, NotFinite(NaN));
    assert Valid(table, odd) by {
      hide Normalise, Sensible, Ids;
    }
    hide *;
    CanonicalRoundTrip(table, odd);
  }

  lemma {:induction false} CanonicalGets(table: seq<Setting>, r: Request)
    requires |r.options| == |table|
    ensures var fields := Canonical(table, r).fields;
            && Get(fields, "state") == r.state
            && Get(fields, "model") == (if r.model.Some? then Str(r.model.value) else Null)
            && Get(fields, "questions") == Obj(QuestionsPayload(r.questions))
            && "format" in KeySet(fields) && Get(fields, "format") == Str(r.format)
            && Get(fields, "options") == Obj(OptionsPayload(table, r.options))
            && KeySet(fields) <= REQUEST_KEYS
  {
    hide QuestionsPayload, OptionsPayload, Get, KeySet, FiveFields;
    var model := if r.model.Some? then Str(r.model.value) else Null;
    FiveGets(r.state, model, Obj(QuestionsPayload(r.questions)), Str(r.format), Obj(OptionsPayload(table, r.options)));
  }

  lemma {:induction false} FiveGets(state: Json, model: Json, questions: Json, format: Json, options: Json)
    ensures var fields := FiveFields(state, model, questions, format, options);
            && Get(fields, "state") == state && Get(fields, "model") == model
            && Get(fields, "questions") == questions && Get(fields, "format") == format
            && Get(fields, "options") == options
            && "format" in KeySet(fields) && KeySet(fields) <= REQUEST_KEYS
  {
    var fields := FiveFields(state, model, questions, format, options);
    assert fields[0] == Field("state", state) && fields[1] == Field("model", model);
    assert fields[2] == Field("questions", questions) && fields[3] == Field("format", format);
    assert fields[4] == Field("options", options);
    hide Get;
    GetAt(fields, 0);
    GetAt(fields, 1);
    GetAt(fields, 2);
    GetAt(fields, 3);
    GetAt(fields, 4);
  }

  /** Writing an accepted request out in full and parsing it again changes nothing but drops the warning. */
  lemma {:induction false} ReparsedUnchanged(payload: Json)
    requires WellFormed(payload) && RequestOf(TABLE, payload).Success?
    ensures var r := RequestOf(TABLE, payload).value;
            |r.options| == |TABLE| && RequestOf(TABLE, Canonical(TABLE, r)) == Success(r.(warned := false))
  {
    hide RequestOf, Canonical, WellFormed;
    TableFits();
    AcceptedIsValid(TABLE, payload);
    CanonicalRoundTrip(TABLE, RequestOf(TABLE, payload).value);
  }

  // ---------------------------------------------------------------- unknown options

  /** The options of the table alone. */
  function Known(table: seq<Setting>, fields: Fields): Fields {
    if fields == [] then []
    else (if fields[0].key in Names(table) then [fields[0]] else []) + Known(table, fields[1..])
  }

  lemma {:induction false} KnownGets(table: seq<Setting>, fields: Fields, name: string)
    requires name in Names(table)
    ensures KeySet(Known(table, fields)) <= KeySet(fields)
    ensures name in KeySet(Known(table, fields)) <==> name in KeySet(fields)
    ensures Get(Known(table, fields), name) == Get(fields, name)
  {
    if fields != [] {
      KnownGets(table, fields[1..], name);
      var rest := Known(table, fields[1..]);
      assert KeySet(fields) == {fields[0].key} + KeySet(fields[1..]);
      if fields[0].key in Names(table) {
        var kept := [fields[0]] + rest;
        assert kept[1..] == rest;
        assert KeySet(kept) == {kept[0].key} + KeySet(kept[1..]);
        assert Known(table, fields) == kept;
      } else {
        assert Known(table, fields) == rest;
      }
    }
  }

  lemma {:induction false} KnownAreKnown(table: seq<Setting>, fields: Fields)
    ensures KeySet(Known(table, fields)) <= Names(table)
  {
    if fields != [] {
      KnownAreKnown(table, fields[1..]);
    }
  }

  /** Unknown option keys: rejected when strict, otherwise one warning and no other effect. */
  lemma {:induction false} UnknownOptionsDoNothing(table: seq<Setting>, fields: Fields)
    requires Fits(table) && !(KeySet(fields) <= Names(table))
    ensures Get(fields, "strict") == Flag(true) ==> OptionsOf(table, Obj(fields)) == Failure(UnknownKey)
    ensures Get(fields, "strict") != Flag(true) ==>
              var without := OptionsOf(table, Obj(Known(table, fields)));
              OptionsOf(table, Obj(fields)) ==
              if without.Failure? then without else Success(ParsedOptions(without.value.options, true))
    ensures OptionsOf(table, Obj(Known(table, fields))).Success? ==>
              !OptionsOf(table, Obj(Known(table, fields))).value.warned
  {
    var known := Known(table, fields);
    assert table[STRICT].name in Names(table);
    KnownGets(table, fields, "strict");
    KnownAreKnown(table, fields);
    forall i | 0 <= i < |table| ensures Chosen(table[i], known) == Chosen(table[i], fields) {
      assert table[i].name in Names(table);
      KnownGets(table, fields, table[i].name);
    }
    assert AllChosen(table, known) == AllChosen(table, fields);
  }

  // ---------------------------------------------------------------- the table itself

  function Position(name: string): nat {
    if name == "temperature" then 0 else if name == "length_norm" then 1
    else if name == "readout" then 2 else if name == "cue" then 3
    else if name == "chat_format" then 4 else if name == "json_contract" then 5
    else if name == "confidence_mode" then 6 else if name == "n_ctx" then 7
    else if name == "n_seq_max" then 8 else if name == "kv_type" then 9
    else if name == "coverage_floor" then 10 else if name == "seed" then 11
    else if name == "threads" then 12 else if name == "backend" then 13
    else if name == "state_id" then 14 else if name == "state_cache" then 15
    else if name == "save_state" then 16 else if name == "max_waves" then 17
    else if name == "strict" then 18 else if name == "template" then 19
    else if name == "thinking" then 20 else if name == "route" then 21
    else if name == "escalate" then 22 else 23
  }

  lemma {:induction false} NamesDiffer(i: nat)
    requires i < |TABLE|
    ensures Position(TABLE[i].name) == i
  {
    if i < 8 {
      FirstNames(i);
    } else if i < 16 {
      MiddleNames(i);
    } else {
      LastNames(i);
    }
  }

  lemma FirstNames(i: nat)
    requires i < 8
    ensures Position(TABLE[i].name) == i
  {
  }

  lemma MiddleNames(i: nat)
    requires 8 <= i < 16
    ensures Position(TABLE[i].name) == i
  {
  }

  lemma LastNames(i: nat)
    requires 16 <= i < |TABLE|
    ensures Position(TABLE[i].name) == i
  {
  }

  lemma {:induction false} DefaultNormal(i: nat)
    requires i < |TABLE|
    ensures Normalise(TABLE[i].rule, TABLE[i].default) == Some(TABLE[i].default)
  {
  }

  lemma {:induction false} TableFits()
    ensures Fits(TABLE)
  {
    hide Normalise, Position;
    forall i, j | 0 <= i < j < |TABLE| ensures TABLE[i].name != TABLE[j].name {
      NamesDiffer(i);
      NamesDiffer(j);
    }
    forall i | 0 <= i < |TABLE| ensures Normalise(TABLE[i].rule, TABLE[i].default) == Some(TABLE[i].default) {
      DefaultNormal(i);
    }
  }

  /** An absent option object, an empty one and one naming every default all mean the same. */
  lemma {:induction false} DefaultsAgree(table: seq<Setting>)
    requires Fits(table)
    ensures OptionsOf(table, Null) == OptionsOf(table, Obj([]))
    ensures OptionsOf(table, Null) == OptionsOf(table, Obj(OptionsPayload(table, Defaults(table))))
  {
    OptionsRoundTrip(table, Defaults(table));
    NormalAlready(table, Defaults(table));
    hide Normalise, NormaliseAll, Get;
    assert AllChosen(table, []) == Defaults(table);
  }

  // ---------------------------------------------------------------- the options a payload asks for

  /** `options.get(name, default)` of a payload. */
  function Given(payload: Json, name: string, default: Json): Json {
    if payload.Obj? && Get(payload.fields, "options").Obj? && name in KeySet(Get(payload.fields, "options").fields)
    then Get(Get(payload.fields, "options").fields, name) else default
  }

  /** Every option of an accepted request is the normal form of what the payload asks for under its name. */
  lemma {:induction false} OptionAsked(table: seq<Setting>, payload: Json, i: nat)
    requires Fits(table) && RequestOf(table, payload).Success? && i < |table|
    ensures |RequestOf(table, payload).value.options| == |table|
    ensures Normalise(table[i].rule, Given(payload, table[i].name, table[i].default))
            == Some(RequestOf(table, payload).value.options[i])
  {
    var raw := Get(payload.fields, "options");
    assert OptionsOf(table, raw).Success? && RequestOf(table, payload).value.options == OptionsOf(table, raw).value.options by {
      hide Fits, OptionsOf, QuestionsOf, Get, KeySet, StatePresent;
    }
    hide RequestOf, Normalise, Get, KeySet, QuestionsOf, Names;
    if raw.Obj? {
      NormaliseAllAt(table, AllChosen(table, raw.fields));
      hide NormaliseAll;
    }
  }

  /** ... which for a number is the same number, and for any option with no number and no stripping the value itself. */
  lemma GivenKept(payload: Json, i: nat, setting: Setting)
    requires RequestOf(TABLE, payload).Success? && i < |TABLE| && TABLE[i] == setting
    ensures |RequestOf(TABLE, payload).value.options| == |TABLE|
    ensures var v, given := RequestOf(TABLE, payload).value.options[i], Given(payload, setting.name, setting.default);
            && (setting.rule.Number? && v.Num? ==> IsNumber(given) && v.num == NumberOf(given))
            && (!setting.rule.Number? && !setting.rule.StrippedOrNull? ==> v == given)
            && (setting.rule.OneOf? ==> v.Str? && v.text in setting.rule.allowed)
            && (setting.rule.OneOfOrNull? ==> v.Null? || (v.Str? && v.text in setting.rule.allowed))
  {
    hide *;
    TableFits();
    OptionAsked(TABLE, payload, i);
    NormalKept(setting.rule, Given(payload, setting.name, setting.default), RequestOf(TABLE, payload).value.options[i]);
  }

  lemma NormalKept(rule: Rule, given: Json, v: Json)
    requires Normalise(rule, given) == Some(v)
    ensures rule.Number? && v.Num? ==> IsNumber(given) && v.num == NumberOf(given)
    ensures !rule.Number? && !rule.StrippedOrNull? ==> v == given
    ensures rule.OneOf? ==> v.Str? && v.text in rule.allowed
    ensures rule.OneOfOrNull? ==> v.Null? || (v.Str? && v.text in rule.allowed)
  {
    hide Blank, Strip;
  }
}
