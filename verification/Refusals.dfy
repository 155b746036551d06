/** Why a request is refused: the first thing wrong, in the order the checks are made. */
module Refusals {
  import opened Documents
  import opened Schema
  import opened Text
  import opened Wrappers

  // ---------------------------------------------------------------- option values

  /** The values each rule takes, beside the numbers. */
  lemma {:induction false} TakenIff(rule: Rule, v: Json)
    requires !rule.Number?
    ensures Normalise(rule, v).Some? <==>
            match rule
            case Number(_, _, _) => false
            case OneOf(allowed) => exists text :: text in allowed && v == Str(text)
            case OneOfOrNull(allowed) => v == Null || exists text :: text in allowed && v == Str(text)
            case Whole => exists n :: v == Int(n)
            case WholeFrom(least) => exists n :: n >= least && v == Int(n)
            case WholeFromOrNull(least) => v == Null || exists n :: n >= least && v == Int(n)
            case TextOrNull => v == Null || exists text :: !Blank(text) && v == Str(text)
            case StrippedOrNull => v == Null || exists text :: !Blank(text) && v == Str(text)
            case Boolean => v == Flag(true) || v == Flag(false)
    ensures Normalise(rule, v).Some? && !rule.StrippedOrNull? ==> Normalise(rule, v) == Some(v)
    ensures Normalise(rule, v).Some? && rule.StrippedOrNull? && v.Str? ==> Normalise(rule, v) == Some(Str(Strip(v.text)))
  {
    hide Blank, Strip;
    if v.Str? {
      assert v == Str(v.text);
    }
    if v.Int? {
      assert v == Int(v.whole);
    }
  }

  /** The numbers a number option takes, whole ones as the same real number. */
  lemma {:induction false} NumberTaken(rule: Rule, v: Json)
    requires rule.Number? && IsNumber(v) && !Overflows(v)
    ensures var x := NumberOf(v);
            Normalise(rule, v).Some? <==>
              && (x > rule.low || (rule.inclusive && x == rule.low)) && (rule.high.Some? ==> x <= rule.high.value)
    ensures Normalise(rule, v).Some? ==> Normalise(rule, v) == Some(Num(NumberOf(v)))
  {
  }

  ghost predicate Among(v: Json, texts: seq<string>) {
    exists i :: 0 <= i < |texts| && v == Str(texts[i])
  }

  ghost predicate WholeAtLeast(v: Json, least: int) {
    v.Int? && v.whole >= least
  }

  ghost predicate SomeText(v: Json) {
    v.Str? && !Blank(v.text)
  }

  /** A number in the range, or a special float no comparison refuses. */
  ghost predicate NumberAbove(v: Json, zero: bool, one: bool) {
    || v == NotFinite(NaN) || (v == NotFinite(Infinity) && !one)
    || (IsNumber(v) && (NumberOf(v) > 0.0 || (zero && NumberOf(v) == 0.0)) && (one ==> NumberOf(v) <= 1.0))
  }

  /** The options that shape the answer. */
  ghost predicate ReadoutOptions(payload: Json) {
    && NumberAbove(Given(payload, "temperature", Num(1.0)), false, false)
    && NumberAbove(Given(payload, "length_norm", Num(1.0)), true, false)
    && NumberAbove(Given(payload, "coverage_floor", Num(0.10)), true, true)
    && Among(Given(payload, "readout", Str("sequence")), ["sequence", "single_token"])
    && Among(Given(payload, "cue", Str("json_instructed")), ["shipped", "two_step", "json_field", "json_instructed"])
    && (var mode := Given(payload, "confidence_mode", Null); mode == Null || Among(mode, ["normalized_peak", "entropy", "margin"]))
  }

  /** The options that shape the prompt. */
  ghost predicate PromptOptions(payload: Json) {
    && Among(Given(payload, "chat_format", Str("role_split")), ["answer_sheet", "role_split"])
    && Among(Given(payload, "json_contract", Str("question")), ["question", "system"])
    && (var template := Given(payload, "template", Null); template == Null || SomeText(template))
    && Given(payload, "thinking", Flag(false)).Flag?
    && Given(payload, "strict", Flag(false)).Flag?
  }

  /** The options that shape the context. */
  ghost predicate ContextOptions(payload: Json) {
    && (var n := Given(payload, "n_ctx", Null); n == Null || WholeAtLeast(n, 1))
    && (var n := Given(payload, "n_seq_max", Null); n == Null || WholeAtLeast(n, 3))
    && (var n := Given(payload, "threads", Null); n == Null || WholeAtLeast(n, 1))
    && (var n := Given(payload, "max_waves", Null); n == Null || WholeAtLeast(n, 1))
    && Among(Given(payload, "kv_type", Str("auto")), ["auto", "f16", "q8_0", "q4_0"])
    && Among(Given(payload, "backend", Str("auto")), ["auto", "cpu", "vulkan", "cuda", "metal"])
    && Given(payload, "seed", Int(0)).Int?
  }

  /** The options that shape what is kept and where a request goes. */
  ghost predicate ServiceOptions(payload: Json) {
    && (var id := Given(payload, "state_id", Null); id == Null || SomeText(id))
    && Given(payload, "state_cache", Flag(true)).Flag?
    && Given(payload, "save_state", Flag(false)).Flag?
    && Among(Given(payload, "route", Str("off")), ["off", "auto"])
    && Given(payload, "escalate", Flag(false)).Flag?
    && WholeAtLeast(Given(payload, "max_escalations", Int(1)), 0)
  }

  /** What a setting takes, by its rule. */
  ghost predicate Takes(rule: Rule, v: Json) {
    match rule
    case Number(low, zero, high) => low == 0.0 && (high.Some? ==> high.value == 1.0) ==> NumberAbove(v, zero, high.Some?)
    case OneOf(texts) => Among(v, texts)
    case OneOfOrNull(texts) => v == Null || Among(v, texts)
    case Whole => v.Int?
    case WholeFrom(least) => WholeAtLeast(v, least)
    case WholeFromOrNull(least) => v == Null || WholeAtLeast(v, least)
    case TextOrNull => v == Null || SomeText(v)
    case StrippedOrNull => v == Null || SomeText(v)
    case Boolean => v.Flag?
  }

  lemma TakenMeans(rule: Rule, v: Json)
    requires Normalise(rule, v).Some?
    ensures Takes(rule, v)
  {
    hide Blank, Strip;
    if v.Str? && (rule.OneOf? || rule.OneOfOrNull?) {
      var i :| 0 <= i < |rule.allowed| && rule.allowed[i] == v.text;
    }
  }

  lemma OptionTaken(payload: Json, i: nat)
    requires RequestOf(TABLE, payload).Success? && i < |TABLE|
    ensures Takes(TABLE[i].rule, Given(payload, TABLE[i].name, TABLE[i].default))
  {
    hide *;
    TableFits();
    OptionAsked(TABLE, payload, i);
    TakenMeans(TABLE[i].rule, Given(payload, TABLE[i].name, TABLE[i].default));
  }

  /** Every option an accepted payload gives is one the program takes, under its name or by default. */
  lemma {:induction false} AcceptedOptions(payload: Json)
    requires RequestOf(TABLE, payload).Success?
    ensures ReadoutOptions(payload) && PromptOptions(payload) && ContextOptions(payload) && ServiceOptions(payload)
  {
    hide *;
    ReadoutTaken(payload);
    PromptTaken(payload);
    ContextTaken(payload);
    ServiceTaken(payload);
  }

  lemma ReadoutTaken(payload: Json)
    requires RequestOf(TABLE, payload).Success?
    ensures ReadoutOptions(payload)
  {
    hide RequestOf, Given, NumberAbove, Among;
    OptionTaken(payload, 0);
    OptionTaken(payload, 1);
    OptionTaken(payload, 2);
    OptionTaken(payload, 3);
    OptionTaken(payload, 6);
    OptionTaken(payload, 10);
  }

  lemma PromptTaken(payload: Json)
    requires RequestOf(TABLE, payload).Success?
    ensures PromptOptions(payload)
  {
    hide RequestOf, Given, Among, SomeText;
    OptionTaken(payload, 4);
    OptionTaken(payload, 5);
    OptionTaken(payload, 18);
    OptionTaken(payload, 19);
    OptionTaken(payload, 20);
  }

  lemma ContextTaken(payload: Json)
    requires RequestOf(TABLE, payload).Success?
    ensures ContextOptions(payload)
  {
    hide RequestOf, Given, Among, WholeAtLeast;
    OptionTaken(payload, 7);
    OptionTaken(payload, 8);
    OptionTaken(payload, 9);
    OptionTaken(payload, 11);
    OptionTaken(payload, 12);
    OptionTaken(payload, 13);
    OptionTaken(payload, 17);
  }

  lemma ServiceTaken(payload: Json)
    requires RequestOf(TABLE, payload).Success?
    ensures ServiceOptions(payload)
  {
    hide RequestOf, Given, Among, SomeText, WholeAtLeast;
    OptionTaken(payload, 14);
    OptionTaken(payload, 15);
    OptionTaken(payload, 16);
    OptionTaken(payload, 21);
    OptionTaken(payload, 22);
    OptionTaken(payload, 23);
  }

  // ---------------------------------------------------------------- one question

  /** How a question's body is refused. */
  ghost predicate QuestionRefused(body: Json, code: Code) {
    if !body.Obj? then code == TypeUnknown
    else if !(KeySet(body.fields) <= {"type", "instructions", "criteria"}) then code == UnknownKey
    else
      var kind, criteria := Get(body.fields, "type"), Get(body.fields, "criteria");
      if kind == Str("choice") then
        if criteria.Obj? && criteria.fields != [] && forall f <- criteria.fields :: !Blank(f.key)
        then |criteria.fields| > 255 && code == ChoiceTooMany
        else code == ChoiceCriteria
      else if kind == Str("score") then
        !(criteria.Arr? && 2 <= |criteria.items| <= 10 && forall v <- criteria.items :: v.Str? && !Blank(v.text)) && code == ScoreLevels
      else if kind == Str("noul") then criteria != Null && code == NoulCriteria
      else code == TypeUnknown
  }

  lemma QuestionRefusal(id: string, body: Json)
    requires QuestionOf(id, body).Failure?
    ensures QuestionRefused(body, QuestionOf(id, body).error)
  {
    if body.Obj? {
      CandidatesIff(Get(body.fields, "criteria"));
    }
    hide Get, KeySet, Blank, Filled, LevelNames;
  }

  /** The questions up to a refused one are in order; a blank id is refused before the question under it is read. */
  ghost predicate QuestionsRefused(fields: Fields, k: nat, code: Code) {
    && k < |fields| && (forall i :: 0 <= i < k ==> !Blank(fields[i].key) && QuestionOf(fields[i].key, fields[i].value).Success?)
    && if Blank(fields[k].key) then code == QidInvalid
       else QuestionOf(fields[k].key, fields[k].value).Failure? && QuestionRefused(fields[k].value, code)
  }

  lemma {:induction false} QuestionsRefusal(fields: Fields) returns (k: nat)
    requires QuestionsFrom(fields).Failure?
    ensures QuestionsRefused(fields, k, QuestionsFrom(fields).error)
  {
    hide QuestionOf, Blank, QuestionRefused;
    if Blank(fields[0].key) {
      k := 0;
    } else if QuestionOf(fields[0].key, fields[0].value).Failure? {
      QuestionRefusal(fields[0].key, fields[0].value);
      k := 0;
    } else {
      var rest := QuestionsRefusal(fields[1..]);
      k := rest + 1;
      forall i | 0 <= i < k ensures !Blank(fields[i].key) && QuestionOf(fields[i].key, fields[i].value).Success? {
        assert i > 0 ==> fields[i] == fields[1..][i - 1];
      }
      assert fields[k] == fields[1..][rest];
    }
  }

  // ---------------------------------------------------------------- the request

  ghost predicate Present(state: Json) {
    || (state.Str? && !Blank(state.text)) || (state.Arr? && state.items != []) || (state.Obj? && state.fields != [])
  }

  /** How a request is refused: other keys, no state, a model or a format of the wrong kind, an option, a question. */
  ghost predicate Refused(payload: Json, code: Code) {
    if !payload.Obj? || !(KeySet(payload.fields) <= {"state", "model", "questions", "format", "options"}) then code == UnknownKey
    else
      var fields := payload.fields;
      var model, options, questions := Get(fields, "model"), Get(fields, "options"), Get(fields, "questions");
      if !Present(Get(fields, "state")) then code == StateEmpty
      else if !model.Null? && !model.Str? then code == UnknownKey
      else if "format" in KeySet(fields) && Get(fields, "format") != Str("native") && Get(fields, "format") != Str("typesafe")
      then code == UnknownKey
      else if OptionsOf(TABLE, options).Failure? then OptionsOf(TABLE, options).error == code && code in {UnknownKey, FloatOverflow}
      else if !questions.Obj? || questions.fields == [] then code == QidInvalid
      else exists k :: QuestionsRefused(questions.fields, k, code)
  }

  lemma {:induction false} RefusalCode(table: seq<Setting>, values: seq<Json>)
    requires |values| == |table|
    ensures Schema.Refusal(table, values) in {UnknownKey, FloatOverflow}
  {
    if table != [] {
      RefusalCode(table[1..], values[1..]);
    }
  }

  lemma OptionsRefusal(options: Json)
    requires OptionsOf(TABLE, options).Failure?
    ensures OptionsOf(TABLE, options).error in {UnknownKey, FloatOverflow}
  {
    hide TABLE, Normalise, NormaliseAll, Get, KeySet, Names;
    if options.Obj? {
      RefusalCode(TABLE, AllChosen(TABLE, options.fields));
    }
  }

  lemma {:induction false} NothingRefused(fields: Fields, k: nat)
    requires QuestionsFrom(fields).Success? && k < |fields|
    ensures !Blank(fields[k].key) && QuestionOf(fields[k].key, fields[k].value).Success?
  {
    hide QuestionOf, Blank;
    if k > 0 {
      NothingRefused(fields[1..], k - 1);
    }
  }

  lemma QuestionsReached(questions: Json)
    requires questions.Obj? && questions.fields != []
    ensures QuestionsOf(questions).Failure? ==> exists k :: QuestionsRefused(questions.fields, k, QuestionsOf(questions).error)
    ensures QuestionsOf(questions).Success? ==> forall k, code :: !QuestionsRefused(questions.fields, k, code)
  {
    var fields := questions.fields;
    hide QuestionsFrom, QuestionOf, Blank, QuestionRefused;
    if QuestionsFrom(fields).Failure? {
      var k := QuestionsRefusal(fields);
    } else {
      forall k: nat, code | k < |fields| ensures !QuestionsRefused(fields, k, code) {
        NothingRefused(fields, k);
      }
    }
  }

  /** The code of a refusal names the first thing wrong, and in what is accepted nothing is. */
  lemma {:induction false} RefusedFor(payload: Json)
    ensures RequestOf(TABLE, payload).Failure? ==> Refused(payload, RequestOf(TABLE, payload).error)
    ensures RequestOf(TABLE, payload).Success? ==> forall code :: !Refused(payload, code)
  {
    if payload.Obj? {
      var options, questions := Get(payload.fields, "options"), Get(payload.fields, "questions");
      PresentIff(Get(payload.fields, "state"));
      if OptionsOf(TABLE, options).Failure? {
        OptionsRefusal(options);
      }
      if questions.Obj? && questions.fields != [] {
        QuestionsReached(questions);
      }
    }
    hide TABLE, OptionsOf, QuestionsFrom, QuestionsRefused, Get, KeySet, StatePresent, Present;
  }

  lemma PresentIff(state: Json)
    ensures StatePresent(state) <==> Present(state)
  {
    hide Blank;
  }
}
