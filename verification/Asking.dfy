/** `ask`: from a whole command line to the request, and the file that asks the same. */
module Asking {
  import opened CommandLine
  import opened Documents
  import opened Schema
  import opened Wrappers

  // ---------------------------------------------------------------- the request body

  /** `body[key] = value`. */
  function SetField(fields: Fields, key: string, value: Json): Fields {
    if fields == [] then [Field(key, value)]
    else if fields[0].key == key then [Field(key, value)] + fields[1..]
    else [fields[0]] + SetField(fields[1..], key, value)
  }

  function Overlaid(fields: Fields, key: string, value: Json): Fields {
    if value.Null? then fields else SetField(fields, key, value)
  }

  /** The body of a file: a bare map of questions stands for the map under `questions`. */
  function Wrapped(payload: Fields): Fields {
    if "questions" in KeySet(payload) then payload else [Field("questions", Obj(payload))]
  }

  /** `dict.update`. */
  function Updated(fields: Fields, more: Fields): Fields
    decreases |more|
  {
    if more == [] then fields else Updated(SetField(fields, more[0].key, more[0].value), more[1..])
  }

  /** `dict(item)` wants pairs: lists of two, and by the way texts of two characters and objects of two keys. */
  function PairOf(item: Json): Option<Field> {
    match item
    case Arr(parts) => if |parts| == 2 && parts[0].Str? then Some(Field(parts[0].text, parts[1])) else None
    case Str(text) => if |text| == 2 then Some(Field([text[0]], Str([text[1]]))) else None
    case Obj(fields) => if |fields| == 2 then Some(Field(fields[0].key, Str(fields[1].key))) else None
    case _ => None
  }

  /** The items that are pairs, and the pairs they are. */
  lemma PairsTaken(item: Json, key: string, value: Json, a: char, b: char, f: Field, g: Field)
    ensures PairOf(Arr([Str(key), value])) == Some(Field(key, value))
    ensures PairOf(Str([a, b])) == Some(Field([a], Str([b]))) && PairOf(Obj([f, g])) == Some(Field(f.key, Str(g.key)))
    ensures PairOf(item).Some? ==>
              (item.Arr? && |item.items| == 2 && item.items[0].Str?) || (item.Str? && |item.text| == 2) || (item.Obj? && |item.fields| == 2)
  {
  }

  function PairsOf(items: seq<Json>): Option<Fields> {
    if items == [] then Some([])
    else
      var first, rest := PairOf(items[0]), PairsOf(items[1..]);
      if first.None? || rest.None? then None else Some([first.value] + rest.value)
  }

  /** `dict(value or {})`, none where it raises. */
  function DictOf(v: Json): Option<Fields> {
    if Falsy(v) then Some([])
    else
      match v
      case Obj(fields) => Some(fields)
      case Arr(items) => if PairsOf(items).Some? then Some(Updated([], PairsOf(items).value)) else None
      case _ => None
  }

  /** The engine options given as flags, laid over those of the body. */
  function WithOptions(body: Fields, engine: Fields): Option<Fields> {
    var given := DictOf(Get(body, "options"));
    if given.None? then None
    else
      var merged := Updated(given.value, engine);
      Some(if merged == [] then body else SetField(body, "options", Obj(merged)))
  }

  /** `engine_request_payload`, none where the body's own options are no dictionary and it raises. */
  function RequestPayload(payload: Fields, state: Json, model: Json, format: Json, engine: Fields): Option<Fields> {
    WithOptions(Overlaid(Overlaid(Overlaid(Wrapped(payload), "state", state), "model", model), "format", format), engine)
  }

  lemma {:induction false} SetGets(fields: Fields, key: string, value: Json, other: string)
    ensures Get(SetField(fields, key, value), other) == if other == key then value else Get(fields, other)
    ensures KeySet(SetField(fields, key, value)) == KeySet(fields) + {key}
  {
    var after := SetField(fields, key, value);
    if fields == [] {
      assert after == [Field(key, value)] && after[0].key in KeySet(after);
    } else {
      SetGets(fields[1..], key, value, other);
      KeysSplit(fields);
      KeysSplit(after);
      if fields[0].key == key {
        assert after[1..] == fields[1..];
      } else {
        assert after[1..] == SetField(fields[1..], key, value);
      }
    }
  }

  lemma KeysSplit(fields: Fields)
    requires fields != []
    ensures KeySet(fields) == {fields[0].key} + KeySet(fields[1..])
  {
    forall k | k in KeySet(fields) ensures k in {fields[0].key} + KeySet(fields[1..]) {
      var i :| 0 <= i < |fields| && fields[i].key == k;
      assert i > 0 ==> fields[1..][i - 1].key == k;
    }
    forall k | k in KeySet(fields[1..]) ensures k in KeySet(fields) {
      var i :| 0 <= i < |fields[1..]| && fields[1..][i].key == k;
      assert fields[i + 1].key == k;
    }
    assert fields[0].key in KeySet(fields);
  }

  lemma OverlaidGets(fields: Fields, key: string, value: Json, other: string)
    ensures Get(Overlaid(fields, key, value), other) == if other == key && !value.Null? then value else Get(fields, other)
    ensures KeySet(Overlaid(fields, key, value)) == KeySet(fields) + if value.Null? then {} else {key}
  {
    SetGets(fields, key, value, other);
    hide Get, KeySet, SetField;
  }

  lemma WithOptionsGets(body: Fields, engine: Fields, other: string)
    requires other != "options" && WithOptions(body, engine).Some?
    ensures Get(WithOptions(body, engine).value, other) == Get(body, other)
    ensures KeySet(body) <= KeySet(WithOptions(body, engine).value) <= KeySet(body) + {"options"}
  {
    var merged := Updated(DictOf(Get(body, "options")).value, engine);
    SetGets(body, "options", Obj(merged), other);
    hide Get, KeySet, SetField, Updated, DictOf;
  }

  /** Every key but the overlaid ones keeps what the wrapped body says. */
  lemma PayloadGets(payload: Fields, state: Json, model: Json, format: Json, engine: Fields)
    requires RequestPayload(payload, state, model, format, engine).Some?
    ensures var body, wrapped := RequestPayload(payload, state, model, format, engine).value, Wrapped(payload);
            && Get(body, "questions") == Get(wrapped, "questions")
            && Get(body, "state") == (if state.Null? then Get(wrapped, "state") else state)
            && Get(body, "model") == (if model.Null? then Get(wrapped, "model") else model)
            && Get(body, "format") == (if format.Null? then Get(wrapped, "format") else format)
            && ("format" in KeySet(body) <==> "format" in KeySet(wrapped) || !format.Null?)
            && KeySet(body) <= KeySet(wrapped) + {"state", "model", "format", "options"}
  {
    var wrapped := Wrapped(payload);
    var one := Overlaid(wrapped, "state", state);
    var two := Overlaid(one, "model", model);
    var three := Overlaid(two, "format", format);
    hide Get, KeySet, Overlaid, WithOptions, Wrapped;
    forall key | key in {"questions", "state", "model", "format"}
      ensures Get(RequestPayload(payload, state, model, format, engine).value, key) == Get(three, key)
    {
      WithOptionsGets(three, engine, key);
    }
    WithOptionsGets(three, engine, "format");
    OverlaidThrice(wrapped, state, model, format, "questions");
    OverlaidThrice(wrapped, state, model, format, "state");
    OverlaidThrice(wrapped, state, model, format, "model");
    OverlaidThrice(wrapped, state, model, format, "format");
  }

  lemma OverlaidThrice(wrapped: Fields, state: Json, model: Json, format: Json, key: string)
    ensures var three := Overlaid(Overlaid(Overlaid(wrapped, "state", state), "model", model), "format", format);
            && Get(three, key) == (if key == "format" && !format.Null? then format
                                   else if key == "model" && !model.Null? then model
                                   else if key == "state" && !state.Null? then state else Get(wrapped, key))
            && ("format" in KeySet(three) <==> "format" in KeySet(wrapped) || !format.Null?)
            && KeySet(three) <= KeySet(wrapped) + {"state", "model", "format"}
  {
    hide Get, KeySet, Overlaid;
    var one := Overlaid(wrapped, "state", state);
    var two := Overlaid(one, "model", model);
    OverlaidGets(wrapped, "state", state, key);
    OverlaidGets(one, "model", model, key);
    OverlaidGets(two, "format", format, key);
  }

  // ---------------------------------------------------------------- a bare map of questions

  /** No object is one of its own values. */
  lemma NotItself(payload: Fields, key: string)
    ensures Get(payload, key) != Obj(payload)
  {
    if key in KeySet(payload) {
      var i :| 0 <= i < |payload| && payload[i] == Field(key, Get(payload, key));
      assert payload[i].value < Obj(payload);
    }
  }

  lemma WrappedGets(questions: Json)
    ensures var wrapped := [Field("questions", questions)];
            Get(wrapped, "questions") == questions && KeySet(wrapped) == {"questions"} && Wrapped(wrapped) == wrapped
  {
    var wrapped := [Field("questions", questions)];
    assert wrapped[0].key == "questions" && "questions" in KeySet(wrapped);
  }

  /** The body is made exactly when `dict()` takes the options of the wrapped one. */
  lemma PayloadMade(payload: Fields, state: Json, model: Json, format: Json, engine: Fields)
    ensures RequestPayload(payload, state, model, format, engine).Some? <==> DictOf(Get(Wrapped(payload), "options")).Some?
  {
    OverlaidThrice(Wrapped(payload), state, model, format, "options");
    hide Get, KeySet, Overlaid, Wrapped, DictOf, SetField, Updated;
  }

  lemma WrappedOptions(questions: Json)
    ensures Get([Field("questions", questions)], "options") == Null && DictOf(Null) == Some([])
  {
  }

  /** A bare map of questions is read as the same map under "questions" exactly when none of them is called
      "questions": with one of that name the body is taken for a whole request. */
  lemma BareMapIff(payload: Fields, state: Json, model: Json, format: Json, engine: Fields)
    ensures RequestPayload(payload, state, model, format, engine)
            == RequestPayload([Field("questions", Obj(payload))], state, model, format, engine)
            <==> "questions" !in KeySet(payload)
  {
    WrappedGets(Obj(payload));
    if "questions" in KeySet(payload) {
      var bare := RequestPayload(payload, state, model, format, engine);
      assert Wrapped(payload) == payload;
      WrappedOptions(Obj(payload));
      NotItself(payload, "questions");
      hide *;
      PayloadMade([Field("questions", Obj(payload))], state, model, format, engine);
      PayloadGets([Field("questions", Obj(payload))], state, model, format, engine);
      if bare.Some? {
        PayloadGets(payload, state, model, format, engine);
      }
    }
  }

  /** ... and the request it is taken for keeps that one question's body as the whole set of questions, or is
      never made because its "options" are no dictionary. */
  lemma BareMapMisread(payload: Fields, state: Json, model: Json, format: Json, engine: Fields)
    requires "questions" in KeySet(payload)
    ensures Get(payload, "questions") != Obj(payload)
    ensures var body := RequestPayload(payload, state, model, format, engine);
            if DictOf(Get(payload, "options")).Some? then body.Some? && Get(body.value, "questions") == Get(payload, "questions")
            else body.None?
  {
    NotItself(payload, "questions");
    assert Wrapped(payload) == payload;
    hide *;
    PayloadMade(payload, state, model, format, engine);
    if RequestPayload(payload, state, model, format, engine).Some? {
      PayloadGets(payload, state, model, format, engine);
    }
  }

  // ---------------------------------------------------------------- a whole command line

  function LastOf(values: seq<string>): Option<string> {
    if values == [] then None else Some(values[|values| - 1])
  }

  /** `options.get(key)` of an option that takes a value. */
  function TextGiven(options: CommandLine.Options, key: string): Option<string> {
    if key in options && options[key].One? then Some(options[key].text) else None
  }

  function OrNull(text: Option<string>): Json {
    if text.Some? then Str(text.value) else Null
  }

  /** What reading a file gives: its text, its JSON; nothing where it is missing or is no JSON. */
  datatype Files = Files(text: string -> Option<string>, json: string -> Option<Json>)

  /** `_load_state_argument`. */
  function LoadState(files: Files, value: Option<string>, jsonPath: Option<string>): Result<Json, Code> {
    if jsonPath.Some? && jsonPath.value != "" then
      var read := files.json(jsonPath.value);
      if read.None? then Failure(UnknownKey) else Success(read.value)
    else if value.None? then Success(Null)
    else if value.value != "" && value.value[0] == '@' then
      var read := files.text(value.value[1..]);
      if read.None? then Failure(UnknownKey) else Success(Str(read.value))
    else Success(Str(value.value))
  }

  /** A JSON file before a text, a text after an at sign from a file, any other text as it stands, no text as nothing. */
  lemma StateLoaded(files: Files, text: string, name: string, value: Option<string>, path: string)
    requires path != "" && (text == "" || text[0] != '@')
    ensures LoadState(files, value, Some(path))
         == if files.json(path).None? then Failure(UnknownKey) else Success(files.json(path).value)
    ensures LoadState(files, value, Some("")) == LoadState(files, value, None)
    ensures LoadState(files, Some("@" + name), None)
         == if files.text(name).None? then Failure(UnknownKey) else Success(Str(files.text(name).value))
    ensures LoadState(files, Some(text), None) == Success(Str(text)) && LoadState(files, None, None) == Success(Null)
  {
    assert ("@" + name)[0] == '@' && ("@" + name)[1..] == name;
  }

  /** `_cmd_ask` up to the request body. `engine` stands for `_engine_options`, which casts the other flags. */
  function AskBody(parsed: Parsed, files: Files, engine: CommandLine.Options -> Result<Fields, Code>): Result<Fields, Code> {
    var options := parsed.options;
    if parsed.positionals != [] then Failure(UnknownKey)
    else if "state" !in options && "state_json" !in options then Failure(StateEmpty)
    else
      var questions :- QuestionsAsked(options);
      var state :- LoadState(files, TextGiven(options, "state"), TextGiven(options, "state_json"));
      var extra :- engine(options);
      var body := RequestPayload([Field("questions", Obj(questions))], state, OrNull(TextGiven(options, "model")),
                                 OrNull(TextGiven(options, "format")), extra);
      if body.Some? then Success(body.value) else Failure(UnknownKey)
  }

  /** A command that declares what `ask` declares, as far as the request goes. */
  ghost predicate Asks(d: Declared) {
    d.flags !! d.repeats && d.repeats == {"choice", "score", "noul"} && {"state", "state_json", "model", "format"} !! d.flags
  }

  /** Any spoken command line, in any order and with any other flags, whose question flags print `qs`. */
  ghost predicate Prints(d: Declared, ts: seq<Token>, qs: seq<Question>) {
    && (forall t <- ts :: Spoken(d, t))
    && (forall kind: Kind :: Values(ts, KindName(kind)) == SpecsOf(Of(qs, kind)))
  }

  lemma ParsedSpecs(d: Declared, ts: seq<Token>, options: CommandLine.Options, qs: seq<Question>, kind: Kind)
    requires Asks(d) && Prints(d, ts, qs)
    requires Held(options, KindName(kind)) == Collected(d, ts, KindName(kind), None)
    ensures Specs(options, kind) == SpecsOf(Of(qs, kind))
  {
    var key := KindName(kind);
    assert key in d.repeats && key !in d.flags;
    NotBoth(d, ts, key);
    assert Values(ts, key) == SpecsOf(Of(qs, kind));
    hide Values, Switched, Of, SpecsOf, KindName, Spoken;
    GatheredNothing(Values(ts, key));
    hide Gathered;
  }

  lemma ParsedText(d: Declared, ts: seq<Token>, options: CommandLine.Options, key: string)
    requires d.flags !! d.repeats && key !in d.flags && key !in d.repeats && forall t <- ts :: Spoken(d, t)
    requires Held(options, key) == Collected(d, ts, key, None)
    ensures TextGiven(options, key) == LastOf(Values(ts, key))
    ensures key in options <==> Values(ts, key) != []
  {
    NotBoth(d, ts, key);
    hide Values, Switched, Spoken;
  }

  /** What the argument loop makes of such a command line. */
  lemma AskParsed(d: Declared, ts: seq<Token>, qs: seq<Question>, key: string)
    requires Asks(d) && Prints(d, ts, qs)
    ensures ArgsFrom(d, PrintAll(ts), [], map[]).Success?
    ensures var parsed := ArgsFrom(d, PrintAll(ts), [], map[]).value;
            parsed.positionals == Words(ts) && Held(parsed.options, key) == Collected(d, ts, key, None)
  {
    hide *;
    NothingHeld(d, key);
    PrintsSpoken(d, ts, qs);
    PrintedIsParsed(d, ts, [], map[], key);
    assert [] + Words(ts) == Words(ts);
  }

  lemma PrintsSpoken(d: Declared, ts: seq<Token>, qs: seq<Question>)
    requires Asks(d) && Prints(d, ts, qs)
    ensures d.flags !! d.repeats && forall t <- ts :: Spoken(d, t)
  {
    hide Spoken;
  }

  lemma NothingHeld(d: Declared, key: string)
    ensures Held(map[], key) == None && ListsHeld(d, map[])
  {
  }

  /** The command line and the file ask the same: whatever else is on the line, `ask` makes the body that
      `run` makes of a file with the same questions sorted by type, the last state, model and format given
      and the engine options of the same flags. */
  lemma AskIsAFile(d: Declared, ts: seq<Token>, qs: seq<Question>, files: Files,
                   engine: CommandLine.Options -> Result<Fields, Code>)
    requires Asks(d) && Prints(d, ts, qs) && qs != [] && AllSpeakable(qs)
    ensures ArgsFrom(d, PrintAll(ts), [], map[]).Success?
    ensures var parsed := ArgsFrom(d, PrintAll(ts), [], map[]).value;
            var state := LoadState(files, LastOf(Values(ts, "state")), LastOf(Values(ts, "state_json")));
            if Words(ts) != [] then AskBody(parsed, files, engine) == Failure(UnknownKey)
            else if Values(ts, "state") == [] && Values(ts, "state_json") == [] then
              AskBody(parsed, files, engine) == Failure(StateEmpty)
            else if state.Failure? then AskBody(parsed, files, engine) == Failure(state.error)
            else if engine(parsed.options).Failure? then AskBody(parsed, files, engine) == Failure(engine(parsed.options).error)
            else
              var body := RequestPayload([Field("questions", Obj(FileFields(ByKind(qs))))], state.value,
                                         OrNull(LastOf(Values(ts, "model"))), OrNull(LastOf(Values(ts, "format"))),
                                         engine(parsed.options).value);
              body.Some? && AskBody(parsed, files, engine) == Success(body.value)
  {
    AskParsed(d, ts, qs, "");
    hide ArgsFrom, PrintAll, QuestionsAsked, RequestPayload, LoadState, Values, TextGiven, Prints, Words, FileFields, ByKind,
      AllSpeakable, LastOf, Collected, Held, Asks;
    TextParsed(d, ts, qs, "state");
    TextParsed(d, ts, qs, "state_json");
    TextParsed(d, ts, qs, "model");
    TextParsed(d, ts, qs, "format");
    QuestionsParsed(d, ts, qs);
    var parsed := ArgsFrom(d, PrintAll(ts), [], map[]).value;
    var state := LoadState(files, LastOf(Values(ts, "state")), LastOf(Values(ts, "state_json")));
    if state.Success? && engine(parsed.options).Success? {
      QuestionsAlone(Obj(FileFields(ByKind(qs))), state.value, OrNull(LastOf(Values(ts, "model"))),
                     OrNull(LastOf(Values(ts, "format"))), engine(parsed.options).value);
    }
  }

  /** A body of questions alone has no options to trip over. */
  lemma QuestionsAlone(questions: Json, state: Json, model: Json, format: Json, engine: Fields)
    ensures RequestPayload([Field("questions", questions)], state, model, format, engine).Some?
  {
    WrappedGets(questions);
    WrappedOptions(questions);
    hide *;
    PayloadMade([Field("questions", questions)], state, model, format, engine);
  }

  lemma TextParsed(d: Declared, ts: seq<Token>, qs: seq<Question>, key: string)
    requires Asks(d) && Prints(d, ts, qs) && key in {"state", "state_json", "model", "format"}
    ensures ArgsFrom(d, PrintAll(ts), [], map[]).Success?
    ensures var options := ArgsFrom(d, PrintAll(ts), [], map[]).value.options;
            TextGiven(options, key) == LastOf(Values(ts, key)) && (key in options <==> Values(ts, key) != [])
  {
    assert key !in d.flags && key !in d.repeats;
    hide *;
    AskParsed(d, ts, qs, key);
    PrintsSpoken(d, ts, qs);
    ParsedText(d, ts, ArgsFrom(d, PrintAll(ts), [], map[]).value.options, key);
  }

  lemma QuestionsParsed(d: Declared, ts: seq<Token>, qs: seq<Question>)
    requires Asks(d) && Prints(d, ts, qs) && qs != [] && AllSpeakable(qs)
    ensures ArgsFrom(d, PrintAll(ts), [], map[]).Success?
    ensures QuestionsAsked(ArgsFrom(d, PrintAll(ts), [], map[]).value.options) == Success(FileFields(ByKind(qs)))
  {
    hide *;
    AskParsed(d, ts, qs, "");
    var options := ArgsFrom(d, PrintAll(ts), [], map[]).value.options;
    forall kind: Kind ensures Specs(options, kind) == SpecsOf(Of(qs, kind)) {
      AskParsed(d, ts, qs, KindName(kind));
      ParsedSpecs(d, ts, options, qs, kind);
    }
    ByKindSpeakable(qs);
    AskedInOrder(options, qs);
  }

  /** ... and that body is accepted as the request of those questions, each with its candidates, in choice,
      score, noul order; it is refused for its state, its format or its options and for nothing else. */
  lemma FileIsTheRequest(qs: seq<Question>, state: Json, model: Option<string>, format: Option<string>, engine: Fields)
    requires qs != [] && AllSpeakable(qs)
    ensures var body := RequestPayload([Field("questions", Obj(FileFields(ByKind(qs))))], state, OrNull(model), OrNull(format), engine);
            && body.Some?
            && RequestOf(TABLE, Obj(body.value)) ==
            if !StatePresent(state) then Failure(StateEmpty)
            else if format.Some? && format.value != "native" && format.value != "typesafe" then Failure(UnknownKey)
            else
              var parsed := OptionsOf(TABLE, if Updated([], engine) == [] then Null else Obj(Updated([], engine)));
              if parsed.Failure? then Failure(parsed.error)
              else Success(Request(state, model, ByKind(qs), parsed.value.options,
                                   if format.Some? then format.value else "native", parsed.value.warned))
  {
    FileParses(qs);
    var raw := Obj(FileFields(ByKind(qs)));
    hide Speakable, ByKind, FileFields, AllSpeakable;
    var one := [Field("questions", raw)];
    QuestionsAlone(raw, state, OrNull(model), OrNull(format), engine);
    var body := RequestPayload(one, state, OrNull(model), OrNull(format), engine).value;
    var options := if Updated([], engine) == [] then Null else Obj(Updated([], engine));
    assert {"questions", "state", "model", "format", "options"} <= REQUEST_KEYS;
    hide QuestionsOf, QuestionsFrom, TABLE, OptionsOf, RequestPayload, Updated, Get, KeySet, Wrapped, RequestOf;
    WrappedGets(raw);
    NothingElse(one);
    PayloadGets(one, state, OrNull(model), OrNull(format), engine);
    OptionsGiven(one, state, OrNull(model), OrNull(format), engine);
    RequestFrom(body, state, model, format, ByKind(qs), options);
  }

  lemma FileParses(qs: seq<Question>)
    requires qs != [] && AllSpeakable(qs)
    ensures QuestionsOf(Obj(FileFields(ByKind(qs)))) == Success(ByKind(qs))
  {
    ByKindSpeakable(qs);
    ByKindPermutes(qs);
    assert |ByKind(qs)| == |multiset(ByKind(qs))| == |multiset(qs)| == |qs|;
    assert forall i :: 0 <= i < |ByKind(qs)| ==> Speakable(ByKind(qs)[i]);
    hide Speakable, ByKind, QuestionOf;
    FiledValidate(ByKind(qs));
  }

  lemma NothingElse(fields: Fields)
    requires KeySet(fields) == {"questions"}
    ensures Get(fields, "state") == Get(fields, "model") == Get(fields, "format") == Get(fields, "options") == Null
    ensures "format" !in KeySet(fields)
  {
  }

  lemma OptionsGiven(payload: Fields, state: Json, model: Json, format: Json, engine: Fields)
    requires Get(Wrapped(payload), "options") == Null
    ensures RequestPayload(payload, state, model, format, engine).Some?
    ensures Get(RequestPayload(payload, state, model, format, engine).value, "options")
         == if Updated([], engine) == [] then Null else Obj(Updated([], engine))
  {
    var wrapped := Wrapped(payload);
    var three := Overlaid(Overlaid(Overlaid(wrapped, "state", state), "model", model), "format", format);
    hide Get, KeySet, Overlaid, Wrapped, SetField, Updated;
    OverlaidThrice(wrapped, state, model, format, "options");
    SetGets(three, "options", Obj(Updated([], engine)), "options");
  }

  /** A request body read key by key. */
  lemma RequestFrom(body: Fields, state: Json, model: Option<string>, format: Option<string>, questions: seq<Question>,
                    options: Json)
    requires KeySet(body) <= REQUEST_KEYS && Get(body, "state") == state && Get(body, "model") == OrNull(model)
    requires Get(body, "format") == OrNull(format) && ("format" in KeySet(body) <==> format.Some?)
    requires QuestionsOf(Get(body, "questions")) == Success(questions) && Get(body, "options") == options
    ensures RequestOf(TABLE, Obj(body)) ==
            if !StatePresent(state) then Failure(StateEmpty)
            else if format.Some? && format.value != "native" && format.value != "typesafe" then Failure(UnknownKey)
            else
              var parsed := OptionsOf(TABLE, options);
              if parsed.Failure? then Failure(parsed.error)
              else Success(Request(state, model, questions, parsed.value.options,
                                   if format.Some? then format.value else "native", parsed.value.warned))
  {
    hide QuestionsOf, OptionsOf, TABLE, Get, KeySet;
  }

  // ---------------------------------------------------------------- such command lines exist

  lemma {:induction false} ValuesJoin(ts: seq<Token>, us: seq<Token>, key: string)
    ensures Values(ts + us, key) == Values(ts, key) + Values(us, key)
  {
    hide Key;
    if ts == [] {
      assert ts + us == us && [] + Values(us, key) == Values(us, key);
    } else {
      assert (ts + us)[1..] == ts[1..] + us;
      ValuesJoin(ts[1..], us, key);
    }
  }

  /** The printed flags of the questions, followed by anything that asks no question. */
  lemma FlagsPrint(d: Declared, qs: seq<Question>, others: seq<Token>)
    requires Asks(d) && (forall t <- others :: Spoken(d, t)) && forall kind: Kind :: Values(others, KindName(kind)) == []
    ensures Prints(d, Flags(qs) + others, qs)
  {
    FlagsSpoken(d, qs);
    forall kind: Kind ensures Values(Flags(qs) + others, KindName(kind)) == SpecsOf(Of(qs, kind)) {
      ValuesJoin(Flags(qs), others, KindName(kind));
      CollectedSpecs(qs, kind);
    }
    hide Spoken, Values, Flags;
  }
}
