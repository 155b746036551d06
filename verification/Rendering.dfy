/** What the adapter's body keeps of any result, and when there is none. */
module Rendering {
  import opened Documents
  import opened Schema
  import opened Wire
  import opened Wrappers
  import Served

  /** The key under which an answer's value stands, by the answer's type. */
  ghost predicate Typed(answer: Fields, name: string) {
    name in {"choice", "score", "noul"} && Get(answer, "type") == Str(name)
  }

  /** An answer can be projected exactly when it has one of the three types, its value and its probabilities. */
  lemma {:induction false} ProjectIff(answer: Json)
    ensures Project(answer).Some? <==>
              && answer.Obj?
              && exists name :: Typed(answer.fields, name) && name in KeySet(answer.fields) && "probabilities" in KeySet(answer.fields)
  {
    hide KeySet, Get;
    if answer.Obj? {
      var kind := KindOf(Get(answer.fields, "type"));
      if kind.Some? {
        assert Typed(answer.fields, KindName(kind.value));
      }
    }
  }

  /** The projection has the type, the value and the probabilities, the confidence where the answer has one, and the
      legend where a score has one, each as it was and nothing else. */
  lemma {:induction false} ProjectKeeps(answer: Json, name: string)
    requires answer.Obj? && Project(answer).Some? && Typed(answer.fields, name)
    ensures var a, kept := answer.fields, Project(answer).value;
            && kept.Obj?
            && Get(kept.fields, "type") == Get(a, "type") && Get(kept.fields, name) == Get(a, name)
            && Get(kept.fields, "probabilities") == Get(a, "probabilities")
            && ("confidence" in KeySet(a) ==> Get(kept.fields, "confidence") == Get(a, "confidence"))
            && ("legend" in KeySet(a) && name == "score" ==> Get(kept.fields, "legend") == Get(a, "legend"))
            && KeySet(kept.fields) == {"type", name, "probabilities"}
                                      + (if "confidence" in KeySet(a) then {"confidence"} else {})
                                      + (if "legend" in KeySet(a) && name == "score" then {"legend"} else {})
  {
    hide *;
    var a := answer.fields;
    var base, sure, told := ProjectShape(answer, name);
    ThreeKept(name, Get(a, name), Get(a, "probabilities"));
    MaybeKept("confidence", Get(a, "confidence"), "confidence" in KeySet(a), sure);
    MaybeKept("legend", Get(a, "legend"), name == "score" && "legend" in KeySet(a), told);
    Served.KeysAppended(base, sure);
    Served.KeysAppended(base + sure, told);
    TypedMeans(a, name);
    NamesDiffer(name);
    KeptThrough(base, sure, told, "type");
    KeptThrough(base, sure, told, name);
    KeptThrough(base, sure, told, "probabilities");
    KeptThrough(base, sure, told, "confidence");
    KeptThrough(base, sure, told, "legend");
  }

  lemma NamesDiffer(name: string)
    requires name in {"choice", "score", "noul"}
    ensures "confidence" !in {"type", name, "probabilities"} && "legend" !in {"type", name, "probabilities"}
    ensures "confidence" != "legend"
  {
    assert "confidence"[0] != "legend"[0];
  }

  lemma TypedMeans(answer: Fields, name: string)
    ensures Typed(answer, name) <==> name in {"choice", "score", "noul"} && Get(answer, "type") == Str(name)
  {
  }

  lemma ProjectShape(answer: Json, name: string) returns (base: Fields, sure: Fields, told: Fields)
    requires answer.Obj? && Project(answer).Some? && Typed(answer.fields, name)
    ensures name in {"choice", "score", "noul"}
    ensures base == [Field("type", Str(name)), Field(name, Get(answer.fields, name)), Field("probabilities", Get(answer.fields, "probabilities"))]
    ensures sure == if "confidence" in KeySet(answer.fields) then [Field("confidence", Get(answer.fields, "confidence"))] else []
    ensures told == if name == "score" && "legend" in KeySet(answer.fields) then [Field("legend", Get(answer.fields, "legend"))] else []
    ensures Project(answer).value == Obj(base + sure + told)
  {
    var a := answer.fields;
    hide KeySet, Get;
    base := [Field("type", Str(name)), Field(name, Get(a, name)), Field("probabilities", Get(a, "probabilities"))];
    sure := if "confidence" in KeySet(a) then [Field("confidence", Get(a, "confidence"))] else [];
    told := if name == "score" && "legend" in KeySet(a) then [Field("legend", Get(a, "legend"))] else [];
    assert KindOf(Get(a, "type")).Some? && KindName(KindOf(Get(a, "type")).value) == name;
  }

  lemma MaybeKept(key: string, value: Json, has: bool, fields: Fields)
    requires fields == if has then [Field(key, value)] else []
    ensures KeySet(fields) == (if has then {key} else {}) && (has ==> Get(fields, key) == value)
  {
    OneKept(key, value);
    NoneKept();
    hide Get, KeySet;
  }

  lemma ThreeKept(name: string, value: Json, ps: Json)
    requires name in {"choice", "score", "noul"}
    ensures var base := [Field("type", Str(name)), Field(name, value), Field("probabilities", ps)];
            && KeySet(base) == {"type", name, "probabilities"}
            && Get(base, "type") == Str(name) && Get(base, name) == value && Get(base, "probabilities") == ps
  {
    var base := [Field("type", Str(name)), Field(name, value), Field("probabilities", ps)];
    assert base[0].key == "type" && base[1].key == name && base[2].key == "probabilities";
    GetAt(base, 0);
    GetAt(base, 1);
    GetAt(base, 2);
    hide Get;
  }

  lemma OneKept(key: string, value: Json)
    ensures KeySet([Field(key, value)]) == {key} && Get([Field(key, value)], key) == value
  {
    var fields := [Field(key, value)];
    assert fields[0].key == key;
    GetAt(fields, 0);
  }

  lemma NoneKept()
    ensures KeySet([]) == {}
  {
  }

  lemma KeptThrough(a: Fields, b: Fields, c: Fields, key: string)
    ensures Get(a + b + c, key) == if key in KeySet(a) then Get(a, key) else if key in KeySet(b) then Get(b, key) else Get(c, key)
  {
    Served.GetAppended(a + b, c, key);
    Served.GetAppended(a, b, key);
    Served.KeysAppended(a, b);
    hide Get, KeySet;
  }

  /** The rounded result can be rendered for the adapter. */
  ghost predicate Renderable(rounded: Fields) {
    && Get(rounded, "answers").Obj? && "model" in KeySet(rounded)
    && ("usage" in KeySet(rounded) ==> Get(rounded, "usage").Obj?)
    && forall i :: 0 <= i < |Get(rounded, "answers").fields| ==> Project(Get(rounded, "answers").fields[i].value).Some?
  }

  /** What the adapter's body holds of the rounded result: the model, every answer's projection under its own key and
      in its own place, and the two counts. */
  ghost predicate Adapted(rounded: Fields, body: Json) {
    && body.Obj? && KeySet(body.fields) == {"model", "answers", "usage"}
    && Get(body.fields, "model") == Get(rounded, "model")
    && AnswersSent(Get(rounded, "answers"), Get(body.fields, "answers"))
    && UsageSent(if "usage" in KeySet(rounded) then Get(rounded, "usage") else Obj([]), Get(body.fields, "usage"))
  }

  ghost predicate AnswersSent(given: Json, sent: Json) {
    && given.Obj? && sent.Obj? && |sent.fields| == |given.fields|
    && forall i :: 0 <= i < |given.fields| ==>
         sent.fields[i].key == given.fields[i].key && Project(given.fields[i].value) == Some(sent.fields[i].value)
  }

  ghost predicate UsageSent(usage: Json, sent: Json) {
    && usage.Obj? && sent.Obj?
    && CountSent(usage.fields, sent.fields, "input_tokens") && CountSent(usage.fields, sent.fields, "output_tokens")
  }

  ghost predicate CountSent(usage: Fields, sent: Fields, key: string) {
    Get(sent, key) == if key in KeySet(usage) then Get(usage, key) else Int(0)
  }

  /** Each format has its own body, there is no other format, and what cannot be projected is a missing key. */
  lemma {:induction false} RenderedMeans(result: Fields, format: string)
    ensures format !in {"native", "typesafe"} <==> Rendered(result, format) == Failure(BadFormat)
    ensures Rendered(result, "native") == Success(Documents.RoundTree(Obj(result)))
    ensures Rendered(result, "typesafe").Success? <==> Renderable(Rounded(result))
    ensures Rendered(result, "typesafe").Failure? ==> Rendered(result, "typesafe").error == MissingKey
    ensures Rendered(result, "typesafe").Success? ==> Adapted(Rounded(result), Rendered(result, "typesafe").value)
  {
    hide *;
    FormatMeans(result, format);
    AdapterMeans(result);
    if Renderable(Rounded(result)) {
      BodyAdapted(Rounded(result), BodyOf(Rounded(result)));
    }
  }

  lemma FormatMeans(result: Fields, format: string)
    ensures format !in {"native", "typesafe"} <==> Rendered(result, format) == Failure(BadFormat)
    ensures Rendered(result, "native") == Success(Documents.RoundTree(Obj(result)))
  {
    hide Get, KeySet, Projects, ProjectAll, Count, RoundTree;
  }

  /** The body made of a rounded result. */
  function BodyOf(rounded: Fields): Json
    requires Renderable(rounded)
  {
    Obj(ServiceFields(Get(rounded, "model"), Obj(ProjectAll(Get(rounded, "answers").fields)),
                      Count(UsageOf(rounded), "input_tokens"), Count(UsageOf(rounded), "output_tokens")))
  }

  function UsageOf(rounded: Fields): Fields
    requires "usage" in KeySet(rounded) ==> Get(rounded, "usage").Obj?
  {
    if "usage" in KeySet(rounded) then Get(rounded, "usage").fields else []
  }

  function ServiceFields(model: Json, answers: Json, input: Json, output: Json): Fields {
    [Field("model", model), Field("answers", answers),
     Field("usage", Obj([Field("input_tokens", input), Field("output_tokens", output)]))]
  }

  lemma AdapterMeans(result: Fields)
    ensures Rendered(result, "typesafe")
         == if Renderable(Rounded(result)) then Success(BodyOf(Rounded(result))) else Failure(MissingKey)
  {
    hide Get, KeySet, Project, ProjectAll, Count, RoundTree, Rounded;
  }

  lemma BodyAdapted(rounded: Fields, body: Json)
    requires Renderable(rounded) && body == BodyOf(rounded)
    ensures Adapted(rounded, body)
  {
    RenderableMeans(rounded);
    var answers, usage := Get(rounded, "answers").fields, UsageOf(rounded);
    hide Get, KeySet, Project, ProjectAll, Count, ServiceFields, Renderable, AnswersSent, UsageSent;
    ServiceKept(Get(rounded, "model"), Obj(ProjectAll(answers)), Count(usage, "input_tokens"), Count(usage, "output_tokens"));
    AllSent(answers);
    CountsSent(usage, Get(body.fields, "usage"));
  }

  lemma RenderableMeans(rounded: Fields)
    requires Renderable(rounded)
    ensures Get(rounded, "answers").Obj? && Projects(Get(rounded, "answers").fields)
    ensures "usage" in KeySet(rounded) ==> Get(rounded, "usage").Obj?
  {
    hide Get, KeySet, Project;
  }

  lemma AllSent(answers: Fields)
    requires Projects(answers)
    ensures AnswersSent(Obj(answers), Obj(ProjectAll(answers)))
  {
    hide Project;
  }

  lemma CountsSent(usage: Fields, sent: Json)
    requires sent.Obj? && Get(sent.fields, "input_tokens") == Count(usage, "input_tokens")
    requires Get(sent.fields, "output_tokens") == Count(usage, "output_tokens")
    ensures UsageSent(Obj(usage), sent)
  {
    hide Get, KeySet;
  }

  lemma ServiceKept(model: Json, answers: Json, input: Json, output: Json)
    ensures var body := ServiceFields(model, answers, input, output);
            && KeySet(body) == {"model", "answers", "usage"}
            && Get(body, "model") == model && Get(body, "answers") == answers && Get(body, "usage").Obj?
            && Get(Get(body, "usage").fields, "input_tokens") == input
            && Get(Get(body, "usage").fields, "output_tokens") == output
  {
    var counts := [Field("input_tokens", input), Field("output_tokens", output)];
    var body := ServiceFields(model, answers, input, output);
    assert body[0].key == "model" && body[1].key == "answers" && body[2].key == "usage";
    assert counts[0].key == "input_tokens" && counts[1].key == "output_tokens";
    GetAt(body, 0);
    GetAt(body, 1);
    GetAt(body, 2);
    GetAt(counts, 0);
    GetAt(counts, 1);
    hide Get;
  }
}
