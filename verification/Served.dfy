/** What is rendered for the adapter is what the client accepts. */
module Served {
  import opened Documents
  import opened Rounding
  import opened Schema
  import opened Sequences
  import opened Text
  import opened Wire
  import opened Wrappers

  /** What the readout guarantees of its numbers. */
  ghost predicate Sound(q: Question, r: Reading) {
    && Answerable(q.kind, q.candidates) && Fit(q, r)
    && (forall i :: 0 <= i < |r.probabilities| ==> r.probabilities[i] >= 0.0)
    && Sum(r.probabilities) == 1.0
    && 0.0 <= r.confidence <= 1.0
  }

  // ---------------------------------------------------------------- reading fields

  lemma {:induction false} GetAppended(fs: Fields, gs: Fields, key: string)
    ensures Get(fs + gs, key) == if key in KeySet(fs) then Get(fs, key) else Get(gs, key)
  {
    if fs == [] {
      assert fs + gs == gs;
    } else {
      GetAppended(fs[1..], gs, key);
      GetSplits(fs, key);
      GetSplits(fs + gs, key);
      hide Get, KeySet;
      assert (fs + gs)[1..] == fs[1..] + gs && (fs + gs)[0] == fs[0];
    }
  }

  lemma GetSplits(fs: Fields, key: string)
    requires fs != []
    ensures Get(fs, key) == if fs[0].key == key then fs[0].value else Get(fs[1..], key)
    ensures key in KeySet(fs) <==> fs[0].key == key || key in KeySet(fs[1..])
  {
    assert KeySet(fs) == {fs[0].key} + KeySet(fs[1..]);
  }

  lemma KeysAppended(fs: Fields, gs: Fields)
    ensures KeySet(fs + gs) == KeySet(fs) + KeySet(gs)
  {
    forall k | k in KeySet(fs) ensures k in KeySet(fs + gs) {
      var i :| 0 <= i < |fs| && fs[i].key == k;
      assert (fs + gs)[i].key == k;
    }
    forall k | k in KeySet(gs) ensures k in KeySet(fs + gs) {
      var i :| 0 <= i < |gs| && gs[i].key == k;
      assert (fs + gs)[|fs| + i].key == k;
    }
  }

  // ---------------------------------------------------------------- rounded distributions

  lemma RoundedProbability(p: real)
    requires 0.0 <= p <= 1.0
    ensures 0.0 <= RoundSig(p) <= 1.0
  {
    RoundMonotone(0.0, p);
    RoundMonotone(p, 1.0);
    RoundWhole(1);
  }

  lemma RoundedPairs(keys: seq<string>, ps: seq<real>)
    requires |keys| == |ps|
    ensures RoundTree(Obj(Pairs(keys, ps))) == Obj(Pairs(keys, RoundAll(ps)))
  {
    assert RoundTree(Obj(Pairs(keys, ps))).fields == Pairs(keys, RoundAll(ps));
  }

  lemma {:induction false} TotalOfPairs(keys: seq<string>, ps: seq<real>)
    requires |keys| == |ps|
    ensures Total(Pairs(keys, ps)) == Sum(ps)
  {
    if ps != [] {
      TotalOfPairs(keys[1..], ps[1..]);
      assert Pairs(keys, ps)[1..] == Pairs(keys[1..], ps[1..]);
    }
  }

  /** The rounded distribution still is one, however many candidates it has. */
  lemma {:induction false} RoundedDistribution(keys: seq<string>, ps: seq<real>)
    requires |keys| == |ps|
    requires forall i :: 0 <= i < |ps| ==> ps[i] >= 0.0
    requires Sum(ps) == 1.0
    ensures Distribution(Obj(Pairs(keys, RoundAll(ps))))
  {
    forall i | 0 <= i < |ps| ensures 0.0 <= RoundAll(ps)[i] <= 1.0 {
      PartOfSum(ps, i);
      RoundedProbability(ps[i]);
    }
    TotalOfPairs(keys, RoundAll(ps));
    SumError(ps);
  }

  /** Rounding is monotone, so the first maximum stays a maximum. */
  lemma {:induction false} RoundedWinner(keys: seq<string>, ps: seq<real>)
    requires |keys| == |ps| > 0 && keys[FirstArgmax(ps)] != ""
    ensures Winner(Str(keys[FirstArgmax(ps)]), Pairs(keys, RoundAll(ps)))
  {
    var k := FirstArgmax(ps);
    var fields := Pairs(keys, RoundAll(ps));
    forall j | 0 <= j < |ps| ensures NumberOf(fields[j].value) <= NumberOf(fields[k].value) {
      RoundMonotone(ps[j], ps[k]);
    }
    assert fields[k].key == keys[k];
  }

  /** A client that takes the first maximum of the wire finds the engine's choice iff no earlier candidate rounds to it. */
  lemma {:induction false} FirstOnTheWire(ps: seq<real>)
    requires ps != []
    ensures FirstArgmax(RoundAll(ps)) == FirstArgmax(ps) <==>
            forall i :: 0 <= i < FirstArgmax(ps) ==> RoundSig(ps[i]) != RoundSig(ps[FirstArgmax(ps)])
  {
    var k, w := FirstArgmax(ps), FirstArgmax(RoundAll(ps));
    forall j | 0 <= j < |ps| ensures RoundAll(ps)[j] <= RoundAll(ps)[k] {
      RoundMonotone(ps[j], ps[k]);
    }
    assert RoundAll(ps)[w] == RoundAll(ps)[k];
    assert w <= k;
    if w < k {
      assert RoundSig(ps[w]) == RoundSig(ps[k]);
    } else {
      assert forall i :: 0 <= i < k ==> RoundAll(ps)[i] < RoundAll(ps)[k];
      assert forall i :: 0 <= i < k ==> RoundAll(ps)[i] == RoundSig(ps[i]);
    }
  }

  /** Two probabilities that differ in the seventh digit tie on the wire, and the lower index wins there. */
  lemma {:induction false} TieOnTheWire()
    ensures Sum([0.4999998, 0.5000002]) == 1.0
    ensures FirstArgmax([0.4999998, 0.5000002]) == 1
    ensures FirstArgmax(RoundAll([0.4999998, 0.5000002])) == 0
  {
    var ps := [0.4999998, 0.5000002];
    assert Sum(ps[1..]) == 0.5000002;
    assert RoundAll(ps) == [0.5, 0.5];
  }

  // ---------------------------------------------------------------- scores

  /** A weighted mean of the levels lies between the first and the last. */
  lemma {:induction false} MeanBounds(ps: seq<real>, i: nat)
    requires forall j :: 0 <= j < |ps| ==> ps[j] >= 0.0
    requires ps != []
    ensures i as real * Sum(ps) <= MeanFrom(ps, i) <= (i + |ps| - 1) as real * Sum(ps)
  {
    if |ps| > 1 {
      MeanBounds(ps[1..], i + 1);
      SumNonNegative(ps[1..]);
    } else {
      assert Sum(ps[1..]) == 0.0 && MeanFrom(ps[1..], i + 1) == 0.0;
    }
  }

  /** The score on the wire, rounded twice, lies between the first and the last level. */
  lemma {:induction false} ScoreInRange(ps: seq<real>)
    requires forall j :: 0 <= j < |ps| ==> ps[j] >= 0.0
    requires Sum(ps) == 1.0 && 0 < |ps| <= 1000000
    ensures 0.0 <= RoundSig(WeightedMean(ps)) <= (|ps| - 1) as real
  {
    MeanBounds(ps, 0);
    var top := (|ps| - 1) as real;
    RoundMonotone(0.0, MeanFrom(ps, 0));
    RoundMonotone(MeanFrom(ps, 0), top);
    RoundWhole(|ps| - 1);
    RoundIdempotent(MeanFrom(ps, 0));
  }

  /** A fully described question has a legend entry for every key. */
  lemma {:induction false} FullLegend(c: Candidates)
    requires |c.keys| == |c.descriptions| && forall d <- c.descriptions :: d.Some?
    ensures |Legend(c)| == |c.keys|
    ensures forall i :: 0 <= i < |c.keys| ==> Legend(c)[i].key == c.keys[i]
    decreases |c.keys|
  {
    if c.keys != [] {
      var rest := Candidates(c.keys[1..], c.descriptions[1..]);
      assert forall d :: d in rest.descriptions ==> d in c.descriptions;
      FullLegend(rest);
      assert c.descriptions[0] in c.descriptions;
      assert forall i :: 1 <= i < |c.keys| ==> c.keys[i] == rest.keys[i - 1];
    }
  }

  lemma {:induction false} LevelLegend(q: Question)
    requires q.kind.Score? && Answerable(q.kind, q.candidates)
    ensures var legend := RoundTree(Obj(Legend(q.candidates))).fields;
            |legend| == |q.candidates.keys| && KeySet(legend) == Levels(|legend|)
  {
    var c := q.candidates;
    FullLegend(c);
    RoundedKeys(Legend(c));
    var n := |c.keys|;
    forall k | k in Levels(n) ensures k in KeySet(Legend(c)) {
      var i :| 0 <= i < n && Digits(i) == k;
      assert Legend(c)[i].key == c.keys[i] == Digits(i);
    }
    forall k | k in KeySet(Legend(c)) ensures k in Levels(n) {
      var i :| 0 <= i < n && Legend(c)[i].key == k;
      assert k == Digits(i);
    }
    assert KeySet(Legend(c)) == Levels(n);
  }

  // ---------------------------------------------------------------- one projected answer

  /** The fields the adapter's form of an answer has. */
  function Wired(q: Question, r: Reading): Fields
    requires Fit(q, r)
  {
    var ps := Field("probabilities", Obj(Pairs(q.candidates.keys, RoundAll(r.probabilities))));
    var confidence := Field("confidence", Num(RoundSig(r.confidence)));
    match q.kind
    case Choice =>
      [Field("type", Str("choice")), Field("choice", Str(q.candidates.keys[FirstArgmax(r.probabilities)])), ps, confidence]
    case Score =>
      [Field("type", Str("score")), Field("score", Num(RoundSig(WeightedMean(r.probabilities)))), ps, confidence,
       Field("legend", RoundTree(Obj(Legend(q.candidates))))]
    case Noul =>
      [Field("type", Str("noul")), Field("noul", Num(RoundSig(r.probabilities[0]))), ps]
  }

  function HeadKeys(kind: Kind): set<string> {
    match kind
    case Choice => {"type", "choice", "probabilities", "confidence"}
    case Score => {"type", "score", "probabilities", "confidence", "legend"}
    case Noul => {"type", "noul", "probabilities"}
  }

  const NATIVE_ONLY := {"coverage", "reliability", "cue", "decode_steps", "legend", "advance"}

  lemma {:induction false} TailKeys(q: Question, r: Reading)
    requires Fit(q, r)
    ensures KeySet(Tail(q, r)) <= NATIVE_ONLY
  {
    hide Fit, Legend;
  }

  /** The typed fields are read first; a native-only field never stands in for one. */
  lemma {:induction false} HeadFirst(q: Question, r: Reading)
    requires Fit(q, r)
    ensures HeadKeys(q.kind) <= KeySet(AnswerFields(q, r)) <= HeadKeys(q.kind) + NATIVE_ONLY
    ensures forall k :: k in HeadKeys(q.kind) ==> Get(AnswerFields(q, r), k) == Get(Head(q, r), k)
  {
    HeadGets(q, r);
    TailKeys(q, r);
    var head, tail := Head(q, r), Tail(q, r);
    KeysAppended(head, tail);
    hide KeySet, Get, Head, Tail, HeadKeys;
    forall k | k in HeadKeys(q.kind) ensures Get(AnswerFields(q, r), k) == Get(head, k) {
      GetAppended(head, tail, k);
    }
  }

  /** Three to five fields with the names of an answer's typed part. */
  ghost predicate Named(kind: Kind, fields: Fields) {
    && |fields| == (match kind case Noul => 3 case Choice => 4 case Score => 5)
    && fields[0] == Field("type", Str(KindName(kind)))
    && fields[1].key == KindName(kind)
    && fields[2].key == "probabilities"
    && (!kind.Noul? ==> fields[3].key == "confidence")
    && (kind.Score? ==> fields[4].key == "legend")
  }

  lemma {:induction false} NamedDistinct(kind: Kind, fields: Fields)
    requires Named(kind, fields)
    ensures Distinct(fields) && KeySet(fields) == HeadKeys(kind)
  {
  }

  lemma {:induction false} NamedGets(kind: Kind, fields: Fields)
    requires Named(kind, fields)
    ensures KeySet(fields) == HeadKeys(kind)
    ensures Get(fields, "type") == Str(KindName(kind))
    ensures Get(fields, KindName(kind)) == fields[1].value
    ensures Get(fields, "probabilities") == fields[2].value
    ensures !kind.Noul? ==> Get(fields, "confidence") == fields[3].value
    ensures kind.Score? ==> Get(fields, "legend") == fields[4].value
  {
    NamedDistinct(kind, fields);
    hide Get, KeySet, Distinct, HeadKeys;
    GetAt(fields, 0);
    GetAt(fields, 1);
    GetAt(fields, 2);
    if !kind.Noul? {
      GetAt(fields, 3);
    }
    if kind.Score? {
      GetAt(fields, 4);
    }
  }

  lemma {:induction false} HeadGets(q: Question, r: Reading)
    requires Fit(q, r)
    ensures Named(q.kind, Head(q, r)) && KeySet(Head(q, r)) == HeadKeys(q.kind)
  {
    hide Pairs, Legend, FirstArgmax, WeightedMean, HeadKeys, KeySet;
    NamedGets(q.kind, Head(q, r));
  }

  /** The typed part's values, found in the whole answer. */
  lemma AnswerGets(q: Question, r: Reading)
    requires Fit(q, r)
    ensures Named(q.kind, Head(q, r))
    ensures HeadKeys(q.kind) <= KeySet(AnswerFields(q, r)) <= HeadKeys(q.kind) + NATIVE_ONLY
    ensures Get(AnswerFields(q, r), "type") == Str(KindName(q.kind))
    ensures Get(AnswerFields(q, r), KindName(q.kind)) == Head(q, r)[1].value
    ensures Get(AnswerFields(q, r), "probabilities") == Head(q, r)[2].value
    ensures !q.kind.Noul? ==> Get(AnswerFields(q, r), "confidence") == Head(q, r)[3].value
    ensures q.kind.Score? ==> Get(AnswerFields(q, r), "legend") == Head(q, r)[4].value
  {
    HeadGets(q, r);
    NamedGets(q.kind, Head(q, r));
    HeadFirst(q, r);
    assert {"type", "probabilities", KindName(q.kind)} <= HeadKeys(q.kind);
    assert !q.kind.Noul? ==> "confidence" in HeadKeys(q.kind);
    assert q.kind.Score? ==> "legend" in HeadKeys(q.kind);
    hide Get, KeySet, Head, AnswerFields, KindName, HeadKeys;
  }

  lemma {:induction false} RoundedGets(q: Question, r: Reading)
    requires Fit(q, r)
    ensures var head, fields := Head(q, r), RoundTree(Obj(AnswerFields(q, r))).fields;
            && HeadKeys(q.kind) <= KeySet(fields) <= HeadKeys(q.kind) + NATIVE_ONLY
            && Get(fields, "type") == Str(KindName(q.kind))
            && Named(q.kind, head)
            && Get(fields, KindName(q.kind)) == RoundTree(head[1].value)
            && Get(fields, "probabilities") == RoundTree(head[2].value)
            && (!q.kind.Noul? ==> Get(fields, "confidence") == RoundTree(head[3].value))
            && (q.kind.Score? ==> Get(fields, "legend") == RoundTree(head[4].value))
  {
    var head, answer := Head(q, r), AnswerFields(q, r);
    AnswerGets(q, r);
    assert RoundTree(Str(KindName(q.kind))) == Str(KindName(q.kind));
    NamedSize(q.kind, head);
    hide *;
    RoundedKeys(answer);
    RoundedGet(answer, "type");
    RoundedGet(answer, KindName(q.kind));
    RoundedGet(answer, "probabilities");
    RoundedGet(answer, "confidence");
    RoundedGet(answer, "legend");
  }

  lemma NamedSize(kind: Kind, fields: Fields)
    requires Named(kind, fields)
    ensures |fields| == (match kind case Noul => 3 case Choice => 4 case Score => 5)
  {
  }

  lemma {:induction false} ProjectNamed(kind: Kind, fields: Fields, named: Fields)
    requires Named(kind, named) && HeadKeys(kind) <= KeySet(fields) <= HeadKeys(kind) + NATIVE_ONLY
    requires Get(fields, "type") == Str(KindName(kind))
    requires Get(fields, KindName(kind)) == named[1].value && Get(fields, "probabilities") == named[2].value
    requires !kind.Noul? ==> Get(fields, "confidence") == named[3].value
    requires kind.Score? ==> Get(fields, "legend") == named[4].value
    ensures Project(Obj(fields)) == Some(Obj(named))
  {
    hide Get, KeySet;
    assert KindOf(Str(KindName(kind))) == Some(kind);
    assert "confidence" in HeadKeys(kind) + NATIVE_ONLY <==> !kind.Noul?;
    var confidence := if kind.Noul? then [] else [named[3]];
    var legend := if kind.Score? then [named[4]] else [];
    var name := KindName(kind);
    assert name in KeySet(fields) && "probabilities" in KeySet(fields);
    assert "confidence" in KeySet(fields) <==> !kind.Noul?;
    assert kind.Score? ==> "legend" in KeySet(fields);
    assert named[..3] == [Field("type", Str(name)), Field(name, Get(fields, name)), Field("probabilities", Get(fields, "probabilities"))];
    assert Project(Obj(fields)) == Some(Obj(named[..3] + confidence + legend));
    assert named[..3] + confidence + legend == named;
  }

  /** Projecting the rounded answer keeps exactly the fields of the adapter's form. */
  lemma {:induction false} Projected(q: Question, r: Reading)
    requires Fit(q, r)
    ensures Project(RoundTree(Obj(AnswerFields(q, r)))) == Some(Obj(Wired(q, r)))
  {
    assert RoundTree(Obj(AnswerFields(q, r))).Obj?;
    hide *;
    RoundedGets(q, r);
    WiredHead(q, r);
    ProjectNamed(q.kind, RoundTree(Obj(AnswerFields(q, r))).fields, Wired(q, r));
  }

  /** Field by field, the adapter's form is the rounded typed part. */
  lemma {:induction false} WiredHead(q: Question, r: Reading)
    requires Fit(q, r)
    ensures var head, wired := Head(q, r), Wired(q, r);
            && |wired| == |head| == (match q.kind case Noul => 3 case Choice => 4 case Score => 5) && Named(q.kind, wired)
            && wired == seq(|head|, i requires 0 <= i < |head| => Field(head[i].key, RoundTree(head[i].value)))
  {
    RoundedPairs(q.candidates.keys, r.probabilities);
    hide Pairs, Legend, FirstArgmax, WeightedMean, RoundSig, RoundAll;
  }

  /** The adapter's form of a sound answer conforms. */
  lemma {:induction false} WiredConforms(q: Question, r: Reading)
    requires Sound(q, r)
    ensures AnswerConforms(q.kind, Wired(q, r))
  {
    match q.kind
    case Choice => ChoiceConforms(q, r);
    case Score => ScoreAnswerConforms(q, r);
    case Noul => NoulConforms(q, r);
  }

  lemma {:induction false} ChoiceConforms(q: Question, r: Reading)
    requires Sound(q, r) && q.kind.Choice?
    ensures AnswerConforms(q.kind, Wired(q, r))
  {
    var a, best := Wired(q, r), q.candidates.keys[FirstArgmax(r.probabilities)];
    WiredHead(q, r);
    assert a[1].value == Str(best) && a[3].value == Num(RoundSig(r.confidence));
    assert a[2].value == Obj(Pairs(q.candidates.keys, RoundAll(r.probabilities)));
    assert Sum(r.probabilities) == 1.0 && 0.0 <= r.confidence <= 1.0;
    assert best in q.candidates.keys && !Blank(best);
    hide Sound, Wired, Get, KeySet, RoundSig, RoundTree, RoundAll, Pairs, Answerable, Distribution, Winner, AnswerConforms, Named;
    RoundedDistribution(q.candidates.keys, r.probabilities);
    RoundedProbability(r.confidence);
    RoundedWinner(q.candidates.keys, r.probabilities);
    ChoiceFieldsConform(a);
  }

  lemma {:induction false} ChoiceFieldsConform(a: Fields)
    requires Named(Choice, a) && Distribution(a[2].value) && Winner(a[1].value, a[2].value.fields) && Probability(a[3].value)
    ensures AnswerConforms(Choice, a)
  {
    NamedGets(Choice, a);
    hide Get, KeySet, Winner;
  }

  lemma {:induction false} ScoreAnswerConforms(q: Question, r: Reading)
    requires Sound(q, r) && q.kind.Score?
    ensures AnswerConforms(q.kind, Wired(q, r))
  {
    var a := Wired(q, r);
    WiredHead(q, r);
    assert a[1].value == Num(RoundSig(WeightedMean(r.probabilities)));
    assert a[2].value == Obj(Pairs(q.candidates.keys, RoundAll(r.probabilities)));
    assert a[3].value == Num(RoundSig(r.confidence)) && a[4].value == RoundTree(Obj(Legend(q.candidates)));
    assert Sum(r.probabilities) == 1.0 && 0.0 <= r.confidence <= 1.0;
    hide Sound, Wired, Get, KeySet, RoundSig, RoundTree, RoundAll, Legend, Pairs, WeightedMean, Answerable, Distribution,
         ScoreConforms, AnswerConforms, Named;
    RoundedDistribution(q.candidates.keys, r.probabilities);
    RoundedProbability(r.confidence);
    ScoreLegend(q, r);
    ScoreFieldsConform(a);
  }

  lemma {:induction false} ScoreFieldsConform(a: Fields)
    requires Named(Score, a) && Distribution(a[2].value) && ScoreConforms(a[1].value, a[4].value) && Probability(a[3].value)
    ensures AnswerConforms(Score, a)
  {
    NamedGets(Score, a);
    hide Get, KeySet, Distribution, ScoreConforms, Probability;
  }

  lemma {:induction false} ScoreLegend(q: Question, r: Reading)
    requires Sound(q, r) && q.kind.Score?
    ensures ScoreConforms(Num(RoundSig(WeightedMean(r.probabilities))), RoundTree(Obj(Legend(q.candidates))))
  {
    ScoreInRange(r.probabilities);
    LevelLegend(q);
    assert RoundTree(Obj(Legend(q.candidates))).Obj?;
    hide KeySet, RoundSig, RoundTree, Legend, Levels, WeightedMean;
  }

  lemma {:induction false} NoulConforms(q: Question, r: Reading)
    requires Sound(q, r) && q.kind.Noul?
    ensures AnswerConforms(q.kind, Wired(q, r))
  {
    var keys, ps := q.candidates.keys, r.probabilities;
    WiredHead(q, r);
    NamedGets(q.kind, Wired(q, r));
    RoundedDistribution(keys, ps);
    PartOfSum(ps, 0);
    RoundedProbability(ps[0]);
    YesNo(RoundAll(ps));
    hide Get, KeySet, Pairs, RoundAll, RoundSig, Winner, Distribution, Answerable, FirstArgmax, RoundTree, Legend;
  }

  lemma {:induction false} YesNo(ps: seq<real>)
    requires |ps| == 2
    ensures KeySet(Pairs(["yes", "no"], ps)) == {"yes", "no"}
  {
    var fields := Pairs(["yes", "no"], ps);
    assert fields[0].key == "yes" && fields[1].key == "no";
  }

  // ---------------------------------------------------------------- the whole body

  function AskedOf(questions: seq<Question>): seq<Asked> {
    seq(|questions|, i requires 0 <= i < |questions| => Asked(questions[i].id, questions[i].kind))
  }

  ghost predicate AllSound(questions: seq<Question>, readings: seq<Reading>) {
    && |questions| == |readings|
    && forall i :: 0 <= i < |questions| ==> Sound(questions[i], readings[i])
  }

  function WiredAnswers(questions: seq<Question>, readings: seq<Reading>): (fields: Fields)
    requires |questions| == |readings|
    requires forall i :: 0 <= i < |questions| ==> Fit(questions[i], readings[i])
    ensures |fields| == |questions|
  {
    seq(|questions|, i requires 0 <= i < |questions| => Field(questions[i].id, Obj(Wired(questions[i], readings[i]))))
  }

  lemma {:induction false} AnswersProject(questions: seq<Question>, readings: seq<Reading>)
    requires |questions| == |readings|
    requires forall i :: 0 <= i < |questions| ==> Fit(questions[i], readings[i])
    ensures var rounded := RoundTree(Obj(AnswersField(questions, readings)));
            rounded.Obj? && Projects(rounded.fields) && ProjectAll(rounded.fields) == WiredAnswers(questions, readings)
  {
    var fields := AnswersField(questions, readings);
    var rounded := RoundTree(Obj(fields)).fields;
    forall i | 0 <= i < |questions|
      ensures rounded[i].key == questions[i].id
      ensures Project(rounded[i].value) == Some(Obj(Wired(questions[i], readings[i])))
    {
      Projected(questions[i], readings[i]);
      assert rounded[i] == Field(fields[i].key, RoundTree(fields[i].value));
    }
    hide Project, RoundTree;
    assert ProjectAll(rounded) == WiredAnswers(questions, readings);
  }

  function Body(model: string, questions: seq<Question>, readings: seq<Reading>, input: nat, output: nat): Json
    requires |questions| == |readings|
    requires forall i :: 0 <= i < |questions| ==> Fit(questions[i], readings[i])
  {
    Obj([Field("model", Str(model)), Field("answers", Obj(WiredAnswers(questions, readings))),
         Field("usage", Obj([Field("input_tokens", Int(input)), Field("output_tokens", Int(output))]))])
  }

  lemma {:induction false} CountsGet(usage: Fields, input: nat, output: nat)
    ensures var rounded := RoundTree(Obj([Field("input_tokens", Int(input)), Field("output_tokens", Int(output))] + usage));
            rounded.Obj? && Count(rounded.fields, "input_tokens") == Int(input)
            && Count(rounded.fields, "output_tokens") == Int(output)
  {
    var counts := [Field("input_tokens", Int(input)), Field("output_tokens", Int(output))];
    assert counts[0].key == "input_tokens" && counts[1].key == "output_tokens";
    KeysAppended(counts, usage);
    RoundedKeys(counts + usage);
    assert RoundTree(Int(input)) == Int(input) && RoundTree(Int(output)) == Int(output);
    assert RoundTree(Obj(counts + usage)).Obj?;
    hide Get, RoundTree;
    GetAt(counts, 0);
    GetAt(counts, 1);
    GetAppended(counts, usage, "input_tokens");
    GetAppended(counts, usage, "output_tokens");
    RoundedGet(counts + usage, "input_tokens");
    RoundedGet(counts + usage, "output_tokens");
  }

  lemma {:induction false} PayloadGets(model: Json, engine: Json, answers: Json, usage: Json, native: Fields)
    ensures var p := [Field("model", model), Field("engine", engine), Field("answers", answers), Field("usage", usage)] + native;
            && Get(Rounded(p), "model") == RoundTree(model)
            && Get(Rounded(p), "answers") == RoundTree(answers)
            && Get(Rounded(p), "usage") == RoundTree(usage)
            && {"model", "answers", "usage"} <= KeySet(Rounded(p))
  {
    var head := [Field("model", model), Field("engine", engine), Field("answers", answers), Field("usage", usage)];
    var p := head + native;
    assert head[0].key == "model" && head[1].key == "engine" && head[2].key == "answers" && head[3].key == "usage";
    KeysAppended(head, native);
    RoundedKeys(p);
    assert Rounded(p) == RoundTree(Obj(p)).fields;
    hide Get, RoundTree, Rounded;
    GetAt(head, 0);
    GetAt(head, 2);
    GetAt(head, 3);
    GetAppended(head, native, "model");
    GetAppended(head, native, "answers");
    GetAppended(head, native, "usage");
    RoundedGet(p, "model");
    RoundedGet(p, "answers");
    RoundedGet(p, "usage");
  }

  /** Rendering for the adapter, from what the rounded response holds. */
  lemma RenderedFrom(result: Fields, model: Json, answers: Fields, usage: Fields, input: Json, output: Json)
    requires {"model", "answers", "usage"} <= KeySet(Rounded(result))
    requires Get(Rounded(result), "model") == model
    requires Get(Rounded(result), "answers") == Obj(answers) && Projects(answers)
    requires Get(Rounded(result), "usage") == Obj(usage)
    requires Count(usage, "input_tokens") == input && Count(usage, "output_tokens") == output
    ensures Rendered(result, "typesafe")
         == Success(Obj([Field("model", model), Field("answers", Obj(ProjectAll(answers))),
                         Field("usage", Obj([Field("input_tokens", input), Field("output_tokens", output)]))]))
  {
    hide Rounded, Get, KeySet, Count, Projects, ProjectAll;
  }

  /** What the adapter sends: the three service keys, nothing native, every answer in its own form. */
  lemma {:induction false} RenderedBody(model: string, questions: seq<Question>, readings: seq<Reading>,
                                        input: nat, output: nat, engine: Json, usage: Fields, native: Fields)
    requires |questions| == |readings|
    requires forall i :: 0 <= i < |questions| ==> Fit(questions[i], readings[i])
    ensures Rendered(Payload(model, questions, readings, input, output, engine, usage, native), "typesafe")
            == Success(Body(model, questions, readings, input, output))
  {
    assert RoundTree(Str(model)) == Str(model);
    hide Rounded, RoundTree, Get, KeySet, Count, Projects, ProjectAll, WiredAnswers, AnswersField, Fit, Rendered;
    AnswersProject(questions, readings);
    var counts := [Field("input_tokens", Int(input)), Field("output_tokens", Int(output))];
    var answers := Obj(AnswersField(questions, readings));
    CountsGet(usage, input, output);
    PayloadGets(Str(model), engine, answers, Obj(counts + usage), native);
    RenderedFrom(Payload(model, questions, readings, input, output, engine, usage, native), Str(model),
                 RoundTree(answers).fields, RoundTree(Obj(counts + usage)).fields, Int(input), Int(output));
  }

  lemma {:induction false} BodyGets(model: string, answers: Json, input: nat, output: nat)
    ensures var fields := [Field("model", Str(model)), Field("answers", answers),
              Field("usage", Obj([Field("input_tokens", Int(input)), Field("output_tokens", Int(output))]))];
            && KeySet(fields) == SERVICE_KEYS && Get(fields, "model") == Str(model) && Get(fields, "answers") == answers
            && (input > 0 ==> UsageConforms(Get(fields, "usage")))
  {
    var counts := [Field("input_tokens", Int(input)), Field("output_tokens", Int(output))];
    var fields := [Field("model", Str(model)), Field("answers", answers), Field("usage", Obj(counts))];
    assert fields[0].key == "model" && fields[1].key == "answers" && fields[2].key == "usage";
    assert counts[0].key == "input_tokens" && counts[1].key == "output_tokens";
    GetAt(fields, 0);
    GetAt(fields, 1);
    GetAt(fields, 2);
    GetAt(counts, 0);
  }

  /** The adapter's body of a served request passes the client's judgement. */
  lemma {:induction false} ServedBodyConforms(model: string, questions: seq<Question>, readings: seq<Reading>,
                                              input: nat, output: nat, engine: Json, usage: Fields, native: Fields)
    requires model != "" && input > 0
    requires questions != [] && AllSound(questions, readings) && AllDistinct(Ids(questions))
    ensures Rendered(Payload(model, questions, readings, input, output, engine, usage, native), "typesafe").Success?
    ensures Conforms(Rendered(Payload(model, questions, readings, input, output, engine, usage, native), "typesafe").value,
                     Expected(AskedOf(questions)))
  {
    assert Expected(AskedOf(questions)) == AskedOf(questions);
    assert forall i :: 0 <= i < |questions| ==> Fit(questions[i], readings[i]);
    hide *;
    RenderedBody(model, questions, readings, input, output, engine, usage, native);
    BodyConforms(model, questions, readings, input, output);
  }

  /** ... and is judged without an exception, whatever `float()` parses. */
  lemma {:induction false} ServedBodyRuns(floats: Floats, model: string, questions: seq<Question>, readings: seq<Reading>,
                                          input: nat, output: nat, engine: Json, usage: Fields, native: Fields)
    requires model != "" && input > 0
    requires questions != [] && AllSound(questions, readings) && AllDistinct(Ids(questions))
    ensures Rendered(Payload(model, questions, readings, input, output, engine, usage, native), "typesafe").Success?
    ensures Runs(floats, Rendered(Payload(model, questions, readings, input, output, engine, usage, native), "typesafe").value,
                 Expected(AskedOf(questions)))
  {
    assert Expected(AskedOf(questions)) == AskedOf(questions);
    assert forall i :: 0 <= i < |questions| ==> Fit(questions[i], readings[i]);
    hide *;
    RenderedBody(model, questions, readings, input, output, engine, usage, native);
    BodyRuns(floats, model, questions, readings, input, output);
  }

  lemma {:induction false} BodyRuns(floats: Floats, model: string, questions: seq<Question>, readings: seq<Reading>,
                                    input: nat, output: nat)
    requires AllSound(questions, readings) && AllDistinct(Ids(questions))
    ensures forall i :: 0 <= i < |questions| ==> Fit(questions[i], readings[i])
    ensures Runs(floats, Body(model, questions, readings, input, output), AskedOf(questions))
  {
    assert forall i :: 0 <= i < |questions| ==> Fit(questions[i], readings[i]);
    var answers := WiredAnswers(questions, readings);
    assert Body(model, questions, readings, input, output).fields
      == [Field("model", Str(model)), Field("answers", Obj(answers)),
          Field("usage", Obj([Field("input_tokens", Int(input)), Field("output_tokens", Int(output))]))];
    hide Get, KeySet, Sound, Fit, Ids, AllDistinct, AskedIds, Wired, Crashes, Body, UsageConforms;
    BodyGets(model, Obj(answers), input, output);
    AnswerNames(questions, readings);
    forall q | q in AskedOf(questions) ensures !CrashesAt(floats, answers, q) {
      var i :| 0 <= i < |questions| && AskedOf(questions)[i] == q;
      GetAt(answers, i);
      WiredRuns(floats, questions[i], readings[i]);
    }
  }

  lemma {:induction false} WiredRuns(floats: Floats, q: Question, r: Reading)
    requires Sound(q, r)
    ensures !Crashes(floats, q.kind, Wired(q, r))
  {
    WiredConforms(q, r);
    WiredHead(q, r);
    NamedGets(q.kind, Wired(q, r));
    assert q.kind.Score? ==> Wired(q, r)[1].value.Num?;
    hide Sound, Wired, Get, AnswerConforms, Named, Crashes;
    ConformingRuns(floats, q.kind, Wired(q, r));
  }

  lemma {:induction false} BodyConforms(model: string, questions: seq<Question>, readings: seq<Reading>, input: nat, output: nat)
    requires model != "" && input > 0
    requires AllSound(questions, readings) && AllDistinct(Ids(questions))
    ensures forall i :: 0 <= i < |questions| ==> Fit(questions[i], readings[i])
    ensures Conforms(Body(model, questions, readings, input, output), AskedOf(questions))
  {
    AnswersConform(questions, readings);
    hide Get, KeySet, UsageConforms, AnswerConforms, WiredAnswers, Sound, Fit, Ids, AllDistinct, AskedOf, AskedIds;
    BodyGets(model, Obj(WiredAnswers(questions, readings)), input, output);
  }

  lemma {:induction false} AnswerNames(questions: seq<Question>, readings: seq<Reading>)
    requires |questions| == |readings|
    requires forall i :: 0 <= i < |questions| ==> Fit(questions[i], readings[i])
    requires AllDistinct(Ids(questions))
    ensures KeySet(WiredAnswers(questions, readings)) == AskedIds(AskedOf(questions))
    ensures Distinct(WiredAnswers(questions, readings))
  {
    var answers, asked, ids := WiredAnswers(questions, readings), AskedOf(questions), Ids(questions);
    assert |answers| == |asked| == |ids|;
    forall i | 0 <= i < |questions| ensures answers[i].key == asked[i].id == ids[i] {
    }
    hide WiredAnswers, AskedOf, Ids, Fit;
  }

  lemma {:induction false} AnswersConform(questions: seq<Question>, readings: seq<Reading>)
    requires AllSound(questions, readings) && AllDistinct(Ids(questions))
    ensures forall i :: 0 <= i < |questions| ==> Fit(questions[i], readings[i])
    ensures |AskedOf(questions)| == |questions|
    ensures var answers, asked := WiredAnswers(questions, readings), AskedOf(questions);
            && KeySet(answers) == AskedIds(asked)
            && forall i :: 0 <= i < |asked| ==>
                 && Get(answers, asked[i].id).Obj?
                 && AnswerConforms(asked[i].kind, Get(answers, asked[i].id).fields)
  {
    assert forall i :: 0 <= i < |questions| ==> Fit(questions[i], readings[i]);
    assert |AskedOf(questions)| == |questions|;
    hide WiredAnswers, AskedOf, AskedIds, Ids, Fit, Get, KeySet, AnswerConforms, Wired, Sound, AllDistinct, Distinct;
    AnswerNames(questions, readings);
    var answers, asked := WiredAnswers(questions, readings), AskedOf(questions);
    forall i | 0 <= i < |asked|
      ensures Get(answers, asked[i].id).Obj? && AnswerConforms(asked[i].kind, Get(answers, asked[i].id).fields)
    {
      GetAt(answers, i);
      WiredConforms(questions[i], readings[i]);
    }
  }

  /** A real distribution over the candidates, and a confidence. */
  ghost predicate Measured(keys: seq<string>, r: Reading) {
    && |r.probabilities| == |keys|
    && (forall i :: 0 <= i < |r.probabilities| ==> r.probabilities[i] >= 0.0)
    && Sum(r.probabilities) == 1.0
    && 0.0 <= r.confidence <= 1.0
  }

  /** The adapter's body of an engine's result is one the client finds no problem with and meets no exception on. */
  ghost predicate Delivered(floats: Floats, model: string, questions: seq<Question>, readings: seq<Reading>, input: nat,
                            output: nat, engine: Json, usage: Fields, native: Fields) {
    && AllSound(questions, readings)
    && var body := Rendered(Payload(model, questions, readings, input, output, engine, usage, native), "typesafe");
       && body.Success? && Conforms(body.value, AskedOf(questions)) && Runs(floats, body.value, AskedOf(questions))
  }

  /** From the request body to the client: whatever is accepted and measured is served conforming. */
  lemma {:induction false} AcceptedIsServed(floats: Floats, payload: Json, readings: seq<Reading>, model: string, input: nat,
                                            output: nat, engine: Json, usage: Fields, native: Fields)
    requires WellFormed(payload) && RequestOf(TABLE, payload).Success?
    requires model != "" && input > 0
    requires var questions := RequestOf(TABLE, payload).value.questions;
             && |questions| == |readings|
             && forall i :: 0 <= i < |questions| ==> Measured(questions[i].candidates.keys, readings[i])
    ensures Delivered(floats, model, RequestOf(TABLE, payload).value.questions, readings, input, output, engine, usage, native)
  {
    hide RequestOf, WellFormed, Rendered, Payload, Conforms, Runs, Fits, Normalise;
    TableFits();
    AcceptedIsValid(TABLE, payload);
    var questions := RequestOf(TABLE, payload).value.questions;
    forall i | 0 <= i < |questions| ensures Sound(questions[i], readings[i]) {
      assert questions[i] in questions;
    }
    ServedBodyConforms(model, questions, readings, input, output, engine, usage, native);
    ServedBodyRuns(floats, model, questions, readings, input, output, engine, usage, native);
    assert |AskedOf(questions)| > 0;
  }
}
