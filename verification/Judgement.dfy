/** The client's judgement of a body, written out in the service's own words. */
module Judgement {
  import opened Documents
  import opened Rounding
  import opened Schema
  import opened Text
  import opened Wire
  import opened Wrappers

  ghost predicate UnitNumber(v: Json) {
    (v.Int? && (v.whole == 0 || v.whole == 1)) || (v.Num? && 0.0 <= v.num <= 1.0)
  }

  function Number(v: Json): real {
    if v.Int? then v.whole as real else if v.Num? then v.num else 0.0
  }

  function Numbers(fields: Fields): (ns: seq<real>)
    ensures |ns| == |fields|
  {
    seq(|fields|, i requires 0 <= i < |fields| => Number(fields[i].value))
  }

  /** Some numbers between zero and one that add up to one, give or take a hundred-thousandth. */
  ghost predicate Shares(v: Json) {
    && v.Obj? && v.fields != [] && (forall i :: 0 <= i < |v.fields| ==> UnitNumber(v.fields[i].value))
    && 0.99999 <= Sum(Numbers(v.fields)) <= 1.00001
  }

  ghost predicate FineNoul(a: Fields) {
    var ps := Get(a, "probabilities");
    && {"type", "noul"} <= KeySet(a) <= {"type", "noul", "probabilities"}
    && Get(a, "type") == Str("noul") && UnitNumber(Get(a, "noul"))
    && (ps == Null || (Shares(ps) && KeySet(ps.fields) == {"yes", "no"}))
  }

  ghost predicate FineChoice(a: Fields) {
    var ps, choice := Get(a, "probabilities"), Get(a, "choice");
    && KeySet(a) == {"type", "choice", "confidence", "probabilities"}
    && Get(a, "type") == Str("choice") && UnitNumber(Get(a, "confidence")) && Shares(ps)
    && choice.Str? && choice.text != ""
    && exists i :: 0 <= i < |ps.fields| && ps.fields[i].key == choice.text
                   && forall j :: 0 <= j < |ps.fields| ==> Numbers(ps.fields)[j] <= Numbers(ps.fields)[i]
  }

  ghost predicate FineScore(a: Fields) {
    var legend, score := Get(a, "legend"), Get(a, "score");
    && KeySet(a) == {"type", "score", "confidence", "legend", "probabilities"}
    && Get(a, "type") == Str("score") && UnitNumber(Get(a, "confidence")) && Shares(Get(a, "probabilities"))
    && legend.Obj? && legend.fields != []
    && Numbered(KeySet(legend.fields), |legend.fields|)
    && (score.Int? || score.Num?) && 0.0 <= Number(score) <= (|legend.fields| - 1) as real
  }

  ghost predicate Fine(kind: Kind, a: Fields) {
    match kind
    case Noul => FineNoul(a)
    case Choice => FineChoice(a)
    case Score => FineScore(a)
  }

  lemma {:induction false} TotalIsSum(fields: Fields)
    ensures Total(fields) == Sum(Numbers(fields))
  {
    if fields != [] {
      TotalIsSum(fields[1..]);
      assert Numbers(fields)[1..] == Numbers(fields[1..]);
    }
  }

  lemma UnitIff(v: Json)
    ensures Probability(v) <==> UnitNumber(v)
    ensures IsNumber(v) ==> Number(v) == NumberOf(v)
  {
  }

  lemma SharesIff(v: Json)
    ensures Distribution(v) <==> Shares(v)
    ensures Shares(v) ==> forall i :: 0 <= i < |v.fields| ==>
                            IsNumber(v.fields[i].value) && Numbers(v.fields)[i] == NumberOf(v.fields[i].value)
  {
    if v.Obj? {
      TotalIsSum(v.fields);
      forall i | 0 <= i < |v.fields| ensures Probability(v.fields[i].value) <==> UnitNumber(v.fields[i].value) {
        UnitIff(v.fields[i].value);
      }
    }
    hide Sum, Total;
  }

  lemma NoulIff(a: Fields)
    ensures AnswerConforms(Noul, a) <==> FineNoul(a)
  {
    SharesIff(Get(a, "probabilities"));
    UnitIff(Get(a, "noul"));
    hide Get, KeySet, Shares, Distribution, UnitNumber, Probability;
  }

  lemma ChoiceIff(a: Fields)
    ensures AnswerConforms(Choice, a) <==> FineChoice(a)
  {
    SharesIff(Get(a, "probabilities"));
    UnitIff(Get(a, "confidence"));
    if Shares(Get(a, "probabilities")) {
      WinnerIff(Get(a, "choice"), Get(a, "probabilities"));
    }
    hide Get, KeySet, Shares, Distribution, UnitNumber, Probability, Winner, Numbers;
  }

  lemma WinnerIff(choice: Json, ps: Json)
    requires Shares(ps)
    ensures forall i :: 0 <= i < |ps.fields| ==> IsNumber(ps.fields[i].value)
    ensures Winner(choice, ps.fields) <==>
              && choice.Str? && choice.text != ""
              && exists i :: 0 <= i < |ps.fields| && ps.fields[i].key == choice.text
                             && forall j :: 0 <= j < |ps.fields| ==> Numbers(ps.fields)[j] <= Numbers(ps.fields)[i]
  {
    SharesIff(ps);
    hide Shares, Numbers, Distribution;
  }

  lemma ScoreIff(a: Fields)
    ensures AnswerConforms(Score, a) <==> FineScore(a)
  {
    SharesIff(Get(a, "probabilities"));
    UnitIff(Get(a, "confidence"));
    UnitIff(Get(a, "score"));
    var legend := Get(a, "legend");
    hide Get, KeySet, Shares, Distribution, UnitNumber, Probability;
    if legend.Obj? {
      LevelsIff(KeySet(legend.fields), |legend.fields|);
    }
    hide Levels, Numbered;
  }

  /** The keys are the first `n` level numbers. */
  ghost predicate Numbered(keys: set<string>, n: nat) {
    && (forall i :: 0 <= i < n ==> Digits(i) in keys)
    && forall key <- keys :: exists i :: 0 <= i < n && key == Digits(i)
  }

  lemma LevelsIff(keys: set<string>, n: nat)
    ensures keys == Levels(n) <==> Numbered(keys, n)
  {
    if keys == Levels(n) {
      forall i | 0 <= i < n ensures Digits(i) in keys {
        assert Digits(i) in Levels(n);
      }
      forall key | key in keys ensures exists i :: 0 <= i < n && key == Digits(i) {
        var i :| 0 <= i < n && Digits(i) == key;
      }
    } else if Numbered(keys, n) {
      forall key ensures key in keys <==> key in Levels(n) {
        if key in keys {
          var i :| 0 <= i < n && Digits(i) == key;
        }
      }
      assert false;
    }
  }

  /** The body is fine: the service's three keys, a model's name, some counted input, and for exactly the questions
      asked an answer of the right type. */
  ghost predicate FineBody(payload: Json, expected: seq<Asked>) {
    && payload.Obj? && KeySet(payload.fields) == {"model", "answers", "usage"}
    && Get(payload.fields, "model").Str? && Get(payload.fields, "model").text != ""
    && FineUsage(Get(payload.fields, "usage"))
    && FineAnswers(Get(payload.fields, "answers"), expected)
  }

  ghost predicate FineUsage(usage: Json) {
    && usage.Obj? && KeySet(usage.fields) == {"input_tokens", "output_tokens"}
    && (forall i :: 0 <= i < |usage.fields| ==> usage.fields[i].value.Int? && usage.fields[i].value.whole >= 0)
    && Get(usage.fields, "input_tokens").Int? && Get(usage.fields, "input_tokens").whole > 0
  }

  ghost predicate FineAnswers(answers: Json, expected: seq<Asked>) {
    && answers.Obj?
    && (forall key :: key in KeySet(answers.fields) <==> exists i :: 0 <= i < |expected| && expected[i].id == key)
    && forall i :: 0 <= i < |expected| ==>
         Get(answers.fields, expected[i].id).Obj? && Fine(expected[i].kind, Get(answers.fields, expected[i].id).fields)
  }

  lemma AnswerIff(kind: Kind, a: Fields)
    ensures AnswerConforms(kind, a) <==> Fine(kind, a)
  {
    NoulIff(a);
    ChoiceIff(a);
    ScoreIff(a);
    hide AnswerConforms, FineNoul, FineChoice, FineScore;
  }

  lemma UsageIff(usage: Json)
    ensures UsageConforms(usage) <==> FineUsage(usage)
  {
    if usage.Obj? && KeySet(usage.fields) == {"input_tokens", "output_tokens"} {
      assert "input_tokens" in KeySet(usage.fields);
      var i :| 0 <= i < |usage.fields| && usage.fields[i] == Field("input_tokens", Get(usage.fields, "input_tokens"));
    }
    hide Get, KeySet;
  }

  lemma AnswersIff(answers: Json, expected: seq<Asked>)
    ensures FineAnswers(answers, expected) <==>
              && answers.Obj? && KeySet(answers.fields) == AskedIds(expected)
              && forall i :: 0 <= i < |expected| ==> ConformsAt(answers.fields, expected[i])
  {
    hide AnswerConforms, Fine, Get, KeySet;
    if answers.Obj? {
      forall i | 0 <= i < |expected| && Get(answers.fields, expected[i].id).Obj?
        ensures AnswerConforms(expected[i].kind, Get(answers.fields, expected[i].id).fields)
           <==> Fine(expected[i].kind, Get(answers.fields, expected[i].id).fields)
      {
        AnswerIff(expected[i].kind, Get(answers.fields, expected[i].id).fields);
      }
    }
  }

  /** The client finds no problem exactly with such a body. */
  lemma {:induction false} ConformsIff(payload: Json, expected: seq<Asked>)
    ensures Conforms(payload, expected) <==> FineBody(payload, expected)
  {
    if payload.Obj? {
      UsageIff(Get(payload.fields, "usage"));
      AnswersIff(Get(payload.fields, "answers"), expected);
    }
    hide UsageConforms, FineUsage, FineAnswers, Get, KeySet, ConformsAt, AskedIds;
  }

  /** Without questions the gate's own three are asked for. */
  lemma GateIsExpected(asked: seq<Asked>)
    ensures Expected([]) == [Asked("renew_style", Choice), Asked("risk", Score), Asked("escalate", Noul)]
    ensures asked != [] ==> Expected(asked) == asked
  {
  }

  // ---------------------------------------------------------------- special floats

  ghost predicate Has(fields: Fields, special: Special) {
    exists i :: 0 <= i < |fields| && fields[i].value == NotFinite(special)
  }

  /** The sum is NaN with a NaN or with both infinities among the values, infinite with one of them alone, and
      otherwise the sum of the numbers. */
  lemma {:induction false} FloatSumMeans(fields: Fields)
    ensures FloatSum(fields)
         == if Has(fields, NaN) || (Has(fields, Infinity) && Has(fields, MinusInfinity)) then NotFinite(NaN)
            else if Has(fields, Infinity) then NotFinite(Infinity)
            else if Has(fields, MinusInfinity) then NotFinite(MinusInfinity)
            else Num(Sum(Numbers(fields)))
    decreases |fields|
  {
    if fields == [] {
      assert Numbers(fields) == [];
    } else {
      var n := |fields| - 1;
      FloatSumMeans(fields[..n]);
      HasLast(fields, NaN);
      HasLast(fields, Infinity);
      HasLast(fields, MinusInfinity);
      SumLast(Numbers(fields));
      assert Numbers(fields)[..n] == Numbers(fields[..n]);
      NumbersAt(fields, n);
      if fields[n].value.NotFinite? {
        SpecialIs(fields[n].value);
      }
      hide Has, Sum, Numbers;
    }
  }

  lemma NumbersAt(fields: Fields, i: nat)
    requires i < |fields|
    ensures Numbers(fields)[i] == Number(fields[i].value)
  {
  }

  lemma HasLast(fields: Fields, special: Special)
    requires fields != []
    ensures Has(fields, special) <==>
            Has(fields[..|fields| - 1], special) || fields[|fields| - 1].value == NotFinite(special)
  {
    var init := fields[..|fields| - 1];
    if Has(init, special) {
      var i :| 0 <= i < |init| && init[i].value == NotFinite(special);
      assert fields[i].value == NotFinite(special);
    }
    if Has(fields, special) && fields[|fields| - 1].value != NotFinite(special) {
      var i :| 0 <= i < |fields| && fields[i].value == NotFinite(special);
      assert init[i].value == NotFinite(special);
    }
  }

  lemma {:induction false} SumLast(xs: seq<real>)
    requires xs != []
    ensures Sum(xs) == Sum(xs[..|xs| - 1]) + xs[|xs| - 1]
  {
    if |xs| > 1 {
      SumLast(xs[1..]);
      assert xs[1..][..|xs| - 2] == xs[..|xs| - 1][1..];
    } else {
      assert xs[..0] == [] && xs[1..] == [];
    }
  }

  /** So a sum is reported exactly when the numbers alone are off one by more than a hundred-thousandth or there is
      just one kind of infinity; a NaN is never reported as a wrong sum. */
  lemma SumReported(fields: Fields)
    ensures FarFromOne(FloatSum(fields)) <==>
            && !Has(fields, NaN) && !(Has(fields, Infinity) && Has(fields, MinusInfinity))
            && (|| Has(fields, Infinity) || Has(fields, MinusInfinity)
                || !(0.99999 <= Sum(Numbers(fields)) <= 1.00001))
  {
    FloatSumMeans(fields);
    hide Has, Sum, Numbers, FloatSum;
  }

  /** Once the first number is NaN nothing exceeds it and nothing equals it, so no label wins. */
  lemma {:induction false} NaNFirstNobodyWins(floats: Floats, fields: Fields, n: nat, name: string)
    requires fields != [] && fields[0].value == NotFinite(NaN) && n <= |fields|
    ensures Best(fields) == Some(NotFinite(NaN)) && !Wins(floats, fields, n, name)
  {
    if |fields| > 1 {
      NaNFirstNobodyWins(floats, fields[..|fields| - 1], 0, name);
    } else {
      assert fields[..0] == [];
    }
  }

  /** Without a NaN the best is one of the numbers and no other exceeds it. */
  lemma {:induction false} BestIsGreatest(fields: Fields)
    requires !Has(fields, NaN)
    ensures Best(fields).None? <==> forall i :: 0 <= i < |fields| ==> !IsNumeric(fields[i].value)
    ensures Best(fields).Some? ==> Greatest(fields, Best(fields).value)
    decreases |fields|
  {
    if fields != [] {
      var n := |fields| - 1;
      var init, v := fields[..n], fields[n].value;
      HasLast(fields, NaN);
      BestIsGreatest(init);
      BestLast(fields);
      assert forall k :: 0 <= k < n ==> init[k] == fields[k];
      hide Best, Has;
      if IsNumeric(v) && Best(init).Some? {
        Compared(Float(v), Best(init).value);
        forall i | 0 <= i < |fields| && IsNumeric(fields[i].value) ensures AtMost(Float(fields[i].value), Best(fields).value) {
          if i < n {
            Ordered(Float(init[i].value), Best(init).value, Best(fields).value);
          }
        }
      }
    }
  }

  /** One of the numbers, and at least every one of them. */
  ghost predicate Greatest(fields: Fields, best: Json) {
    && (exists k :: 0 <= k < |fields| && IsNumeric(fields[k].value) && Float(fields[k].value) == best)
    && forall i :: 0 <= i < |fields| && IsNumeric(fields[i].value) ==> AtMost(Float(fields[i].value), best)
  }

  lemma Compared(a: Json, b: Json)
    requires IsNumeric(a) && IsNumeric(b) && !a.Int? && !b.Int? && a != NotFinite(NaN) && b != NotFinite(NaN)
    ensures Greater(a, b) ==> AtMost(b, a)
    ensures !Greater(a, b) ==> AtMost(a, b)
  {
    if a.NotFinite? {
      SpecialIs(a);
    }
    if b.NotFinite? {
      SpecialIs(b);
    }
  }

  lemma SpecialIs(v: Json)
    requires v.NotFinite?
    ensures v == NotFinite(NaN) || v == NotFinite(Infinity) || v == NotFinite(MinusInfinity)
  {
    match v.special
    case NaN =>
    case Infinity =>
    case MinusInfinity =>
  }

  lemma Ordered(a: Json, b: Json, c: Json)
    requires AtMost(a, b) && AtMost(b, c)
    ensures AtMost(a, c) || b == NotFinite(NaN)
  {
  }

  function Float(v: Json): Json
    requires IsNumeric(v)
  {
    if v.NotFinite? then v else Num(NumberOf(v))
  }

  /** The order of floats: minus infinity, the numbers, infinity. */
  predicate AtMost(a: Json, b: Json) {
    a == b || a == NotFinite(MinusInfinity) || b == NotFinite(Infinity) || (a.Num? && b.Num? && a.num <= b.num)
  }

  function Better(before: Option<Json>, v: Json): Option<Json> {
    if !IsNumeric(v) then before
    else if before.None? || Greater(Float(v), before.value) then Some(Float(v)) else before
  }

  lemma BestLast(fields: Fields)
    requires fields != []
    ensures Best(fields) == Better(Best(fields[..|fields| - 1]), fields[|fields| - 1].value)
  {
  }

  /** `float()` of the values it takes without parsing: numbers, booleans as one and zero, special floats. */
  lemma FloatsMean(floats: Floats, x: real, special: Special)
    ensures FloatOf(floats, Num(x)) == Some(Num(x)) && FloatOf(floats, Int(7)) == Some(Num(7.0))
    ensures FloatOf(floats, Flag(true)) == Some(Num(1.0)) && FloatOf(floats, Flag(false)) == Some(Num(0.0))
    ensures FloatOf(floats, NotFinite(special)) == Some(NotFinite(special))
    ensures FloatOf(floats, Null) == None && FloatOf(floats, Arr([])) == None && FloatOf(floats, Obj([])) == None
  {
  }
}
