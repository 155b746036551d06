/** JSON documents: objects keep the order of their keys, and the wire rounds every float in a document. */
module Documents {
  import opened Rounding

  /** The floats that are no numbers, which the decoder takes as `NaN`, `Infinity` and `-Infinity`. */
  datatype Special = NaN | Infinity | MinusInfinity

  datatype Json =
    | Null
    | Flag(flag: bool)
    | Int(whole: int)
    | Num(num: real)
    | NotFinite(special: Special)
    | Str(text: string)
    | Arr(items: seq<Json>)
    | Obj(fields: Fields)

  datatype Field = Field(key: string, value: Json)

  type Fields = seq<Field>

  function KeySet(fields: Fields): set<string> {
    set i | 0 <= i < |fields| :: fields[i].key
  }

  predicate Distinct(fields: Fields) {
    forall i, j :: 0 <= i < j < |fields| ==> fields[i].key != fields[j].key
  }

  /** Every object of the document has each key once, as a decoded document always does. */
  predicate WellFormed(v: Json) {
    match v
    case Arr(items) => forall i :: 0 <= i < |items| ==> WellFormed(items[i])
    case Obj(fields) => Distinct(fields) && forall i :: 0 <= i < |fields| ==> WellFormed(fields[i].value)
    case _ => true
  }

  /** `mapping.get(key)`: null where the key is missing. */
  function Get(fields: Fields, key: string): (v: Json)
    ensures key !in KeySet(fields) ==> v == Null
    ensures key in KeySet(fields) ==> exists i :: 0 <= i < |fields| && fields[i] == Field(key, v)
  {
    if fields == [] then Null
    else if fields[0].key == key then assert fields[0] == Field(key, fields[0].value); fields[0].value
    else
      assert KeySet(fields) == {fields[0].key} + KeySet(fields[1..]);
      Get(fields[1..], key)
  }

  lemma GetAt(fields: Fields, i: nat)
    requires Distinct(fields) && i < |fields|
    ensures fields[i].key in KeySet(fields) && Get(fields, fields[i].key) == fields[i].value
  {
  }

  /** A finite number. */
  predicate IsNumber(v: Json) {
    v.Int? || v.Num?
  }

  /** `isinstance(value, (int, float))`, booleans apart. */
  predicate IsNumeric(v: Json) {
    IsNumber(v) || v.NotFinite?
  }

  function NumberOf(v: Json): real
    requires IsNumber(v)
  {
    if v.Int? then v.whole as real else v.num
  }

  /** A value `not` is true of. */
  predicate Falsy(v: Json) {
    match v
    case Null => true
    case Flag(b) => !b
    case Int(n) => n == 0
    case Num(x) => x == 0.0
    case NotFinite(_) => false
    case Str(s) => s == ""
    case Arr(items) => items == []
    case Obj(fields) => fields == []
  }

  lemma FalsyIff(v: Json)
    ensures Falsy(v) <==>
            || v == Null || v == Flag(false) || v == Int(0) || v == Num(0.0) || v == Str("") || v == Arr([]) || v == Obj([])
  {
  }

  /** 2^1024 - 2^970: from this magnitude on an integer rounds beyond the largest double. */
  const FLOAT_LIMIT: int :=
    0x3F_FFFF_FFFF_FFFF
    * 0x4_0000_0000_0000_0000_0000_0000_0000_0000_0000_0000_0000_0000
    * 0x4_0000_0000_0000_0000_0000_0000_0000_0000_0000_0000_0000_0000
    * 0x4_0000_0000_0000_0000_0000_0000_0000_0000_0000_0000_0000_0000
    * 0x4_0000_0000_0000_0000_0000_0000_0000_0000_0000_0000_0000_0000
    * 0x4_0000_0000_0000_0000_0000_0000_0000_0000_0000_0000_0000_0000

  /** An integer for which `float()` raises OverflowError. */
  predicate Overflows(v: Json) {
    v.Int? && !(-FLOAT_LIMIT < v.whole < FLOAT_LIMIT)
  }

  /** The first integer that overflows is the limit itself, on either side of zero; no other value does. */
  lemma OverflowsIff(v: Json)
    ensures Overflows(v) <==> v.Int? && (v.whole >= FLOAT_LIMIT || v.whole <= -FLOAT_LIMIT)
  {
    hide FLOAT_LIMIT;
  }

  // ---------------------------------------------------------------- rounding

  /** `_round_tree`: floats are rounded, everything else is copied. */
  function RoundTree(v: Json): Json {
    match v
    case Num(x) => Num(RoundSig(x))
    case Arr(items) => Arr(seq(|items|, i requires 0 <= i < |items| => RoundTree(items[i])))
    case Obj(fields) =>
      Obj(seq(|fields|, i requires 0 <= i < |fields| => Field(fields[i].key, RoundTree(fields[i].value))))
    case _ => v
  }

  /** Rendering the native form again changes nothing. */
  lemma {:induction false} RoundTreeIdempotent(v: Json)
    ensures RoundTree(RoundTree(v)) == RoundTree(v)
  {
    match v
    case Num(x) => RoundIdempotent(x);
    case Arr(items) =>
      forall i | 0 <= i < |items| ensures RoundTree(RoundTree(items[i])) == RoundTree(items[i]) {
        RoundTreeIdempotent(items[i]);
      }
    case Obj(fields) =>
      forall i | 0 <= i < |fields| ensures RoundTree(RoundTree(fields[i].value)) == RoundTree(fields[i].value) {
        RoundTreeIdempotent(fields[i].value);
      }
    case _ =>
  }

  lemma RoundedKeys(fields: Fields)
    ensures |RoundTree(Obj(fields)).fields| == |fields|
    ensures KeySet(RoundTree(Obj(fields)).fields) == KeySet(fields)
    ensures Distinct(fields) ==> Distinct(RoundTree(Obj(fields)).fields)
  {
    var rounded := RoundTree(Obj(fields)).fields;
    assert forall i :: 0 <= i < |fields| ==> rounded[i].key == fields[i].key;
  }

  lemma {:induction false} RoundedGet(fields: Fields, key: string)
    ensures Get(RoundTree(Obj(fields)).fields, key) == RoundTree(Get(fields, key))
  {
    if fields != [] {
      RoundedGet(fields[1..], key);
      assert RoundTree(Obj(fields)).fields[1..] == RoundTree(Obj(fields[1..])).fields;
    }
  }
}
