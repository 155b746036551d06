/** The command line: the argument loop and the `id=instructions:a|b` questions of `ask`. */
module CommandLine {
  import opened Documents
  import opened Schema
  import opened Sequences
  import opened Text
  import opened Wrappers

  // ---------------------------------------------------------------- splitting

  datatype Parts = Parts(before: string, found: bool, after: string)

  /** `s.partition(c)`. */
  function Partition(s: string, c: char): Parts {
    if s == "" then Parts("", false, "")
    else if s[0] == c then Parts("", true, s[1..])
    else
      var rest := Partition(s[1..], c);
      Parts([s[0]] + rest.before, rest.found, rest.after)
  }

  lemma {:induction false} PartitionAt(s: string, c: char, t: string)
    requires c !in s
    ensures Partition(s + [c] + t, c) == Parts(s, true, t)
    ensures Partition(s, c) == Parts(s, false, "")
  {
    if s == "" {
      assert s + [c] + t == [c] + t;
    } else {
      PartitionAt(s[1..], c, t);
      assert (s + [c] + t)[1..] == s[1..] + [c] + t;
      assert [s[0]] + s[1..] == s;
    }
  }

  lemma {:induction false} PartitionOf(s: string, c: char)
    ensures c !in Partition(s, c).before
    ensures Partition(s, c).found ==> s == Partition(s, c).before + [c] + Partition(s, c).after
    ensures !Partition(s, c).found ==> s == Partition(s, c).before && Partition(s, c).after == ""
  {
    if s != "" && s[0] != c {
      PartitionOf(s[1..], c);
      assert s == [s[0]] + s[1..];
    }
  }

  /** `s.split("|")`, blank parts dropped and the others stripped. */
  function Labels(s: string): seq<string>
    decreases |s|
  {
    PartitionOf(s, '|');
    var part := Partition(s, '|');
    (if Blank(part.before) then [] else [Strip(part.before)]) + if part.found then Labels(part.after) else []
  }

  function Joined(labels: seq<string>): string {
    if labels == [] then "" else if |labels| == 1 then labels[0] else labels[0] + "|" + Joined(labels[1..])
  }

  /** A label that survives being written between bars. */
  predicate Plain(part: string) {
    !Blank(part) && Strip(part) == part && '|' !in part
  }

  lemma {:induction false} LabelsRoundTrip(labels: seq<string>)
    requires forall l <- labels :: Plain(l)
    ensures Labels(Joined(labels)) == labels
    ensures labels != [] ==> !Blank(Joined(labels))
  {
    hide *;
    if labels == [] {
      NoLabels();
    } else {
      var first, rest := labels[0], labels[1..];
      assert first in labels;
      JoinedStarts(first, rest);
      LabelsStart(first, Joined(rest));
      assert labels == [first] + rest;
      if rest != [] {
        assert forall l :: l in rest ==> l in labels;
        LabelsRoundTrip(rest);
      } else {
        assert labels == [first];
      }
    }
  }

  lemma NoLabels()
    ensures Joined([]) == "" && Labels("") == []
  {
  }

  lemma JoinedStarts(first: string, rest: seq<string>)
    ensures Joined([first] + rest) == if rest == [] then first else first + "|" + Joined(rest)
  {
    assert ([first] + rest)[1..] == rest;
  }

  /** A plain label is a part of its own, before a bar and at the end. */
  lemma LabelsStart(first: string, after: string)
    requires Plain(first)
    ensures Labels(first) == [first] && Labels(first + "|" + after) == [first] + Labels(after)
    ensures !Blank(first) && !Blank(first + "|" + after)
  {
    PartitionAt(first, '|', after);
    assert first + "|" + after == first + ['|'] + after;
    assert !Blank(first) && Strip(first) == first;
    hide Blank, Strip, Partition, Plain;
    StartsFilled(first, "|" + after);
    assert first + ("|" + after) == first + "|" + after;
  }

  lemma StartsFilled(a: string, b: string)
    requires !Blank(a)
    ensures !Blank(a + b)
  {
    var k :| 0 <= k < |a| && !Space(a[k]);
    assert (a + b)[k] == a[k];
  }

  // ---------------------------------------------------------------- the argument loop

  datatype Given = Truth | One(text: string) | Many(texts: seq<string>)

  type Options = map<string, Given>

  datatype Parsed = Parsed(positionals: seq<string>, options: Options)

  /** The names a command declares, with underscores for dashes. */
  datatype Declared = Declared(values: set<string>, flags: set<string>, repeats: set<string>)

  datatype Stop = NeedsValue(name: string) | Unknown(name: string) | CannotAppend(name: string)

  predicate Dashed(arg: string) {
    |arg| >= 2 && arg[0] == '-' && arg[1] == '-'
  }

  function Key(name: string): string {
    seq(|name|, i requires 0 <= i < |name| => if name[i] == '-' then '_' else name[i])
  }

  function Appended(options: Options, key: string, text: string): Option<Options> {
    if key !in options then Some(options[key := Many([text])])
    else if options[key].Many? then Some(options[key := Many(options[key].texts + [text])])
    else None
  }

  /** What the remaining arguments add to what is collected already. */
  function ArgsFrom(d: Declared, args: seq<string>, positionals: seq<string>, options: Options): Result<Parsed, Stop>
    decreases |args|
  {
    if args == [] then Success(Parsed(positionals, options))
    else if !Dashed(args[0]) then ArgsFrom(d, args[1..], positionals + [args[0]], options)
    else
      var part := Partition(args[0][2..], '=');
      var key := Key(part.before);
      if part.after != "" then ArgsFrom(d, args[1..], positionals, options[key := One(part.after)])
      else if key in d.flags then ArgsFrom(d, args[1..], positionals, options[key := Truth])
      else if key !in d.values && key !in d.repeats then Failure(Unknown(part.before))
      else if |args| < 2 then Failure(NeedsValue(part.before))
      else if key in d.repeats then
        var more := Appended(options, key, args[1]);
        if more.None? then Failure(CannotAppend(part.before)) else ArgsFrom(d, args[2..], positionals, more.value)
      else ArgsFrom(d, args[2..], positionals, options[key := One(args[1])])
  }

  /** `_parse_args`: the loop over the index. */
  method ParseArgs(d: Declared, args: seq<string>) returns (r: Result<Parsed, Stop>)
    ensures r == ArgsFrom(d, args, [], map[])
  {
    hide Partition, Key;
    var positionals: seq<string>, options: Options, index := [], map[], 0;
    assert args[0..] == args;
    while index < |args|
      invariant 0 <= index <= |args|
      invariant ArgsFrom(d, args[index..], positionals, options) == ArgsFrom(d, args, [], map[])
    {
      var arg := args[index];
      assert args[index..][1..] == args[index + 1..];
      if Dashed(arg) {
        var part := Partition(arg[2..], '=');
        var key := Key(part.before);
        if part.after != "" {
          options := options[key := One(part.after)];
        } else if key in d.flags {
          options := options[key := Truth];
        } else if key in d.values || key in d.repeats {
          if index + 1 >= |args| {
            return Failure(NeedsValue(part.before));
          }
          assert args[index..][2..] == args[index + 2..] && args[index..][1] == args[index + 1];
          var value := args[index + 1];
          if key in d.repeats {
            var more := Appended(options, key, value);
            if more.None? {
              return Failure(CannotAppend(part.before));
            }
            options := more.value;
          } else {
            options := options[key := One(value)];
          }
          index := index + 1;
        } else {
          return Failure(Unknown(part.before));
        }
      } else {
        positionals := positionals + [arg];
      }
      index := index + 1;
    }
    return Success(Parsed(positionals, options));
  }

  // ---------------------------------------------------------------- printing a command line

  datatype Token = Switch(name: string) | Setting(name: string, value: string) | Word(text: string)

  function Print(t: Token): seq<string> {
    match t
    case Switch(name) => ["--" + name]
    case Setting(name, value) => ["--" + name, value]
    case Word(text) => [text]
  }

  function PrintAll(ts: seq<Token>): seq<string> {
    if ts == [] then [] else Print(ts[0]) + PrintAll(ts[1..])
  }

  /** A token the command knows, written with its value apart. */
  predicate Spoken(d: Declared, t: Token) {
    match t
    case Switch(name) => '=' !in name && Key(name) in d.flags
    case Setting(name, _) => '=' !in name && Key(name) in d.values + d.repeats && Key(name) !in d.flags
    case Word(text) => !Dashed(text)
  }

  /** The words among the tokens, and the values given for a key, in order. */
  function Words(ts: seq<Token>): seq<string> {
    if ts == [] then [] else (if ts[0].Word? then [ts[0].text] else []) + Words(ts[1..])
  }

  function Values(ts: seq<Token>, key: string): seq<string> {
    if ts == [] then []
    else (if ts[0].Setting? && Key(ts[0].name) == key then [ts[0].value] else []) + Values(ts[1..], key)
  }

  predicate Switched(ts: seq<Token>, key: string) {
    exists t <- ts :: t.Switch? && Key(t.name) == key
  }

  /** What a key ends up as: every value of a repeatable one, the last value of another, or a flag. */
  function Gathered(repeats: bool, values: seq<string>, switched: bool, before: Option<Given>): Option<Given> {
    if values == [] then (if switched then Some(Truth) else before)
    else if repeats then Some(Many((if before.Some? && before.value.Many? then before.value.texts else []) + values))
    else Some(One(values[|values| - 1]))
  }

  function Collected(d: Declared, ts: seq<Token>, key: string, before: Option<Given>): Option<Given> {
    Gathered(key in d.repeats, Values(ts, key), Switched(ts, key), before)
  }

  function Held(options: Options, key: string): Option<Given> {
    if key in options then Some(options[key]) else None
  }

  ghost predicate ListsHeld(d: Declared, options: Options) {
    forall k <- d.repeats :: k in options ==> options[k].Many?
  }

  lemma {:induction false} PrintedName(name: string)
    requires '=' !in name
    ensures Dashed("--" + name) && ("--" + name)[2..] == name
    ensures Partition(name, '=') == Parts(name, false, "")
  {
    PartitionAt(name, '=', "");
  }

  /** What one token adds to the words and to the options. */
  function Say(t: Token, positionals: seq<string>): seq<string> {
    if t.Word? then positionals + [t.text] else positionals
  }

  function Give(d: Declared, t: Token, options: Options): Options {
    match t
    case Word(_) => options
    case Switch(name) => options[Key(name) := Truth]
    case Setting(name, value) =>
      if Key(name) in d.repeats then
        var more := Appended(options, Key(name), value);
        if more.None? then options else more.value
      else options[Key(name) := One(value)]
  }

  /** The loop recovers the words, and for every key what its tokens say, whatever the values look like. */
  lemma {:induction false} PrintedIsParsed(d: Declared, ts: seq<Token>, positionals: seq<string>, options: Options, key: string)
    requires d.flags !! d.repeats && ListsHeld(d, options)
    requires forall t <- ts :: Spoken(d, t)
    ensures ArgsFrom(d, PrintAll(ts), positionals, options).Success?
    ensures ArgsFrom(d, PrintAll(ts), positionals, options).value.positionals == positionals + Words(ts)
    ensures Held(ArgsFrom(d, PrintAll(ts), positionals, options).value.options, key)
            == Collected(d, ts, key, Held(options, key))
    decreases |ts|
  {
    hide *;
    if ts == [] {
      NothingParsed(d, positionals, options, key);
    } else {
      SpokenParts(d, ts);
      FirstToken(d, ts, positionals, options);
      PrintedIsParsed(d, ts[1..], Say(ts[0], positionals), Give(d, ts[0], options), key);
      CollectedStep(d, ts, key, options);
    }
  }

  lemma {:induction false} SpokenParts(d: Declared, ts: seq<Token>)
    requires ts != [] && forall t <- ts :: Spoken(d, t)
    ensures Spoken(d, ts[0]) && forall t <- ts[1..] :: Spoken(d, t)
  {
    hide Spoken;
  }

  lemma {:induction false} FirstToken(d: Declared, ts: seq<Token>, positionals: seq<string>, options: Options)
    requires ts != [] && d.flags !! d.repeats && ListsHeld(d, options) && Spoken(d, ts[0])
    ensures ArgsFrom(d, PrintAll(ts), positionals, options)
            == ArgsFrom(d, PrintAll(ts[1..]), Say(ts[0], positionals), Give(d, ts[0], options))
    ensures ListsHeld(d, Give(d, ts[0], options))
    ensures Say(ts[0], positionals) + Words(ts[1..]) == positionals + Words(ts)
  {
    hide *;
    PrintStep(ts);
    SayStep(ts, positionals);
    OneToken(d, ts[0], PrintAll(ts[1..]), positionals, options);
  }

  lemma PrintStep(ts: seq<Token>)
    requires ts != []
    ensures PrintAll(ts) == Print(ts[0]) + PrintAll(ts[1..])
  {
    hide Print;
  }

  lemma {:induction false} SayStep(ts: seq<Token>, positionals: seq<string>)
    requires ts != []
    ensures Say(ts[0], positionals) + Words(ts[1..]) == positionals + Words(ts)
  {
    var rest := Words(ts[1..]);
    if ts[0].Word? {
      assert positionals + [ts[0].text] + rest == positionals + ([ts[0].text] + rest);
    } else {
      assert [] + rest == rest;
    }
  }

  lemma {:induction false} NothingParsed(d: Declared, positionals: seq<string>, options: Options, key: string)
    ensures PrintAll([]) == [] && Words([]) == []
    ensures ArgsFrom(d, [], positionals, options) == Success(Parsed(positionals + [], options))
    ensures Collected(d, [], key, Held(options, key)) == Held(options, key)
  {
    assert positionals + [] == positionals;
  }

  /** One printed token is one or two steps of the loop. */
  lemma {:induction false} OneToken(d: Declared, t: Token, rest: seq<string>, positionals: seq<string>, options: Options)
    requires d.flags !! d.repeats && ListsHeld(d, options) && Spoken(d, t)
    ensures ArgsFrom(d, Print(t) + rest, positionals, options) == ArgsFrom(d, rest, Say(t, positionals), Give(d, t, options))
    ensures ListsHeld(d, Give(d, t, options))
  {
    var args := Print(t) + rest;
    match t {
      case Word(_) =>
        assert args[1..] == rest;
      case Switch(name) =>
        PrintedName(name);
        assert args[1..] == rest;
      case Setting(name, _) =>
        PrintedName(name);
        assert args[2..] == rest && |args| >= 2;
    }
    hide Partition, Key, Dashed;
  }

  /** Whether a token says something about a key. */
  predicate Speaks(t: Token, key: string) {
    match t
    case Switch(name) => Key(name) == key
    case Setting(name, _) => Key(name) == key
    case Word(_) => false
  }

  lemma ValuesStep(ts: seq<Token>, key: string)
    requires ts != []
    ensures Values(ts, key) == (if ts[0].Setting? && Speaks(ts[0], key) then [ts[0].value] else []) + Values(ts[1..], key)
    ensures !Speaks(ts[0], key) ==> Values(ts, key) == Values(ts[1..], key)
  {
    hide Key;
  }

  lemma GiveOther(d: Declared, t: Token, options: Options, key: string)
    requires !Speaks(t, key)
    ensures Held(Give(d, t, options), key) == Held(options, key)
  {
    hide Key;
  }

  lemma GiveSetting(d: Declared, t: Token, options: Options, key: string)
    requires t.Setting? && Speaks(t, key) && ListsHeld(d, options)
    ensures if key in d.repeats then Appended(options, key, t.value) == Some(Give(d, t, options))
            else Held(Give(d, t, options), key) == Some(One(t.value))
  {
    hide Key;
  }

  lemma GiveSwitch(d: Declared, t: Token, options: Options, key: string)
    requires t.Switch? && Speaks(t, key)
    ensures Held(Give(d, t, options), key) == Some(Truth)
  {
    hide Key;
  }

  lemma {:induction false} CollectedStep(d: Declared, ts: seq<Token>, key: string, options: Options)
    requires ts != [] && ListsHeld(d, options) && d.flags !! d.repeats
    requires forall t <- ts :: Spoken(d, t)
    ensures Collected(d, ts[1..], key, Held(Give(d, ts[0], options), key)) == Collected(d, ts, key, Held(options, key))
  {
    var t, rest := ts[0], ts[1..];
    assert t.Setting? && Speaks(t, key) ==> key !in d.flags by {
      assert Spoken(d, t);
    }
    hide Key, Switched, Spoken, Values, Held, ListsHeld;
    ValuesStep(ts, key);
    SwitchedStep(ts, key);
    SpokenParts(d, ts);
    NotBoth(d, ts, key);
    NotBoth(d, rest, key);
    if !Speaks(t, key) {
      hide Gathered, Give;
      GiveOther(d, t, options, key);
    } else if t.Setting? {
      hide Give, Gathered;
      GiveSetting(d, t, options, key);
      if key in d.repeats {
        GatheredRepeat(options, key, t.value, Give(d, t, options), Values(rest, key));
      } else {
        GatheredLast(Held(options, key), t.value, Values(rest, key));
      }
    } else {
      GiveSwitch(d, t, options, key);
    }
  }

  lemma {:induction false} GatheredRepeat(options: Options, key: string, value: string, options': Options, values: seq<string>)
    requires Appended(options, key, value) == Some(options')
    ensures Gathered(true, values, false, Held(options', key)) == Gathered(true, [value] + values, false, Held(options, key))
  {
    var held := if key in options then options[key].texts else [];
    assert options'[key] == Many(held + [value]) by {
      assert [] + [value] == [value];
    }
    assert held + [value] + values == held + ([value] + values);
    if values == [] {
      assert held + [value] + [] == held + [value];
    }
  }

  lemma GatheredLast(before: Option<Given>, value: string, values: seq<string>)
    ensures Gathered(false, values, false, Some(One(value))) == Gathered(false, [value] + values, false, before)
  {
  }

  lemma {:induction false} SwitchedStep(ts: seq<Token>, key: string)
    requires ts != []
    ensures Switched(ts, key) <==> (ts[0].Switch? && Key(ts[0].name) == key) || Switched(ts[1..], key)
  {
    hide Key;
    assert ts == [ts[0]] + ts[1..];
  }

  /** A key is either switched or given values, never both. */
  lemma {:induction false} NotBoth(d: Declared, ts: seq<Token>, key: string)
    requires forall t <- ts :: Spoken(d, t)
    ensures Switched(ts, key) ==> key in d.flags && Values(ts, key) == []
    ensures Values(ts, key) != [] ==> key !in d.flags
  {
    hide Key;
    if ts != [] {
      assert Spoken(d, ts[0]);
      assert forall u :: u in ts[1..] ==> u in ts;
      SwitchedStep(ts, key);
      NotBoth(d, ts[1..], key);
      hide Switched;
    }
  }

  // ---------------------------------------------------------------- inline values

  /** `--name=value` is taken for any name, declared or not. */
  lemma {:induction false} InlineIsTaken(d: Declared, name: string, value: string, rest: seq<string>,
                                         positionals: seq<string>, options: Options)
    requires '=' !in name && value != ""
    ensures ArgsFrom(d, ["--" + name + "=" + value] + rest, positionals, options)
            == ArgsFrom(d, rest, positionals, options[Key(name) := One(value)])
  {
    var arg := "--" + name + "=" + value;
    var args := [arg] + rest;
    PartitionAt(name, '=', value);
    assert arg[2..] == name + ['='] + value;
    assert args[1..] == rest && args[0] == arg;
    hide Key, Partition;
  }

  /** `--name=` with nothing after it is `--name`: it takes the next argument as its value. */
  lemma {:induction false} EmptyInlineTakesNext(d: Declared, name: string, rest: seq<string>, positionals: seq<string>, options: Options)
    requires '=' !in name
    ensures ArgsFrom(d, ["--" + name + "="] + rest, positionals, options)
            == ArgsFrom(d, ["--" + name] + rest, positionals, options)
  {
    var arg, plain := "--" + name + "=", "--" + name;
    PartitionAt(name, '=', "");
    assert arg[2..] == name + ['='] + "" && plain[2..] == name;
    var args, plains := [arg] + rest, [plain] + rest;
    assert args[1..] == rest == plains[1..];
    if rest != [] {
      assert args[2..] == rest[1..] == plains[2..];
    }
    hide Key, Partition;
  }

  // ---------------------------------------------------------------- the questions of `ask`

  /** The keys of `{part: None for part in parts}`: the first of equal parts. */
  function Once(parts: seq<string>): seq<string> {
    if parts == [] then []
    else
      var before, last := Once(parts[..|parts| - 1]), parts[|parts| - 1];
      if last in before then before else before + [last]
  }

  function NullFields(keys: seq<string>): Fields {
    seq(|keys|, i requires 0 <= i < |keys| => Field(keys[i], Null))
  }

  function Texts(parts: seq<string>): seq<Json> {
    seq(|parts|, i requires 0 <= i < |parts| => Str(parts[i]))
  }

  function Instructed(instructions: string): Fields {
    if instructions == "" then [] else [Field("instructions", Str(instructions))]
  }

  /** `_ask_question`: one `id=instructions:a|b` into a question body. */
  function Asked(spec: string, kind: Kind): Result<Field, Code> {
    var head := Partition(spec, '=');
    if !head.found || Blank(head.before) then Failure(QidInvalid)
    else if kind.Noul? then
      Success(Field(head.before, Obj([Field("type", Str("noul"))] + Instructed(head.after))))
    else
      var body := Partition(head.after, ':');
      if !body.found || Blank(body.after) then Failure(if kind.Choice? then ChoiceCriteria else ScoreLevels)
      else
        var parts := Labels(body.after);
        var criteria := if kind.Choice? then Obj(NullFields(Once(parts))) else Arr(Texts(parts));
        Success(Field(head.before,
                      Obj([Field("type", Str(KindName(kind))), Field("criteria", criteria)] + Instructed(body.before))))
  }

  /** The questions of one type added to those asked before; an id used twice is an error. */
  function AskedFrom(kind: Kind, specs: seq<string>, fields: Fields): Result<Fields, Code> {
    if specs == [] then Success(fields)
    else
      var asked := Asked(specs[0], kind);
      if asked.Failure? then Failure(asked.error)
      else if asked.value.key in KeySet(fields) then Failure(QidInvalid)
      else AskedFrom(kind, specs[1..], fields + [asked.value])
  }

  /** `for spec in options.get(qtype, [])`: a value given inline is a string, and its characters are the specs. */
  function Specs(options: Options, kind: Kind): seq<string> {
    var key := KindName(kind);
    if key !in options || options[key].Truth? then []
    else if options[key].Many? then options[key].texts
    else
      var text := options[key].text;
      seq(|text|, i requires 0 <= i < |text| => [text[i]])
  }

  function AskedThen(kind: Kind, specs: seq<string>, before: Result<Fields, Code>): Result<Fields, Code> {
    if before.Failure? then before else AskedFrom(kind, specs, before.value)
  }

  function AskedOver(options: Options, kinds: seq<Kind>): Result<Fields, Code> {
    if kinds == [] then Success([])
    else
      var n := |kinds| - 1;
      AskedThen(kinds[n], Specs(options, kinds[n]), AskedOver(options, kinds[..n]))
  }

  const ASKING_ORDER := [Choice, Score, Noul]

  function QuestionsAsked(options: Options): Result<Fields, Code> {
    var all := AskedOver(options, ASKING_ORDER);
    if all.Success? && all.value == [] then Failure(QidInvalid) else all
  }

  lemma {:induction false} AskFailsAtOnce(options: Options, kinds: seq<Kind>, k: nat)
    requires k <= |kinds| && AskedOver(options, kinds[..k]).Failure?
    ensures AskedOver(options, kinds) == AskedOver(options, kinds[..k])
    decreases |kinds| - k
  {
    hide Specs, AskedFrom;
    if k == |kinds| {
      assert kinds[..k] == kinds;
    } else {
      assert kinds[..k + 1][..k] == kinds[..k];
      AskFailsAtOnce(options, kinds, k + 1);
    }
  }

  /** The question loop of `_cmd_ask`. */
  method AskQuestions(options: Options) returns (r: Result<Fields, Code>)
    ensures r == QuestionsAsked(options)
  {
    hide AskedFrom, Specs;
    var kinds := ASKING_ORDER;
    var questions: Fields := [];
    for k := 0 to |kinds|
      invariant AskedOver(options, kinds[..k]) == Success(questions)
    {
      assert kinds[..k + 1][..k] == kinds[..k];
      var more := AskKind(kinds[k], Specs(options, kinds[k]), questions);
      if more.Failure? {
        AskFailsAtOnce(options, kinds, k + 1);
        return Failure(more.error);
      }
      questions := more.value;
    }
    assert kinds[..|kinds|] == kinds;
    if questions == [] {
      return Failure(QidInvalid);
    }
    return Success(questions);
  }

  method AskKind(kind: Kind, specs: seq<string>, fields: Fields) returns (r: Result<Fields, Code>)
    ensures r == AskedFrom(kind, specs, fields)
  {
    hide Asked;
    var questions := fields;
    var i := 0;
    assert specs[0..] == specs;
    while i < |specs|
      invariant 0 <= i <= |specs|
      invariant AskedFrom(kind, specs[i..], questions) == AskedFrom(kind, specs, fields)
    {
      assert specs[i..][1..] == specs[i + 1..];
      var asked := Asked(specs[i], kind);
      if asked.Failure? {
        return Failure(asked.error);
      }
      if asked.value.key in KeySet(questions) {
        return Failure(QidInvalid);
      }
      questions := questions + [asked.value];
      i := i + 1;
    }
    return Success(questions);
  }

  /** `--choice=...` always fails: no single character names a question. */
  lemma {:induction false} InlineQuestionRefused(options: Options, kind: Kind)
    requires KindName(kind) in options && options[KindName(kind)].One? && options[KindName(kind)].text != ""
    ensures QuestionsAsked(options).Failure?
  {
    var text := options[KindName(kind)].text;
    assert Specs(options, kind) == seq(|text|, i requires 0 <= i < |text| => [text[i]]);
    assert Specs(options, kind)[0] == [text[0]];
    OneCharacter(text[0], kind);
    hide Asked, Specs, AskedOver;
    var k := if kind.Choice? then 0 else if kind.Score? then 1 else 2;
    AskOverAt(options, k);
  }

  lemma {:induction false} AskOverAt(options: Options, k: nat)
    requires k < 3 && Specs(options, ASKING_ORDER[k]) != []
    requires Asked(Specs(options, ASKING_ORDER[k])[0], ASKING_ORDER[k]).Failure?
    ensures AskedOver(options, ASKING_ORDER).Failure?
  {
    hide Asked, Specs;
    assert ASKING_ORDER[..k + 1][..k] == ASKING_ORDER[..k];
    AskFailsAtOnce(options, ASKING_ORDER, k + 1);
  }

  lemma OneCharacter(c: char, kind: Kind)
    ensures Asked([c], kind) == Failure(QidInvalid)
  {
    assert [c][1..] == "";
    assert Partition("", '=') == Parts("", false, "");
  }

  // ---------------------------------------------------------------- printing a question

  predicate SpokenInstructions(v: Json, barred: set<char>) {
    v.Null? || (v.Str? && v.text != "" && forall c <- v.text :: c !in barred)
  }

  /** A question the command line can say: no descriptions, no bar in a label, no separator before its place. */
  ghost predicate Speakable(q: Question) {
    && !Blank(q.id) && '=' !in q.id
    && CandidatesOf(q.kind, q.criteria) == Success(q.candidates)
    && match q.kind
       case Noul => q.criteria.Null? && SpokenInstructions(q.instructions, {})
       case Choice =>
         && SpokenInstructions(q.instructions, {':'})
         && AllDistinct(q.candidates.keys) && (forall k <- q.candidates.keys :: Plain(k))
         && q.criteria == Obj(NullFields(q.candidates.keys))
       case Score =>
         && SpokenInstructions(q.instructions, {':'})
         && forall v <- q.criteria.items :: Plain(v.text)
  }

  function Said(v: Json): string {
    if v.Str? then v.text else ""
  }

  function LevelTexts(criteria: Json): seq<string> {
    if criteria.Arr? then
      seq(|criteria.items|, i requires 0 <= i < |criteria.items| => Said(criteria.items[i]))
    else []
  }

  /** The specification that asks a question. */
  function Spec(q: Question): string {
    match q.kind
    case Noul => q.id + "=" + Said(q.instructions)
    case Choice => q.id + "=" + (Said(q.instructions) + ":" + Joined(q.candidates.keys))
    case Score => q.id + "=" + (Said(q.instructions) + ":" + Joined(LevelTexts(q.criteria)))
  }

  /** The question's body in a file. */
  function Body(q: Question): Json {
    Obj((if q.kind.Noul? then [Field("type", Str("noul"))] else [Field("type", Str(KindName(q.kind))), Field("criteria", q.criteria)])
        + if q.instructions.Null? then [] else [Field("instructions", q.instructions)])
  }

  lemma InstructionsSaid(v: Json, barred: set<char>)
    requires SpokenInstructions(v, barred)
    ensures Instructed(Said(v)) == if v.Null? then [] else [Field("instructions", v)]
    ensures forall c <- barred :: c !in Said(v)
  {
  }

  lemma {:induction false} OnceKeeps(parts: seq<string>)
    requires AllDistinct(parts)
    ensures Once(parts) == parts
  {
    if parts != [] {
      OnceKeeps(parts[..|parts| - 1]);
      assert parts == parts[..|parts| - 1] + [parts[|parts| - 1]];
    }
  }

  /** Parsing what is printed gives the file's body, and the body validates as the question it came from. */
  lemma {:induction false} SpecRoundTrip(q: Question)
    requires Speakable(q)
    ensures Asked(Spec(q), q.kind) == Success(Field(q.id, Body(q)))
    ensures QuestionOf(q.id, Body(q)) == Success(q)
  {
    BodyValidates(q);
    match q.kind
    case Noul => NoulRoundTrip(q);
    case Choice => ChoiceRoundTrip(q);
    case Score => ScoreRoundTrip(q);
  }

  lemma {:induction false} NoulRoundTrip(q: Question)
    requires Speakable(q) && q.kind.Noul?
    ensures Asked(Spec(q), q.kind) == Success(Field(q.id, Body(q)))
  {
    InstructionsSaid(q.instructions, {});
    PartitionAt(q.id, '=', Said(q.instructions));
    assert q.id + "=" + Said(q.instructions) == q.id + ['='] + Said(q.instructions);
    hide Partition, Blank, Instructed, Said;
  }

  lemma {:induction false} LabelledRoundTrip(id: string, instructions: string, labels: seq<string>, kind: Kind)
    requires !kind.Noul? && !Blank(id) && '=' !in id && ':' !in instructions && labels != [] && forall l <- labels :: Plain(l)
    ensures var criteria := if kind.Choice? then Obj(NullFields(Once(labels))) else Arr(Texts(labels));
            Asked(id + "=" + (instructions + ":" + Joined(labels)), kind) ==
            Success(Field(id, Obj([Field("type", Str(KindName(kind))), Field("criteria", criteria)] + Instructed(instructions))))
  {
    var rest := instructions + ":" + Joined(labels);
    PartitionAt(id, '=', rest);
    assert id + "=" + rest == id + ['='] + rest;
    PartitionAt(instructions, ':', Joined(labels));
    assert rest == instructions + [':'] + Joined(labels);
    LabelsRoundTrip(labels);
    hide Partition, Labels, Blank, Once, Joined, Instructed, NullFields, Texts;
  }

  lemma {:induction false} ChoiceRoundTrip(q: Question)
    requires Speakable(q) && q.kind.Choice?
    ensures Asked(Spec(q), q.kind) == Success(Field(q.id, Body(q)))
  {
    var keys := q.candidates.keys;
    assert |NullFields(keys)| == |keys|;
    assert keys != [];
    InstructionsSaid(q.instructions, {':'});
    OnceKeeps(keys);
    hide Asked, Once, NullFields, Instructed, Said, CandidatesOf, Plain;
    LabelledRoundTrip(q.id, Said(q.instructions), keys, Choice);
  }

  lemma {:induction false} ScoreRoundTrip(q: Question)
    requires Speakable(q) && q.kind.Score?
    ensures Asked(Spec(q), q.kind) == Success(Field(q.id, Body(q)))
  {
    var levels := LevelTexts(q.criteria);
    assert q.criteria.Arr? && |levels| >= 2 && forall v <- q.criteria.items :: Filled(v);
    forall l | l in levels ensures Plain(l) {
      var i :| 0 <= i < |levels| && levels[i] == l;
      assert q.criteria.items[i] in q.criteria.items;
    }
    forall i | 0 <= i < |levels| ensures Texts(levels)[i] == q.criteria.items[i] {
      assert q.criteria.items[i] in q.criteria.items;
    }
    assert Texts(levels) == q.criteria.items;
    InstructionsSaid(q.instructions, {':'});
    hide Asked, Texts, Instructed, Said, LevelTexts, CandidatesOf, Plain;
    LabelledRoundTrip(q.id, Said(q.instructions), levels, Score);
  }

  lemma {:induction false} BodyValidates(q: Question)
    requires Speakable(q)
    ensures QuestionOf(q.id, Body(q)) == Success(q)
  {
    SpeakableMeans(q);
    hide Speakable, CandidatesOf, Get, KeySet, QuestionOf, KindName;
    var criteria: Fields := if q.kind.Noul? then [] else [Field("criteria", q.criteria)];
    var instructions: Fields := if q.instructions.Null? then [] else [Field("instructions", q.instructions)];
    BodyGets([Field("type", Str(KindName(q.kind)))], criteria, instructions);
    BodyParts(q);
    hide Body;
    ValidatesFrom(q, Body(q).fields);
  }

  lemma SpeakableMeans(q: Question)
    requires Speakable(q)
    ensures CandidatesOf(q.kind, q.criteria) == Success(q.candidates) && (q.kind.Noul? ==> q.criteria == Null)
  {
    hide CandidatesOf, SpokenInstructions, NullFields, Plain;
  }

  lemma BodyParts(q: Question)
    ensures Body(q).Obj?
    ensures Body(q).fields
            == [Field("type", Str(KindName(q.kind)))] + (if q.kind.Noul? then [] else [Field("criteria", q.criteria)])
               + if q.instructions.Null? then [] else [Field("instructions", q.instructions)]
  {
  }

  lemma {:induction false} ValidatesFrom(q: Question, fields: Fields)
    requires KeySet(fields) <= QUESTION_KEYS && CandidatesOf(q.kind, q.criteria) == Success(q.candidates)
    requires Get(fields, "type") == Str(KindName(q.kind)) && Get(fields, "criteria") == q.criteria
    requires Get(fields, "instructions") == q.instructions
    ensures QuestionOf(q.id, Obj(fields)) == Success(q)
  {
    hide Get, KeySet, CandidatesOf;
  }

  lemma {:induction false} BodyGets(kind: Fields, criteria: Fields, instructions: Fields)
    requires |kind| == 1 && kind[0].key == "type"
    requires criteria != [] ==> |criteria| == 1 && criteria[0].key == "criteria"
    requires instructions != [] ==> |instructions| == 1 && instructions[0].key == "instructions"
    ensures var fields := kind + criteria + instructions;
            && KeySet(fields) <= QUESTION_KEYS
            && Get(fields, "type") == kind[0].value
            && Get(fields, "criteria") == (if criteria == [] then Null else criteria[0].value)
            && Get(fields, "instructions") == (if instructions == [] then Null else instructions[0].value)
  {
    var fields := kind + criteria + instructions;
    assert fields[0] == kind[0];
    assert Distinct(fields);
    hide Get;
    GetAt(fields, 0);
    if criteria != [] {
      assert fields[1] == criteria[0];
      GetAt(fields, 1);
    }
    if instructions != [] {
      assert fields[|fields| - 1] == instructions[0];
      GetAt(fields, |fields| - 1);
    }
  }

  // ---------------------------------------------------------------- a whole request

  /** The questions of one type, in order. */
  function Of(qs: seq<Question>, kind: Kind): seq<Question> {
    if qs == [] then [] else (if qs[0].kind == kind then [qs[0]] else []) + Of(qs[1..], kind)
  }

  /** The order `ask` puts them in. */
  function ByKind(qs: seq<Question>): seq<Question> {
    Of(qs, Choice) + Of(qs, Score) + Of(qs, Noul)
  }

  function FileFields(qs: seq<Question>): (fields: Fields)
    ensures |fields| == |qs|
  {
    seq(|qs|, i requires 0 <= i < |qs| => Field(qs[i].id, Body(qs[i])))
  }

  function Flags(qs: seq<Question>): (ts: seq<Token>)
    ensures |ts| == |qs|
  {
    seq(|qs|, i requires 0 <= i < |qs| => Token.Setting(KindName(qs[i].kind), Spec(qs[i])))
  }

  function SpecsOf(qs: seq<Question>): (specs: seq<string>)
    ensures |specs| == |qs|
  {
    seq(|qs|, i requires 0 <= i < |qs| => Spec(qs[i]))
  }

  ghost predicate AllSpeakable(qs: seq<Question>) {
    (forall i :: 0 <= i < |qs| ==> Speakable(qs[i])) && AllDistinct(Ids(qs))
  }

  lemma {:induction false} OfStep(qs: seq<Question>, kind: Kind)
    requires qs != []
    ensures multiset(Of(qs, kind)) == multiset(if qs[0].kind == kind then [qs[0]] else []) + multiset(Of(qs[1..], kind))
  {
  }

  lemma {:induction false} ByKindSums(qs: seq<Question>)
    ensures multiset(ByKind(qs)) == multiset(Of(qs, Choice)) + multiset(Of(qs, Score)) + multiset(Of(qs, Noul))
  {
    hide Of;
  }

  /** Sorting by type neither loses nor repeats a question. */
  lemma {:induction false} ByKindPermutes(qs: seq<Question>)
    ensures multiset(ByKind(qs)) == multiset(qs)
  {
    hide ByKind;
    ByKindSums(qs);
    if qs != [] {
      ByKindPermutes(qs[1..]);
      ByKindSums(qs[1..]);
      OfStep(qs, Choice);
      OfStep(qs, Score);
      OfStep(qs, Noul);
      KindOnce(qs[0]);
      Headed(qs);
      hide *;
    }
  }

  lemma KindOnce(x: Question)
    ensures multiset(if x.kind.Choice? then [x] else []) + multiset(if x.kind.Score? then [x] else [])
            + multiset(if x.kind.Noul? then [x] else []) == multiset{x}
  {
  }

  lemma {:induction false} OfKind(qs: seq<Question>, kind: Kind)
    ensures forall q <- Of(qs, kind) :: q in qs && q.kind == kind
  {
    if qs != [] {
      OfKind(qs[1..], kind);
    }
  }

  lemma {:induction false} AnotherId(qs: seq<Question>, p: Question, q: Question)
    requires AllDistinct(Ids(qs)) && p in qs && q in qs && p != q
    ensures p.id != q.id
  {
    var i :| 0 <= i < |qs| && qs[i] == p;
    var j :| 0 <= j < |qs| && qs[j] == q;
    assert Ids(qs)[i] == p.id && Ids(qs)[j] == q.id;
  }

  /** Questions among distinct ones, none equal to another, have distinct ids. */
  lemma {:induction false} DistinctAmong(qs: seq<Question>, rs: seq<Question>)
    requires AllDistinct(Ids(qs)) && AllDistinct(rs) && forall r <- rs :: r in qs
    ensures AllDistinct(Ids(rs))
  {
    forall i, j | 0 <= i < j < |rs| ensures Ids(rs)[i] != Ids(rs)[j] {
      assert rs[i] in rs && rs[j] in rs;
      AnotherId(qs, rs[i], rs[j]);
    }
  }

  lemma {:induction false} DistinctElements(qs: seq<Question>)
    requires AllDistinct(Ids(qs))
    ensures AllDistinct(qs)
  {
    forall i, j | 0 <= i < j < |qs| ensures qs[i] != qs[j] {
      assert Ids(qs)[i] == qs[i].id && Ids(qs)[j] == qs[j].id;
    }
  }

  lemma {:induction false} ByKindSpeakable(qs: seq<Question>)
    requires AllSpeakable(qs)
    ensures AllSpeakable(ByKind(qs))
  {
    hide Speakable, ByKind;
    var rs := ByKind(qs);
    ByKindPermutes(qs);
    DistinctElements(qs);
    forall q ensures multiset(rs)[q] <= 1 {
      DistinctCounts(qs, q);
    }
    CountsDistinct(rs);
    forall q | q in rs ensures q in qs {
      assert q in multiset(qs);
    }
    DistinctAmong(qs, rs);
    forall i | 0 <= i < |rs| ensures Speakable(rs[i]) {
      assert rs[i] in qs;
    }
  }

  /** The values a flag collects are the specifications of its type's questions. */
  lemma {:induction false} CollectedSpecs(qs: seq<Question>, kind: Kind)
    ensures Values(Flags(qs), KindName(kind)) == SpecsOf(Of(qs, kind))
    ensures !Switched(Flags(qs), KindName(kind))
    ensures Words(Flags(qs)) == []
  {
    if qs != [] {
      FlagsStep(qs);
      SpecsStep(qs, kind);
      FlagOfKind(qs[0].kind, kind);
      hide *;
      CollectedSpecs(qs[1..], kind);
      FlagRead(KindName(qs[0].kind), Spec(qs[0]), Flags(qs[1..]), KindName(kind));
    }
  }

  /** What one more printed flag adds: a value under its own key, no switch and no word. */
  lemma FlagRead(name: string, spec: string, rest: seq<Token>, key: string)
    ensures var ts := [Token.Setting(name, spec)] + rest;
            && Values(ts, key) == (if Key(name) == key then [spec] else []) + Values(rest, key)
            && (Switched(ts, key) <==> Switched(rest, key))
            && Words(ts) == Words(rest)
  {
    var ts := [Token.Setting(name, spec)] + rest;
    assert ts[0] == Token.Setting(name, spec) && ts[1..] == rest;
    hide Key, Switched;
    ValuesStep(ts, key);
    SwitchedStep(ts, key);
    assert Words(ts) == [] + Words(rest) == Words(rest);
  }

  lemma FlagsStep(qs: seq<Question>)
    requires qs != []
    ensures Flags(qs) == [Token.Setting(KindName(qs[0].kind), Spec(qs[0]))] + Flags(qs[1..])
  {
    hide Spec, KindName;
  }

  lemma SpecsStep(qs: seq<Question>, kind: Kind)
    requires qs != []
    ensures SpecsOf(Of(qs, kind)) == (if qs[0].kind == kind then [Spec(qs[0])] else []) + SpecsOf(Of(qs[1..], kind))
  {
    hide Spec;
    var rest := Of(qs[1..], kind);
    if qs[0].kind == kind {
      assert SpecsOf([qs[0]] + rest) == [Spec(qs[0])] + SpecsOf(rest);
    } else {
      assert [] + rest == rest;
    }
  }

  lemma FlagOfKind(kind: Kind, other: Kind)
    ensures Key(KindName(kind)) == KindName(other) <==> kind == other
  {
    KindKeys();
  }

  lemma KindKeys()
    ensures forall k: Kind :: Key(KindName(k)) == KindName(k) && '=' !in KindName(k)
  {
    assert Key("choice") == "choice" && Key("score") == "score" && Key("noul") == "noul";
  }

  /** Asking the specifications one by one collects the file's bodies. */
  lemma {:induction false} AskedAreFiled(kind: Kind, done: seq<Question>, rs: seq<Question>)
    requires AllSpeakable(done + rs) && forall r <- rs :: r.kind == kind
    ensures AskedFrom(kind, SpecsOf(rs), FileFields(done)) == Success(FileFields(done + rs))
    decreases |rs|
  {
    hide Speakable, Body, Spec, Asked;
    if rs == [] {
      assert done + rs == done;
    } else {
      var q := rs[0];
      assert (done + rs)[|done|] == q && q in rs;
      SpecRoundTrip(q);
      assert SpecsOf(rs)[1..] == SpecsOf(rs[1..]) && SpecsOf(rs)[0] == Spec(q);
      forall k | 0 <= k < |done| ensures FileFields(done)[k].key != q.id {
        assert Ids(done + rs)[k] == done[k].id && Ids(done + rs)[|done|] == q.id;
      }
      assert done + rs == (done + [q]) + rs[1..];
      assert forall r :: r in rs[1..] ==> r in rs;
      AskedAreFiled(kind, done + [q], rs[1..]);
      assert FileFields(done) + [Field(q.id, Body(q))] == FileFields(done + [q]);
    }
  }

  lemma {:induction false} FiledValidate(qs: seq<Question>)
    requires forall i :: 0 <= i < |qs| ==> Speakable(qs[i])
    ensures QuestionsFrom(FileFields(qs)) == Success(qs)
  {
    hide Body, Speakable, QuestionOf, Blank;
    if qs != [] {
      FiledValidate(qs[1..]);
      FiledStep(qs);
      hide FileFields, QuestionsFrom;
      assert [qs[0]] + qs[1..] == qs;
    }
  }

  lemma {:induction false} FiledStep(qs: seq<Question>)
    requires qs != [] && Speakable(qs[0]) && QuestionsFrom(FileFields(qs[1..])).Success?
    ensures QuestionsFrom(FileFields(qs)) == Success([qs[0]] + QuestionsFrom(FileFields(qs[1..])).value)
  {
    hide Body, Speakable, QuestionOf, Blank;
    SpecRoundTrip(qs[0]);
    NamedQuestion(qs[0]);
    assert FileFields(qs)[1..] == FileFields(qs[1..]);
    assert FileFields(qs)[0] == Field(qs[0].id, Body(qs[0]));
    hide FileFields;
  }

  lemma NamedQuestion(q: Question)
    requires Speakable(q)
    ensures !Blank(q.id)
  {
  }

  lemma {:induction false} FlagsSpoken(d: Declared, qs: seq<Question>)
    requires d.flags !! d.repeats && d.repeats == {"choice", "score", "noul"}
    ensures forall t <- Flags(qs) :: Spoken(d, t)
  {
    hide Spec;
    KindKeys();
  }

  lemma GatheredNothing(values: seq<string>)
    ensures Gathered(true, values, false, None) == if values == [] then None else Some(Many(values))
  {
    assert [] + values == values;
  }

  lemma {:induction false} AskedInOrder(options: Options, qs: seq<Question>)
    requires qs != [] && AllSpeakable(ByKind(qs))
    requires forall k: Kind :: Specs(options, k) == SpecsOf(Of(qs, k))
    ensures QuestionsAsked(options) == Success(FileFields(ByKind(qs)))
  {
    hide Specs, AskedFrom;
    var choices, scores, nouls := Of(qs, Choice), Of(qs, Score), Of(qs, Noul);
    OfKind(qs, Choice);
    OfKind(qs, Score);
    OfKind(qs, Noul);
    PartSpeakable(choices + scores, nouls);
    PartSpeakable(choices, scores);
    assert [] + choices == choices;
    AskedAreFiled(Choice, [], choices);
    AskedAreFiled(Score, choices, scores);
    AskedAreFiled(Noul, choices + scores, nouls);
    assert FileFields([]) == [];
    AskedOverThree(options);
    ByKindPermutes(qs);
    assert |ByKind(qs)| == |multiset(ByKind(qs))| == |multiset(qs)| == |qs|;
  }

  lemma {:induction false} PartSpeakable(a: seq<Question>, b: seq<Question>)
    requires AllSpeakable(a + b)
    ensures AllSpeakable(a)
  {
    hide Speakable;
    assert forall i :: 0 <= i < |a| ==> (a + b)[i] == a[i] && Ids(a + b)[i] == Ids(a)[i];
  }

  lemma {:induction false} AskedOverThree(options: Options)
    ensures AskedOver(options, ASKING_ORDER) ==
            AskedThen(Noul, Specs(options, Noul),
                      AskedThen(Score, Specs(options, Score), AskedThen(Choice, Specs(options, Choice), Success([]))))
  {
    hide AskedThen, Specs;
    var order := ASKING_ORDER;
    assert order[..2] == [Choice, Score] && [Choice, Score][..1] == [Choice] && [Choice][..0] == [];
    assert AskedOver(options, []) == Success([]);
    assert AskedOver(options, [Choice]) == AskedThen(Choice, Specs(options, Choice), Success([]));
  }
}
