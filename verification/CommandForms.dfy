/** What an argument and a question specification mean, one form at a time. */
module CommandForms {
  import opened CommandLine
  import opened Documents
  import opened Schema
  import opened Text
  import opened Wrappers

  // ---------------------------------------------------------------- arguments

  /** Dashes of a name become underscores of its key. */
  lemma {:induction false} KeyMeans(name: string, i: nat)
    requires i < |name|
    ensures |Key(name)| == |name| && Key(name)[i] == if name[i] == '-' then '_' else name[i]
    ensures Key("max-waves") == "max_waves"
  {
    assert Key("max-waves") == "max_waves" by {
      assert |"max-waves"| == 9;
    }
  }

  /** An argument that does not begin with two dashes is a word. */
  lemma WordTaken(d: Declared, word: string, rest: seq<string>, positionals: seq<string>, options: CommandLine.Options)
    requires |word| < 2 || word[..2] != "--"
    ensures ArgsFrom(d, [word] + rest, positionals, options) == ArgsFrom(d, rest, positionals + [word], options)
  {
    assert ([word] + rest)[1..] == rest;
    assert |word| >= 2 ==> word[..2] == [word[0], word[1]];
    hide Partition, Key;
  }

  /** A name the command does not declare is refused under that name, and one that needs a value is refused at the
      end of the line. */
  lemma {:induction false} NameRefused(d: Declared, name: string, rest: seq<string>, positionals: seq<string>, options: CommandLine.Options)
    requires '=' !in name
    ensures Key(name) !in d.flags + d.values + d.repeats ==>
              ArgsFrom(d, ["--" + name] + rest, positionals, options) == Failure(Unknown(name))
    ensures Key(name) in d.values + d.repeats && Key(name) !in d.flags ==>
              ArgsFrom(d, ["--" + name], positionals, options) == Failure(NeedsValue(name))
  {
    PrintedName(name);
    assert (["--" + name] + rest)[0] == "--" + name;
    hide Partition, Key, Dashed;
  }

  /** A repeatable name cannot follow a value given to it with an equals sign. */
  lemma {:induction false} AppendRefused(d: Declared, name: string, value: string, rest: seq<string>, positionals: seq<string>,
                                         options: CommandLine.Options)
    requires '=' !in name && Key(name) in d.repeats && Key(name) !in d.flags
    requires Key(name) in options && !options[Key(name)].Many?
    ensures ArgsFrom(d, ["--" + name, value] + rest, positionals, options) == Failure(CannotAppend(name))
  {
    PrintedName(name);
    var args := ["--" + name, value] + rest;
    assert args[0] == "--" + name && args[1] == value && args[2..] == rest;
    hide Partition, Key, Dashed;
  }

  // ---------------------------------------------------------------- specifications

  /** A specification without an equals sign, or with a blank id before it, names no question. */
  lemma {:induction false} NoQuestion(kind: Kind, id: string, after: string)
    requires '=' !in id
    ensures Asked(id, kind) == Failure(QidInvalid)
    ensures Blank(id) ==> Asked(id + "=" + after, kind) == Failure(QidInvalid)
  {
    PartitionAt(id, '=', after);
    hide Partition, Blank, Labels;
  }

  /** A yes/no question is all instructions; no instructions leave the key out. */
  lemma {:induction false} NoulForm(id: string, text: string)
    requires !Blank(id) && '=' !in id
    ensures Asked(id + "=" + text, Noul)
         == Success(Field(id, Obj([Field("type", Str("noul"))] + if text == "" then [] else [Field("instructions", Str(text))])))
  {
    PartitionAt(id, '=', text);
    hide Partition, Blank, Labels;
  }

  /** A choice or a score needs a colon and something after it. */
  lemma {:induction false} LabelsMissing(id: string, text: string, after: string)
    requires !Blank(id) && '=' !in id && ':' !in text && Blank(after)
    ensures Asked(id + "=" + text, Choice) == Failure(ChoiceCriteria)
    ensures Asked(id + "=" + text, Score) == Failure(ScoreLevels)
    ensures Asked(id + "=" + (text + ":" + after), Choice) == Failure(ChoiceCriteria)
    ensures Asked(id + "=" + (text + ":" + after), Score) == Failure(ScoreLevels)
  {
    PartitionAt(id, '=', text);
    PartitionAt(id, '=', text + ":" + after);
    PartitionAt(text, ':', after);
    hide Partition, Blank, Labels;
  }

  /** With it the labels are the parts between bars, stripped: the options of a choice, each named once and described
      by nothing, or the levels of a score in their order. */
  lemma {:induction false} LabelForms(id: string, text: string, after: string)
    requires !Blank(id) && '=' !in id && ':' !in text && !Blank(after)
    ensures var said := if text == "" then [] else [Field("instructions", Str(text))];
            && Asked(id + "=" + (text + ":" + after), Choice)
               == Success(Field(id, Obj([Field("type", Str("choice")), Field("criteria", Obj(NullFields(Once(Labels(after)))))] + said)))
            && Asked(id + "=" + (text + ":" + after), Score)
               == Success(Field(id, Obj([Field("type", Str("score")), Field("criteria", Arr(Texts(Labels(after))))] + said)))
  {
    PartitionAt(id, '=', text + ":" + after);
    PartitionAt(text, ':', after);
    hide Partition, Blank, Labels, Once;
  }

  /** The labels of a text: its first part, unless blank, without the white space around it, and those after the bar. */
  lemma {:induction false} LabelsSplit(part: string, after: string)
    requires '|' !in part
    ensures Labels(part) == if Blank(part) then [] else [Strip(part)]
    ensures Labels(part + "|" + after) == (if Blank(part) then [] else [Strip(part)]) + Labels(after)
  {
    PartitionAt(part, '|', after);
    hide Partition, Blank, Strip;
  }

  /** Equal labels are one: every label is kept, none twice, in the order of first mention. */
  lemma {:induction false} OnceMeans(parts: seq<string>)
    ensures forall p :: p in Once(parts) <==> p in parts
    ensures forall i, j :: 0 <= i < j < |Once(parts)| ==> Once(parts)[i] != Once(parts)[j]
    ensures if parts == [] then Once(parts) == [] else Once(parts) != [] && Once(parts)[0] == parts[0]
  {
    hide *;
    if parts == [] {
      OnceNothing();
    } else {
      var init, last := parts[..|parts| - 1], parts[|parts| - 1];
      OnceMeans(init);
      OnceLast(init, last);
      assert parts == init + [last];
      OnceGrows(init, last, Once(init), Once(parts));
    }
  }

  lemma OnceNothing()
    ensures Once([]) == []
  {
  }

  lemma OnceLast(init: seq<string>, last: string)
    ensures Once(init + [last]) == if last in Once(init) then Once(init) else Once(init) + [last]
  {
    assert (init + [last])[..|init|] == init;
  }

  lemma OnceGrows(init: seq<string>, last: string, before: seq<string>, after: seq<string>)
    requires forall p :: p in before <==> p in init
    requires forall i, j :: 0 <= i < j < |before| ==> before[i] != before[j]
    requires init != [] ==> before != [] && before[0] == init[0]
    requires init == [] ==> before == []
    requires after == if last in before then before else before + [last]
    ensures forall p :: p in after <==> p in init + [last]
    ensures forall i, j :: 0 <= i < j < |after| ==> after[i] != after[j]
    ensures after != [] && after[0] == (init + [last])[0]
  {
    if last !in before {
      forall i | 0 <= i < |before| ensures before[i] != last {
      }
    }
  }

  /** An id used twice is refused, and questions of the three types are asked choices first, then scores, then the rest. */
  lemma {:induction false} AskedTwice(kind: Kind, spec: string, rest: seq<string>, fields: Fields)
    requires Asked(spec, kind).Success?
    ensures AskedFrom(kind, [spec] + rest, fields)
         == if Asked(spec, kind).value.key in KeySet(fields) then Failure(QidInvalid)
            else AskedFrom(kind, rest, fields + [Asked(spec, kind).value])
    ensures AskedFrom(kind, [], fields) == Success(fields)
  {
    assert ([spec] + rest)[1..] == rest;
    hide Asked, KeySet;
  }

  lemma {:induction false} OrderOfTypes(options: CommandLine.Options)
    ensures var choices := AskedFrom(Choice, Specs(options, Choice), []);
            var scores := if choices.Failure? then choices else AskedFrom(Score, Specs(options, Score), choices.value);
            var all := if scores.Failure? then scores else AskedFrom(Noul, Specs(options, Noul), scores.value);
            QuestionsAsked(options) == if all == Success([]) then Failure(QidInvalid) else all
  {
    hide AskedFrom, Specs;
    AskedOverThree(options);
  }
}
