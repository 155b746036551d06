/** The engine's readout of one question. */
module Engine {
  // Waves of candidates, each wave forked from the shared prefix, every candidate on a sequence of its own.

  import opened KvCache
  import opened Sessions
  import opened Advance
  import opened Heads
  import opened Trie
  import opened Probe
  import opened Wrappers

  datatype Cue = Shipped | TwoStep | JsonField | JsonInstructed

  datatype Group = Group(cueRow: Row, decisionRow: Row, advance: Option<Token>, logprobs: seq<seq<real>>, nextRow: Option<Row>)

  function Longest(scored: seq<Path>): nat {
    if scored == [] then 0
    else
      var n := Longest(scored[1..]);
      if |scored[0]| >= n then |scored[0]| else n
  }

  lemma {:induction false} LongestBound(scored: seq<Path>, k: nat)
    requires k < |scored|
    ensures |scored[k]| <= Longest(scored)
  {
    if k > 0 {
      LongestBound(scored[1..], k - 1);
    }
  }

  lemma {:induction false} LongestIndex(scored: seq<Path>) returns (k: nat)
    requires scored != []
    ensures k < |scored| && |scored[k]| == Longest(scored)
  {
    k := 0;
    if |scored[0]| < Longest(scored) {
      assert Longest(scored[1..]) > 0;
      k := LongestIndex(scored[1..]);
      k := k + 1;
    }
  }

  // ---------------------------------------------------------------- one candidate step

  /** How much of a candidate its sequence has decoded before step t. */
  function Done(s: Path, t: nat): nat {
    Min(if t == 0 then 0 else t - 1, Depth(s))
  }

  ghost function StepTexts(head: seq<Token>, scored: seq<Path>, t: nat): (texts: seq<seq<Token>>)
    ensures |texts| == |scored|
  {
    seq(|scored|, k requires 0 <= k < |scored| => head + scored[k][..Done(scored[k], t)])
  }

  function StepAdd(scored: seq<Path>, t: nat): (add: seq<Option<Token>>)
    requires t >= 1
    ensures |add| == |scored|
  {
    seq(|scored|, k requires 0 <= k < |scored| => if |scored[k]| > t then Some(scored[k][t - 1]) else None)
  }

  function StepEnds(scored: seq<Path>, base: int, t: nat): (ends: seq<int>)
    ensures |ends| == |scored|
  {
    seq(|scored|, k requires 0 <= k < |scored| => base + Done(scored[k], t))
  }

  /** The scores a candidate has before step t: its first min(t, length) tokens. */
  ghost predicate ScoredTo(net: Net, head: seq<Token>, scored: seq<Path>, logprobs: seq<seq<real>>, t: nat)
    requires head != []
  {
    && |logprobs| == |scored|
    && forall k :: 0 <= k < |scored| ==> logprobs[k] == SequentialTo(net, head, scored[k], Min(t, |scored[k]|))
  }

  lemma StepTextsNext(head: seq<Token>, scored: seq<Path>, t: nat)
    requires t >= 1
    ensures Stepped(StepTexts(head, scored, t), StepAdd(scored, t)) == StepTexts(head, scored, t + 1)
  {
    var texts, add := StepTexts(head, scored, t), StepAdd(scored, t);
    forall k | 0 <= k < |scored| ensures Stepped(texts, add)[k] == StepTexts(head, scored, t + 1)[k] {
      if |scored[k]| > t {
        assert scored[k][..t] == scored[k][..t - 1] + [scored[k][t - 1]];
      }
    }
  }

  lemma StepEndsHold(head: seq<Token>, scored: seq<Path>, t: nat)
    ensures forall k :: 0 <= k < |scored| ==> StepEnds(scored, |head|, t)[k] == |StepTexts(head, scored, t)[k]|
  {
  }

  /** The rows of one step score the next token of every candidate that is long enough. */
  method ScoreStep(net: Net, scored: seq<Path>, t: nat, rows: seq<Option<Row>>, before: seq<seq<real>>, ghost head: seq<Token>)
    returns (logprobs: seq<seq<real>>)
    requires t >= 1 && head != []
    requires RowsRead(net, StepTexts(head, scored, t), StepAdd(scored, t), rows)
    requires ScoredTo(net, head, scored, before, t)
    ensures ScoredTo(net, head, scored, logprobs, t + 1)
  {
    hide Fresh, FreshRow;
    logprobs := [];
    for k := 0 to |scored|
      invariant |logprobs| == k
      invariant forall i :: 0 <= i < k ==> logprobs[i] == SequentialTo(net, head, scored[i], Min(t + 1, |scored[i]|))
    {
      var s := scored[k];
      if rows[k].Some? {
        assert head + s[..Done(s, t)] + [s[t - 1]] == head + s[..t] by {
          assert s[..t] == s[..t - 1] + [s[t - 1]];
        }
        assert SequentialTo(net, head, s, t + 1) == SequentialTo(net, head, s, t) + [FreshLogprob(net, head, s, t)];
        logprobs := logprobs + [before[k] + [net.logprob(rows[k].value, s[t])]];
      } else {
        logprobs := logprobs + [before[k]];
      }
    }
  }

  // ---------------------------------------------------------------- a wave

  /** Drops whatever the candidate sequences held and copies the head onto each of them. */
  method ForkCandidates(live: Session, n: nat, base: int, ghost prefix: seq<Token>, ghost head: seq<Token>)
    requires n >= 1 && base == |head| && TextsHeld(live.net, live.cells, prefix, [head])
    modifies live`cells
    ensures TextsHeld(live.net, live.cells, prefix, Copies(head, n))
    ensures forall s :: s > n ==> View(live.cells, s) == View(old(live.cells), s)
  {
    assert Copies(head, 1) == [head];
    for offset := 1 to n
      invariant TextsHeld(live.net, live.cells, prefix, Copies(head, offset))
      invariant forall s :: s > n ==> View(live.cells, s) == View(old(live.cells), s)
    {
      ForkCandidateStep(live.net, live.cells, prefix, head, offset);
      hide View, Fresh, TextsHeld, Copies;
      live.Release(1 + offset);
      live.Fork(1, 1 + offset, base);
    }
  }

  lemma ForkCandidateStep(net: Net, cells: seq<Cell>, prefix: seq<Token>, head: seq<Token>, offset: nat)
    requires offset >= 1 && TextsHeld(net, cells, prefix, Copies(head, offset))
    ensures TextsHeld(net, Forked(Released(cells, 1 + offset), 1, 1 + offset, |head|), prefix, Copies(head, offset + 1))
  {
    hide View, Fresh, Forked, Released, Upto;
    var mid := Released(cells, 1 + offset);
    var after := Forked(mid, 1, 1 + offset, |head|);
    FreshUpto(net, head);
    forall r ensures r != 1 + offset ==> View(after, r) == View(cells, r) {
      ReleaseView(cells, 1 + offset, r);
      ForkView(mid, 1, 1 + offset, |head|, r);
    }
    ReleaseView(cells, 1 + offset, 1 + offset);
    ReleaseView(cells, 1 + offset, 1);
    ForkView(mid, 1, 1 + offset, |head|, 1 + offset);
    assert Holds(net, cells, 0 + 1, Copies(head, offset)[0]);
    var texts := Copies(head, offset + 1);
    forall k | 0 <= k < |texts| ensures Holds(net, after, k + 1, texts[k]) {
      if k < offset {
        assert Holds(net, cells, k + 1, Copies(head, offset)[k]);
      }
    }
  }

  /** The remaining tokens of every candidate, one batched decode a step. */
  method ScoreSteps(live: Session, scored: seq<Path>, base: int, first: seq<seq<real>>, ghost prefix: seq<Token>, ghost head: seq<Token>)
    returns (logprobs: seq<seq<real>>)
    requires head != [] && base == |head| && scored != [] && Longest(scored) >= 1
    requires TextsHeld(live.net, live.cells, prefix, Copies(head, |scored|))
    requires ScoredTo(live.net, head, scored, first, 1)
    modifies live`cells, live`decodeCalls
    ensures ScoredTo(live.net, head, scored, logprobs, Longest(scored))
    ensures Holds(live.net, live.cells, 0, prefix)
    ensures live.decodeCalls == old(live.decodeCalls) + Longest(scored) - 1
    ensures forall s :: s > |scored| ==> View(live.cells, s) == View(old(live.cells), s)
  {
    logprobs := first;
    var maxLength := Longest(scored);
    StepTextsStart(head, scored);
    hide View, Fresh, FreshRow, TextsHeld, ScoredTo, StepTexts, StepAdd, RowsRead, Copies, Longest, Stepped;
    for step := 1 to maxLength
      invariant TextsHeld(live.net, live.cells, prefix, StepTexts(head, scored, step))
      invariant ScoredTo(live.net, head, scored, logprobs, step)
      invariant live.decodeCalls == old(live.decodeCalls) + step - 1
      invariant forall s :: s > |scored| ==> View(live.cells, s) == View(old(live.cells), s)
    {
      StepTextsNext(head, scored, step);
      StepEndsHold(head, scored, step);
      SomeMoves(scored, step);
      var rows := StepHeads(live, StepEnds(scored, base, step), StepAdd(scored, step), prefix, StepTexts(head, scored, step));
      logprobs := ScoreStep(live.net, scored, step, rows, logprobs, head);
    }
    HeldPrefix(live.net, live.cells, prefix, StepTexts(head, scored, maxLength));
  }

  lemma HeldPrefix(net: Net, cells: seq<Cell>, prefix: seq<Token>, texts: seq<seq<Token>>)
    requires TextsHeld(net, cells, prefix, texts)
    ensures Holds(net, cells, 0, prefix)
  {
  }

  lemma StepTextsStart(head: seq<Token>, scored: seq<Path>)
    ensures StepTexts(head, scored, 1) == Copies(head, |scored|)
  {
    forall k | 0 <= k < |scored| ensures StepTexts(head, scored, 1)[k] == head {
      assert scored[k][..0] == [] && head + [] == head;
    }
  }

  lemma SomeMoves(scored: seq<Path>, t: nat)
    requires 1 <= t < Longest(scored)
    ensures exists k :: 0 <= k < |StepAdd(scored, t)| && StepAdd(scored, t)[k].Some?
  {
    var k := LongestIndex(scored);
    assert StepAdd(scored, t)[k].Some?;
  }

  /** Frees the head and candidate sequences of a finished wave. */
  method ReleaseCandidates(live: Session, n: nat, ghost prefix: seq<Token>)
    requires Holds(live.net, live.cells, 0, prefix)
    modifies live`cells
    ensures Holds(live.net, live.cells, 0, prefix)
    ensures forall s :: 1 <= s <= n ==> View(live.cells, s) == []
    ensures forall s :: s > n ==> View(live.cells, s) == View(old(live.cells), s)
  {
    hide View, Fresh;
    for offset := 0 to n
      invariant Holds(live.net, live.cells, 0, prefix)
      invariant forall s :: 1 <= s <= offset ==> View(live.cells, s) == []
      invariant forall s :: s > n ==> View(live.cells, s) == View(old(live.cells), s)
    {
      live.Release(1 + offset);
    }
  }

  /** The suffix, decoded once on a fresh copy of the prefix. */
  method DecodeSuffix(live: Session, prefix: seq<Token>, suffix: seq<Token>) returns (r: Result<Row, Stop>)
    requires Holds(live.net, live.cells, 0, prefix)
    modifies live`cells, live`decodeCalls
    ensures r.Success? <==> suffix != []
    ensures r.Failure? ==> r.error == EmptyBatch
    ensures Holds(live.net, live.cells, 0, prefix)
    ensures r.Success? ==>
              && r.value == FreshRow(live.net, prefix + suffix)
              && TextsHeld(live.net, live.cells, prefix, [prefix + suffix])
              && live.decodeCalls == old(live.decodeCalls) + 1
    ensures forall s :: s > 1 ==> View(live.cells, s) == View(old(live.cells), s)
  {
    hide View, Fresh, Upto, Forked, FreshRow;
    FreshUpto(live.net, prefix);
    live.Release(1);
    live.Fork(0, 1, |prefix|);
    ghost var bs := [Branch(1, prefix, suffix)];
    var rows := DecodeBranches(live, [(1, suffix)], [Range(|prefix|, |suffix|)], bs);
    if rows.Failure? {
      return Failure(rows.error);
    }
    assert Holds(live.net, live.cells, bs[0].seqId, bs[0].past + bs[0].toks);
    return Success(rows.value[0]);
  }

  /** `two_step` decodes the cue row's own argmax before it reads, unless that token closes the turn. */
  ghost predicate AdvanceRule(cueRow: Row, cue: Cue, closers: set<Token>, advance: Option<Token>) {
    if cue.TwoStep? then
      exists w :: FirstMax(cueRow, {}, w) && advance == if w in closers then None else Some(w)
    else
      advance == None
  }

  method EngineAdvance(row: Row, cue: Cue, closers: set<Token>) returns (r: Result<Option<Token>, Stop>)
    ensures r.Success? <==> cue.TwoStep? ==> row != []
    ensures r.Failure? ==> r.error == NoContentToken
    ensures r.Success? ==> AdvanceRule(row, cue, closers, r.value)
  {
    if !cue.TwoStep? {
      return Success(None);
    }
    var winner := ArgmaxFirst(row);
    if winner.Failure? {
      return Failure(winner.error);
    }
    return Success(if winner.value in closers then None else Some(winner.value));
  }

  function HeadOf(prefix: seq<Token>, suffix: seq<Token>, advance: Option<Token>): seq<Token> {
    prefix + suffix + Tail(advance)
  }

  /** The hidden state of a token decoded on an empty sequence at a given position. */
  function ContextFreeRow(net: Net, token: Token, pos: int): Row {
    net.head(net.step([], token, pos))
  }

  /** When the decision row's own argmax closes the value, `json_instructed` reads one more row: the one an
      empty sequence gives for that token. */
  ghost predicate NextRowReads(net: Net, cue: Cue, base: int, decisionRow: Row, quotes: set<Token>, nextRow: Option<Row>) {
    if cue.JsonInstructed? then
      exists w :: FirstMax(decisionRow, {}, w) && nextRow == if w in quotes then Some(ContextFreeRow(net, w, base)) else None
    else
      nextRow == None
  }

  /** The extra row of a `json_instructed` wave: decoded on the head sequence after the wave has released it. */
  method ValueRow(live: Session, cue: Cue, base: int, decisionRow: Row, quotes: set<Token>, ghost prefix: seq<Token>)
    returns (r: Result<Option<Row>, Stop>)
    requires Holds(live.net, live.cells, 0, prefix) && View(live.cells, 1) == []
    modifies live`cells, live`decodeCalls
    ensures r.Success? <==> cue.JsonInstructed? ==> decisionRow != []
    ensures r.Failure? ==> r.error == NoContentToken
    ensures r.Success? ==> NextRowReads(live.net, cue, base, decisionRow, quotes, r.value)
    ensures Holds(live.net, live.cells, 0, prefix)
    ensures live.decodeCalls == old(live.decodeCalls) + if r.Success? && r.value.Some? then 1 else 0
    ensures forall s :: s > 1 ==> View(live.cells, s) == View(old(live.cells), s)
  {
    hide Fresh, FirstMax, Put;
    if !cue.JsonInstructed? {
      return Success(None);
    }
    var winner := ArgmaxFirst(decisionRow);
    if winner.Failure? {
      return Failure(winner.error);
    }
    if winner.value !in quotes {
      return Success(None);
    }
    var slot := Slot(winner.value, 1, base, true);
    forall s {
      PutView(live.net, live.cells, slot, s);
    }
    hide View;
    var batch := Batch([winner.value], [1], [base], [true]);
    assert batch.Slots() == [slot];
    assert [slot][1..] == [];
    assert RunRows(live.net, live.cells, [slot]) == [ContextFreeRow(live.net, winner.value, base)];
    assert RunCells(live.net, live.cells, [slot]) == Put(live.net, live.cells, slot);
    var rows := live.Decode(batch);
    return Success(Some(rows[0]));
  }

  /** What one wave reports, said without a cache. */
  ghost predicate GroupReads(net: Net, prefix: seq<Token>, suffix: seq<Token>, scored: seq<Path>, cue: Cue, closers: set<Token>,
                             group: Group)
    requires suffix != []
  {
    var head := HeadOf(prefix, suffix, group.advance);
    && group.cueRow == FreshRow(net, prefix + suffix)
    && AdvanceRule(group.cueRow, cue, closers, group.advance)
    && group.decisionRow == FreshRow(net, head)
    && |group.logprobs| == |scored|
    && forall k :: 0 <= k < |scored| ==> group.logprobs[k] == Sequential(net, head, scored[k])
  }

  predicate Scorable(scored: seq<Path>) {
    scored != [] && forall k :: 0 <= k < |scored| ==> scored[k] != []
  }

  /** The rows the wave cannot do without: its own argmax reads. */
  ghost predicate WaveReads(net: Net, prefix: seq<Token>, suffix: seq<Token>, cue: Cue, closers: set<Token>) {
    && suffix != []
    && (cue.TwoStep? ==> FreshRow(net, prefix + suffix) != [])
    && (cue.JsonInstructed? ==> FreshRow(net, prefix + suffix) != [])
  }

  /** The decode calls of one wave. */
  function GroupDecodes(scored: seq<Path>, group: Group): nat {
    Longest(scored) + (if group.advance.Some? then 1 else 0) + (if group.nextRow.Some? then 1 else 0)
  }

  method FirstTokens(net: Net, row: Row, scored: seq<Path>, ghost head: seq<Token>) returns (first: seq<seq<real>>)
    requires Scorable(scored) && head != [] && row == FreshRow(net, head)
    ensures ScoredTo(net, head, scored, first, 1)
  {
    hide Fresh, FreshRow;
    first := [];
    for k := 0 to |scored|
      invariant |first| == k
      invariant forall i :: 0 <= i < k ==> first[i] == SequentialTo(net, head, scored[i], Min(1, |scored[i]|))
    {
      assert head + scored[k][..0] == head;
      first := first + [[net.logprob(row, scored[k][0])]];
    }
  }

  /** The candidates of one wave: each scored on its own copy of the head, every copy freed at the end. */
  method ScoreCandidates(live: Session, row: Row, scored: seq<Path>, base: int, ghost prefix: seq<Token>,
                         ghost head: seq<Token>)
    returns (logprobs: seq<seq<real>>)
    requires Scorable(scored) && Longest(scored) >= 1 && |scored| >= 1
    requires head != [] && base == |head| && row == FreshRow(live.net, head)
    requires TextsHeld(live.net, live.cells, prefix, [head])
    modifies live`cells, live`decodeCalls
    ensures |logprobs| == |scored|
    ensures forall k :: 0 <= k < |scored| ==> logprobs[k] == Sequential(live.net, head, scored[k])
    ensures Holds(live.net, live.cells, 0, prefix) && View(live.cells, 1) == []
    ensures live.decodeCalls == old(live.decodeCalls) + Longest(scored) - 1
    ensures forall s :: s > |scored| ==> View(live.cells, s) == View(old(live.cells), s)
  {
    hide *;
    var first := FirstTokens(live.net, row, scored, head);
    ForkCandidates(live, |scored|, base, prefix, head);
    logprobs := ScoreSteps(live, scored, base, first, prefix, head);
    ReleaseCandidates(live, |scored|, prefix);
    AllScored(live.net, head, scored, logprobs);
  }

  /** A wave as a whole: the question on its own copy of the prefix, the candidates on copies of that, and
      nothing but the prefix kept. */
  method ScoreGroup(live: Session, prefix: seq<Token>, suffix: seq<Token>, scored: seq<Path>, cue: Cue, closers: set<Token>,
                    quotes: set<Token>)
    returns (r: Result<Group, Stop>)
    requires Holds(live.net, live.cells, 0, prefix) && Scorable(scored)
    modifies live`cells, live`decodeCalls
    ensures r.Success? <==> WaveReads(live.net, prefix, suffix, cue, closers)
    ensures r.Failure? ==> r.error == if suffix == [] then EmptyBatch else NoContentToken
    ensures r.Success? ==> GroupReads(live.net, prefix, suffix, scored, cue, closers, r.value)
    ensures r.Success? ==> Holds(live.net, live.cells, 0, prefix)
    ensures r.Success? ==> NextRowReads(live.net, cue, |prefix| + |suffix|, r.value.decisionRow, quotes, r.value.nextRow)
    ensures r.Success? ==> live.decodeCalls == old(live.decodeCalls) + GroupDecodes(scored, r.value)
    ensures forall s :: s > |scored| ==> View(live.cells, s) == View(old(live.cells), s)
  {
    LongestPositive(scored);
    hide *;
    var cueRow := DecodeSuffix(live, prefix, suffix);
    WaveNeeds(live.net, prefix, suffix, cue, closers);
    if cueRow.Failure? {
      return Failure(cueRow.error);
    }
    var advance := EngineAdvance(cueRow.value, cue, closers);
    if advance.Failure? {
      return Failure(advance.error);
    }
    var decisionRow := AdvanceHead(live, cueRow.value, advance.value, prefix, suffix);
    ghost var head := HeadOf(prefix, suffix, advance.value);
    var base := |prefix| + |suffix| + if advance.value.None? then 0 else 1;
    var logprobs := ScoreCandidates(live, decisionRow, scored, base, prefix, head);
    AdvanceNone(cueRow.value, cue, closers, advance.value, prefix, suffix);
    var nextRow := ValueRow(live, cue, base, decisionRow, quotes, prefix);
    if nextRow.Failure? {
      return Failure(nextRow.error);
    }
    r := Success(Group(cueRow.value, decisionRow, advance.value, logprobs, nextRow.value));
  }

  lemma LongestPositive(scored: seq<Path>)
    requires Scorable(scored)
    ensures Longest(scored) >= 1 && |scored| >= 1 && scored != []
  {
    LongestBound(scored, 0);
  }

  lemma WaveNeeds(net: Net, prefix: seq<Token>, suffix: seq<Token>, cue: Cue, closers: set<Token>)
    ensures WaveReads(net, prefix, suffix, cue, closers) <==>
      && suffix != []
      && (cue.TwoStep? ==> FreshRow(net, prefix + suffix) != [])
      && (cue.JsonInstructed? ==> FreshRow(net, prefix + suffix) != [])
  {
  }

  lemma AdvanceNone(cueRow: Row, cue: Cue, closers: set<Token>, advance: Option<Token>, prefix: seq<Token>, suffix: seq<Token>)
    requires AdvanceRule(cueRow, cue, closers, advance)
    ensures !cue.TwoStep? ==> advance == None && HeadOf(prefix, suffix, advance) == prefix + suffix
  {
  }

  lemma AllScored(net: Net, head: seq<Token>, scored: seq<Path>, logprobs: seq<seq<real>>)
    requires head != [] && ScoredTo(net, head, scored, logprobs, Longest(scored))
    ensures |logprobs| == |scored|
    ensures forall k :: 0 <= k < |scored| ==> logprobs[k] == Sequential(net, head, scored[k])
  {
    hide *;
    forall k | 0 <= k < |scored|
      ensures |logprobs| == |scored| && logprobs[k] == Sequential(net, head, scored[k])
    {
      ScoredAt(net, head, scored, logprobs, k);
    }
    ScoredLength(net, head, scored, logprobs);
  }

  lemma ScoredLength(net: Net, head: seq<Token>, scored: seq<Path>, logprobs: seq<seq<real>>)
    requires head != [] && ScoredTo(net, head, scored, logprobs, Longest(scored))
    ensures |logprobs| == |scored|
  {
  }

  lemma ScoredAt(net: Net, head: seq<Token>, scored: seq<Path>, logprobs: seq<seq<real>>, k: nat)
    requires head != [] && ScoredTo(net, head, scored, logprobs, Longest(scored)) && k < |scored|
    ensures |logprobs| == |scored| && logprobs[k] == Sequential(net, head, scored[k])
  {
    LongestBound(scored, k);
    hide Fresh, FreshRow, FreshLogprob, SequentialTo, Longest;
  }

  /** The decision row: the cue row, or the row after the token the head advanced by. */
  method AdvanceHead(live: Session, cueRow: Row, advance: Option<Token>, prefix: seq<Token>, suffix: seq<Token>)
    returns (decisionRow: Row)
    requires suffix != [] && cueRow == FreshRow(live.net, prefix + suffix)
    requires TextsHeld(live.net, live.cells, prefix, [prefix + suffix])
    modifies live`cells, live`decodeCalls
    ensures HeadOf(prefix, suffix, advance) != [] && decisionRow == FreshRow(live.net, HeadOf(prefix, suffix, advance))
    ensures TextsHeld(live.net, live.cells, prefix, [HeadOf(prefix, suffix, advance)])
    ensures live.decodeCalls == old(live.decodeCalls) + if advance.Some? then 1 else 0
    ensures forall s :: s > 1 ==> View(live.cells, s) == View(old(live.cells), s)
  {
    hide View, Fresh, FreshRow, TextsHeld;
    decisionRow := cueRow;
    ghost var texts := [prefix + suffix];
    if advance.Some? {
      assert [advance][0].Some?;
      assert Stepped(texts, [advance]) == [HeadOf(prefix, suffix, advance)];
      var rows := StepHeads(live, [|prefix| + |suffix|], [advance], prefix, texts);
      decisionRow := rows[0].value;
    } else {
      assert HeadOf(prefix, suffix, advance) == prefix + suffix;
    }
  }

  // ---------------------------------------------------------------- the value row

  /** The network that answers how many entries it saw. */
  function CountingNet(): Net {
    Net((es: seq<Entry>, t: Token, p: int) => [|es| as real], (h: Hidden) => h, (row: Row, t: Token) => 0.0)
  }

  /** The value row's successor is documented as the head read one step further. The head's sequence is
      empty by then, so the row the engine reads is the row that follows the prompt, on every network, only
      for a prompt of no tokens; for any other there is a network that tells the two apart. */
  lemma ValueRowMissesPrompt(text: seq<Token>, winner: Token)
    ensures (forall net: Net :: ContextFreeRow(net, winner, |text|) == FreshRow(net, text + [winner])) <==> text == []
  {
    if text == [] {
      forall net: Net ensures ContextFreeRow(net, winner, |text|) == FreshRow(net, text + [winner]) {
        FreshSnoc(net, text, winner);
      }
    } else {
      var net := CountingNet();
      FreshSnoc(net, text, winner);
      assert ContextFreeRow(net, winner, |text|)[0] == 0.0;
      assert FreshRow(net, text + [winner])[0] == |text| as real;
    }
  }

  // ---------------------------------------------------------------- waves

  /** Every wave advances its head by the same token. */
  lemma AdvanceUnique(cueRow: Row, cue: Cue, closers: set<Token>, a: Option<Token>, b: Option<Token>)
    requires AdvanceRule(cueRow, cue, closers, a) && AdvanceRule(cueRow, cue, closers, b)
    ensures a == b
  {
    if cue.TwoStep? {
      var v :| FirstMax(cueRow, {}, v) && a == if v in closers then None else Some(v);
      var w :| FirstMax(cueRow, {}, w) && b == if w in closers then None else Some(w);
    }
  }

  /** `planned_waves` of one question: one decode per wave for the suffix, one more per candidate step. */
  function PlannedWaves(scored: seq<Path>, perWave: nat): nat
    requires perWave >= 1
    decreases |scored|
  {
    if scored == [] then 0
    else if |scored| <= perWave then Longest(scored)
    else Longest(scored[..perWave]) + PlannedWaves(scored[perWave..], perWave)
  }

  /** The number of waves. */
  function Waves(scored: seq<Path>, perWave: nat): (n: nat)
    requires perWave >= 1
    ensures scored != [] ==> n > 0
    decreases |scored|
  {
    if scored == [] then 0 else if |scored| <= perWave then 1 else 1 + Waves(scored[perWave..], perWave)
  }

  /** Whether every wave reads one row more than planned: `two_step` when the cue row's own first maximum
      closes no turn, `json_instructed` when it closes the value. */
  ghost predicate ReadsMore(cueRow: Row, cue: Cue, closers: set<Token>, quotes: set<Token>) {
    exists w :: FirstMax(cueRow, {}, w) && ((cue.TwoStep? && w !in closers) || (cue.JsonInstructed? && w in quotes))
  }

  /** The decodes of the waves. */
  ghost function Decodes(scored: seq<Path>, perWave: nat, more: bool): nat
    requires perWave >= 1
  {
    PlannedWaves(scored, perWave) + if more then Waves(scored, perWave) else 0
  }

  function PerWave(nSeqMax: int): (n: nat)
    ensures n >= 1
  {
    if nSeqMax - 1 > 1 then nSeqMax - 1 else 1
  }

  /** Every candidate of a question, as many at a time as the context has sequences to spare. The scores do not
      depend on the split, the number of decodes is the planned one exactly when the waves read no further row
      and one more for each wave when they do, no sequence outside the context's limit is touched, and the
      prefix is left as it was. */
  method ScoreAnswer(live: Session, prefix: seq<Token>, suffix: seq<Token>, scored: seq<Path>, cue: Cue, closers: set<Token>,
                     quotes: set<Token>, nSeqMax: int)
    returns (r: Result<seq<seq<real>>, Stop>, ghost advance: Option<Token>)
    requires Holds(live.net, live.cells, 0, prefix) && Scorable(scored)
    modifies live`cells, live`decodeCalls
    ensures r.Success? <==> WaveReads(live.net, prefix, suffix, cue, closers)
    ensures r.Failure? ==> r.error == if suffix == [] then EmptyBatch else NoContentToken
    ensures r.Success? ==> Holds(live.net, live.cells, 0, prefix)
    ensures r.Success? ==>
              && AdvanceRule(FreshRow(live.net, prefix + suffix), cue, closers, advance)
              && |r.value| == |scored|
              && forall k :: 0 <= k < |scored| ==>
                   r.value[k] == Sequential(live.net, HeadOf(prefix, suffix, advance), scored[k])
    ensures r.Success? ==>
              live.decodeCalls == old(live.decodeCalls) + PlannedWaves(scored, PerWave(nSeqMax))
                + if ReadsMore(FreshRow(live.net, prefix + suffix), cue, closers, quotes) then Waves(scored, PerWave(nSeqMax)) else 0
    ensures r.Success? ==>
              (live.decodeCalls == old(live.decodeCalls) + PlannedWaves(scored, PerWave(nSeqMax)) <==>
               !ReadsMore(FreshRow(live.net, prefix + suffix), cue, closers, quotes))
    ensures forall s :: s > PerWave(nSeqMax) ==> View(live.cells, s) == View(old(live.cells), s)
  {
    var perWave := PerWave(nSeqMax);
    var logprobs: seq<seq<real>> := [];
    advance := None;
    var start := 0;
    ghost var before := live.cells;
    ghost var calls: int := live.decodeCalls;
    WaveNeeds(live.net, prefix, suffix, cue, closers);
    hide *;
    while start < |scored|
      invariant 0 <= start <= |scored|
      invariant Waved(live.net, before, live.cells, prefix, suffix, scored, cue, closers, quotes, perWave, start, advance, logprobs,
                      live.decodeCalls - calls)
    {
      var group := ScoreWave(live, before, calls, prefix, suffix, scored, cue, closers, quotes, perWave, start, advance, logprobs);
      if group.Failure? {
        return Failure(group.error), advance;
      }
      advance, logprobs := group.value.advance, logprobs + group.value.logprobs;
      start := start + WaveLength(scored, start, perWave);
    }
    WavesDone(live.net, before, live.cells, prefix, suffix, scored, cue, closers, quotes, perWave, advance, logprobs,
              live.decodeCalls - calls);
    r := Success(logprobs);
  }

  lemma WavesDone(net: Net, before: seq<Cell>, now: seq<Cell>, prefix: seq<Token>, suffix: seq<Token>, scored: seq<Path>,
                  cue: Cue, closers: set<Token>, quotes: set<Token>, perWave: nat, advance: Option<Token>,
                  logprobs: seq<seq<real>>, calls: int)
    requires perWave >= 1 && Scorable(scored)
    requires Waved(net, before, now, prefix, suffix, scored, cue, closers, quotes, perWave, |scored|, advance, logprobs, calls)
    ensures WaveReads(net, prefix, suffix, cue, closers) && SameBeyond(now, before, perWave) && Holds(net, now, 0, prefix)
    ensures suffix != [] && WaveScores(net, prefix, suffix, scored, cue, closers, advance, logprobs)
    ensures var more := ReadsMore(FreshRow(net, prefix + suffix), cue, closers, quotes);
            && calls == PlannedWaves(scored, perWave) + (if more then Waves(scored, perWave) else 0)
            && (calls == PlannedWaves(scored, perWave) <==> !more)
  {
    hide Fresh, FreshRow, AdvanceRule, Sequential, View, ReadsMore, Longest, Holds;
    assert scored[..|scored|] == scored && scored[|scored|..] == [];
  }

  /** The size of the wave that begins at candidate `start`. */
  function WaveLength(scored: seq<Path>, start: nat, perWave: nat): (size: nat)
    requires start < |scored| && perWave >= 1
    ensures 1 <= size <= perWave && start + size <= |scored|
  {
    if perWave <= |scored| - start then perWave else |scored| - start
  }

  method ScoreWave(live: Session, ghost before: seq<Cell>, ghost calls: int, prefix: seq<Token>, suffix: seq<Token>,
                   scored: seq<Path>, cue: Cue, closers: set<Token>, quotes: set<Token>, perWave: nat, start: nat,
                   ghost advance: Option<Token>, ghost logprobs: seq<seq<real>>)
    returns (r: Result<Group, Stop>)
    requires start < |scored| && perWave >= 1 && Scorable(scored)
    requires Waved(live.net, before, live.cells, prefix, suffix, scored, cue, closers, quotes, perWave, start, advance,
                   logprobs, live.decodeCalls - calls)
    modifies live`cells, live`decodeCalls
    ensures r.Success? <==> WaveReads(live.net, prefix, suffix, cue, closers)
    ensures r.Failure? ==> r.error == if suffix == [] then EmptyBatch else NoContentToken
    ensures r.Success? ==>
      Waved(live.net, before, live.cells, prefix, suffix, scored, cue, closers, quotes, perWave,
            start + WaveLength(scored, start, perWave), r.value.advance, logprobs + r.value.logprobs, live.decodeCalls - calls)
    ensures forall s :: s > perWave ==> View(live.cells, s) == View(before, s)
  {
    WaveSize(scored, start, perWave);
    WaveNeeds(live.net, prefix, suffix, cue, closers);
    var size := WaveLength(scored, start, perWave);
    hide *;
    ghost var mid := live.cells;
    ghost var midCalls: int := live.decodeCalls;
    r := ScoreGroup(live, prefix, suffix, scored[start..start + size], cue, closers, quotes);
    if r.Success? {
      WavedStep(live.net, before, mid, live.cells, prefix, suffix, scored, cue, closers, quotes, perWave, start, advance, logprobs,
                midCalls - calls, live.decodeCalls - calls, r.value);
    }
  }

  ghost predicate SameBeyond(a: seq<Cell>, b: seq<Cell>, n: nat) {
    forall s :: s > n ==> View(a, s) == View(b, s)
  }

  /** What the loop over the waves keeps, after `start` candidates. */
  ghost predicate Waved(net: Net, before: seq<Cell>, now: seq<Cell>, prefix: seq<Token>, suffix: seq<Token>, scored: seq<Path>,
                        cue: Cue, closers: set<Token>, quotes: set<Token>, perWave: nat, start: nat, advance: Option<Token>,
                        logprobs: seq<seq<real>>, calls: int)
    requires start <= |scored| && perWave >= 1
  {
    && Holds(net, now, 0, prefix) && |logprobs| == start
    && (start > 0 ==> WaveReads(net, prefix, suffix, cue, closers)
                      && WaveScores(net, prefix, suffix, scored[..start], cue, closers, advance, logprobs))
    && (var more := suffix != [] && ReadsMore(FreshRow(net, prefix + suffix), cue, closers, quotes);
        calls + Decodes(scored[start..], perWave, more) == Decodes(scored, perWave, more))
    && SameBeyond(now, before, perWave)
  }

  lemma WavedStep(net: Net, before: seq<Cell>, mid: seq<Cell>, now: seq<Cell>, prefix: seq<Token>, suffix: seq<Token>,
                  scored: seq<Path>, cue: Cue, closers: set<Token>, quotes: set<Token>, perWave: nat, start: nat,
                  advance: Option<Token>, logprobs: seq<seq<real>>, calls: int, after: int, group: Group)
    requires start < |scored| && perWave >= 1 && Scorable(scored)
    requires Waved(net, before, mid, prefix, suffix, scored, cue, closers, quotes, perWave, start, advance, logprobs, calls)
    requires WaveReads(net, prefix, suffix, cue, closers) && Holds(net, now, 0, prefix)
    requires var size := WaveLength(scored, start, perWave);
             var chunk := scored[start..start + size];
             && suffix != [] && GroupReads(net, prefix, suffix, chunk, cue, closers, group)
             && NextRowReads(net, cue, |prefix| + |suffix|, group.decisionRow, quotes, group.nextRow)
             && (forall s :: s > |chunk| ==> View(now, s) == View(mid, s))
             && after == calls + GroupDecodes(chunk, group)
    ensures var size := WaveLength(scored, start, perWave);
            Waved(net, before, now, prefix, suffix, scored, cue, closers, quotes, perWave, start + size, group.advance,
                  logprobs + group.logprobs, after)
  {
    hide View, Fresh, FreshRow, Holds, WaveReads, GroupReads, NextRowReads, WaveScores, Longest, AdvanceRule, Decodes, GroupDecodes,
      ReadsMore;
    WaveSize(scored, start, perWave);
    var size := WaveLength(scored, start, perWave);
    var chunk := scored[start..start + size];
    WaveCost(net, prefix, suffix, chunk, cue, closers, |prefix| + |suffix|, quotes, group);
    WaveDecodes(scored, start, perWave, ReadsMore(FreshRow(net, prefix + suffix), cue, closers, quotes));
    JoinWaves(net, prefix, suffix, scored, start, chunk, cue, closers, advance, logprobs, group);
  }

  lemma WaveSize(scored: seq<Path>, start: nat, perWave: nat)
    requires start < |scored| && perWave >= 1 && Scorable(scored)
    ensures var size := WaveLength(scored, start, perWave);
            && 1 <= size <= perWave && start + size <= |scored|
            && Scorable(scored[start..start + size])
            && PlannedWaves(scored[start..], perWave)
               == Longest(scored[start..start + size]) + PlannedWaves(scored[start + size..], perWave)
  {
    hide Longest;
    var size := Min(perWave, |scored| - start);
    var rest := scored[start..];
    assert rest[..size] == scored[start..start + size] && rest[size..] == scored[start + size..];
    if |rest| <= perWave {
      assert rest[..size] == rest;
    }
  }

  ghost predicate WaveScores(net: Net, prefix: seq<Token>, suffix: seq<Token>, scored: seq<Path>, cue: Cue, closers: set<Token>,
                             advance: Option<Token>, logprobs: seq<seq<real>>) {
    && suffix != []
    && AdvanceRule(FreshRow(net, prefix + suffix), cue, closers, advance)
    && |logprobs| == |scored|
    && forall k :: 0 <= k < |scored| ==> logprobs[k] == Sequential(net, HeadOf(prefix, suffix, advance), scored[k])
  }

  /** One wave decodes the longest candidate's tokens, and one more exactly when the waves read more. */
  lemma WaveCost(net: Net, prefix: seq<Token>, suffix: seq<Token>, scored: seq<Path>, cue: Cue, closers: set<Token>, base: int,
                 quotes: set<Token>, group: Group)
    requires suffix != [] && GroupReads(net, prefix, suffix, scored, cue, closers, group)
    requires NextRowReads(net, cue, base, group.decisionRow, quotes, group.nextRow)
    ensures GroupDecodes(scored, group)
         == Longest(scored) + if ReadsMore(FreshRow(net, prefix + suffix), cue, closers, quotes) then 1 else 0
    ensures |group.logprobs| == |scored|
  {
    hide Fresh, FreshRow, Sequential, Longest, ContextFreeRow, FirstMax;
    var row := FreshRow(net, prefix + suffix);
    forall v, w | FirstMax(row, {}, v) && FirstMax(row, {}, w) ensures v == w {
      OneFirstMax(row, v, w);
    }
    if cue.JsonInstructed? {
      assert prefix + suffix + [] == prefix + suffix;
      assert HeadOf(prefix, suffix, group.advance) == prefix + suffix;
    }
  }

  lemma OneFirstMax(row: Row, v: Token, w: Token)
    requires FirstMax(row, {}, v) && FirstMax(row, {}, w)
    ensures v == w
  {
  }

  lemma WaveDecodes(scored: seq<Path>, start: nat, perWave: nat, more: bool)
    requires start < |scored| && perWave >= 1 && Scorable(scored)
    ensures var size := WaveLength(scored, start, perWave);
            Decodes(scored[start..], perWave, more)
            == Longest(scored[start..start + size]) + (if more then 1 else 0) + Decodes(scored[start + size..], perWave, more)
  {
    WaveSize(scored, start, perWave);
    hide Longest, PlannedWaves;
    var rest := scored[start..];
    if |rest| > perWave {
      assert rest[perWave..] == scored[start + perWave..];
    } else {
      assert scored[start + |rest|..] == [];
    }
  }

  lemma JoinWaves(net: Net, prefix: seq<Token>, suffix: seq<Token>, scored: seq<Path>, start: nat, chunk: seq<Path>, cue: Cue,
                  closers: set<Token>, advance: Option<Token>, logprobs: seq<seq<real>>, group: Group)
    requires suffix != [] && start + |chunk| <= |scored| && chunk == scored[start..start + |chunk|]
    requires start > 0 ==> WaveScores(net, prefix, suffix, scored[..start], cue, closers, advance, logprobs)
    requires |logprobs| == start
    requires GroupReads(net, prefix, suffix, chunk, cue, closers, group)
    ensures WaveScores(net, prefix, suffix, scored[..start + |chunk|], cue, closers, group.advance, logprobs + group.logprobs)
  {
    hide Fresh, FreshRow, Sequential, AdvanceRule;
    if start > 0 {
      AdvanceUnique(group.cueRow, cue, closers, advance, group.advance);
    }
    var all := logprobs + group.logprobs;
    forall k | 0 <= k < start + |chunk|
      ensures all[k] == Sequential(net, HeadOf(prefix, suffix, group.advance), scored[..start + |chunk|][k])
    {
      if k >= start {
        assert scored[k] == chunk[k - start];
      } else {
        assert scored[..start][k] == scored[k];
      }
    }
  }
}
