/** The prefix-fork readout of one item. */
module Probe {
  // One prefill, one fork per branch, one batched decode, one optional step for the advancing shapes, then
  // ranked readouts on disjoint sequence pools.

  import opened KvCache
  import opened Sequences
  import opened Sessions
  import opened Advance
  import opened Heads
  import opened Trie
  import opened Wrappers

  // ---------------------------------------------------------------- fork and batched decode

  ghost predicate Blank(cells: seq<Cell>) {
    forall s :: View(cells, s) == []
  }

  /** The heads hold their texts, and no sequence from `cursor` on has been used. */
  ghost predicate HeadsHold(net: Net, cells: seq<Cell>, prefix: seq<Token>, texts: seq<seq<Token>>, cursor: int) {
    && TextsHeld(net, cells, prefix, texts)
    && (forall s :: s < 0 || s >= cursor ==> View(cells, s) == [])
  }

  ghost function Copies(prefix: seq<Token>, n: nat): (texts: seq<seq<Token>>)
    ensures |texts| == n && forall k :: 0 <= k < n ==> texts[k] == prefix
  {
    seq(n, _ => prefix)
  }

  ghost function CueBranches(prefix: seq<Token>, suffixes: seq<seq<Token>>): (bs: seq<Branch>)
    ensures |bs| == |suffixes|
  {
    seq(|suffixes|, k requires 0 <= k < |suffixes| => Branch(k + 1, prefix, suffixes[k]))
  }

  lemma ForkHeadStep(net: Net, cells: seq<Cell>, prefix: seq<Token>, k: nat)
    requires HeadsHold(net, cells, prefix, Copies(prefix, k), k + 1)
    ensures HeadsHold(net, Forked(cells, 0, k + 1, |prefix|), prefix, Copies(prefix, k + 1), k + 2)
  {
    hide View, Fresh, Forked, Upto;
    var next := Forked(cells, 0, k + 1, |prefix|);
    FreshUpto(net, prefix);
    ForkView(cells, 0, k + 1, |prefix|, k + 1);
    forall s ensures s != k + 1 ==> View(next, s) == View(cells, s) {
      ForkView(cells, 0, k + 1, |prefix|, s);
    }
    var texts := Copies(prefix, k + 1);
    forall i | 0 <= i < |texts| ensures Holds(net, next, i + 1, texts[i]) {
      if i < k {
        assert Holds(net, cells, i + 1, Copies(prefix, k)[i]);
      }
    }
  }

  /** Forks the prefix into one sequence per branch. */
  method ForkHeads(live: Session, prefix: seq<Token>, n: nat)
    requires HeadsHold(live.net, live.cells, prefix, [], 1)
    modifies live`cells
    ensures HeadsHold(live.net, live.cells, prefix, Copies(prefix, n), n + 1)
  {
    assert Copies(prefix, 0) == [];
    hide View, Fresh, Forked, Upto, HeadsHold, Copies;
    for index := 1 to n + 1
      invariant HeadsHold(live.net, live.cells, prefix, Copies(prefix, index - 1), index)
    {
      ForkHeadStep(live.net, live.cells, prefix, index - 1);
      live.Fork(0, index, |prefix|);
    }
  }

  lemma CueReady(net: Net, cells: seq<Cell>, prefix: seq<Token>, suffixes: seq<seq<Token>>)
    requires HeadsHold(net, cells, prefix, Copies(prefix, |suffixes|), |suffixes| + 1)
    ensures Ready(net, cells, CueBranches(prefix, suffixes))
    ensures CueWanted(suffixes) == Wanted(CueBranches(prefix, suffixes))
    ensures CuePlaces(prefix, suffixes) == Places(CueBranches(prefix, suffixes))
  {
    hide View, Fresh;
    var bs := CueBranches(prefix, suffixes);
    forall k | 0 <= k < |bs| ensures Holds(net, cells, bs[k].seqId, bs[k].past) {
      assert Holds(net, cells, k + 1, Copies(prefix, |suffixes|)[k]);
    }
  }

  lemma CueDone(net: Net, cells: seq<Cell>, after: seq<Cell>, prefix: seq<Token>, suffixes: seq<seq<Token>>)
    requires HeadsHold(net, cells, prefix, Copies(prefix, |suffixes|), |suffixes| + 1)
    requires var bs := CueBranches(prefix, suffixes);
             && (forall i :: 0 <= i < |bs| ==> Holds(net, after, bs[i].seqId, bs[i].past + bs[i].toks))
             && (forall s :: (forall i :: 0 <= i < |bs| ==> bs[i].seqId != s) ==> View(after, s) == View(cells, s))
    ensures HeadsHold(net, after, prefix, Texts(prefix, suffixes), |suffixes| + 1)
  {
    hide View, Fresh;
    var bs := CueBranches(prefix, suffixes);
    forall k | 0 <= k < |suffixes| ensures Holds(net, after, k + 1, Texts(prefix, suffixes)[k]) {
      assert bs[k].seqId == k + 1;
    }
    forall s | s <= 0 || s > |suffixes| ensures View(after, s) == View(cells, s) {
    }
  }

  function Texts(prefix: seq<Token>, suffixes: seq<seq<Token>>): (texts: seq<seq<Token>>)
    ensures |texts| == |suffixes| && forall k :: 0 <= k < |texts| ==> texts[k] == prefix + suffixes[k]
  {
    seq(|suffixes|, k requires 0 <= k < |suffixes| => prefix + suffixes[k])
  }

  predicate AllNonEmpty(suffixes: seq<seq<Token>>) {
    forall k :: 0 <= k < |suffixes| ==> suffixes[k] != []
  }

  lemma CueRows(net: Net, prefix: seq<Token>, suffixes: seq<seq<Token>>)
    ensures var rows := FreshRows(net, CueBranches(prefix, suffixes));
            && (|rows| == |suffixes| <==> AllNonEmpty(suffixes))
            && (AllNonEmpty(suffixes) ==> forall k :: 0 <= k < |suffixes| ==> rows[k] == FreshRow(net, prefix + suffixes[k]))
    ensures AllNonEmpty(suffixes) && suffixes != [] ==> Slots(CueBranches(prefix, suffixes)) != []
  {
    var bs := CueBranches(prefix, suffixes);
    FreshRowsCount(net, bs);
    assert AllNonEmpty(suffixes) <==> forall i :: 0 <= i < |bs| ==> bs[i].toks != [] by {
      assert forall i :: 0 <= i < |bs| ==> bs[i].toks == suffixes[i];
    }
    if AllNonEmpty(suffixes) {
      forall k: nat | k < |bs| ensures FreshRows(net, bs)[k] == FreshRow(net, prefix + suffixes[k]) {
        FreshRowsAt(net, bs, k);
      }
      if suffixes != [] {
        SegmentSnoc(1, |prefix|, suffixes[0], 0);
      }
    }
  }

  function CueWanted(suffixes: seq<seq<Token>>): seq<(int, seq<Token>)> {
    seq(|suffixes|, k requires 0 <= k < |suffixes| => (k + 1, suffixes[k]))
  }

  function CuePlaces(prefix: seq<Token>, suffixes: seq<seq<Token>>): seq<seq<int>> {
    seq(|suffixes|, k requires 0 <= k < |suffixes| => Range(|prefix|, |suffixes[k]|))
  }

  lemma BlankSeesNothing(cells: seq<Cell>)
    requires Blank(cells)
    ensures forall s :: View(cells, s) == []
  {
    hide View;
  }

  lemma PrefixAlone(net: Net, before: seq<Cell>, now: seq<Cell>, prefix: seq<Token>)
    requires View(now, 0) == Fresh(net, prefix)
    requires forall s :: s != 0 ==> View(now, s) == View(before, s) == []
    ensures HeadsHold(net, now, prefix, [], 1)
  {
    hide View, Fresh;
  }

  /** One prefill and one batched decode for every branch: the k-th row is the one an independent
      context returns for the prefix followed by the k-th suffix, and sequence 0 still holds the prefix. */
  method ForkedReadout(live: Session, prefix: seq<Token>, suffixes: seq<seq<Token>>) returns (r: Result<seq<Row>, Stop>)
    requires Blank(live.cells)
    modifies live`cells, live`decodeCalls
    ensures r.Success? <==> prefix != [] && suffixes != [] && AllNonEmpty(suffixes)
    ensures r.Success? ==>
              && |r.value| == |suffixes|
              && (forall k :: 0 <= k < |suffixes| ==> suffixes[k] != [] && r.value[k] == FreshRow(live.net, prefix + suffixes[k]))
              && HeadsHold(live.net, live.cells, prefix, Texts(prefix, suffixes), |suffixes| + 1)
              && live.decodeCalls == old(live.decodeCalls) + 2
  {
    BlankSeesNothing(live.cells);
    hide *;
    ghost var before := live.cells;
    var ok := live.Prefill(prefix, None);
    if ok.Failure? {
      return Failure(ok.error);
    }
    PrefixAlone(live.net, before, live.cells, prefix);
    ForkHeads(live, prefix, |suffixes|);
    ghost var bs := CueBranches(prefix, suffixes);
    ghost var mid := live.cells;
    CueReady(live.net, mid, prefix, suffixes);
    CueRows(live.net, prefix, suffixes);
    var rows := DecodeBranches(live, CueWanted(suffixes), CuePlaces(prefix, suffixes), bs);
    if rows.Failure? {
      return Failure(rows.error);
    }
    CueDone(live.net, mid, live.cells, prefix, suffixes);
    if |rows.value| != |suffixes| {
      return Failure(StrictZip);
    }
    return Success(rows.value);
  }

  // ---------------------------------------------------------------- the sequential control

  /** The same question in a context of its own: decode the prefix, then the suffix, on sequence 0. */
  method SequentialReadout(net: Net, prefix: seq<Token>, suffix: seq<Token>) returns (r: Result<Row, Stop>)
    ensures r.Success? <==> prefix != [] && suffix != []
    ensures r.Success? ==> r.value == FreshRow(net, prefix + suffix)
  {
    var live := new Session(net);
    var ok := live.Prefill(prefix, None);
    if ok.Failure? {
      return Failure(ok.error);
    }
    ghost var bs := [Branch(0, prefix, suffix)];
    assert Slots(bs) == Segment(0, |prefix|, suffix) + Slots([]) && bs[1..] == [];
    if suffix != [] {
      SegmentSnoc(0, |prefix|, suffix, 0);
      FreshRowsAt(net, bs, 0);
    }
    assert Holds(net, live.cells, 0, prefix);
    var rows := DecodeBranches(live, [(0, suffix)], [Range(|prefix|, |suffix|)], bs);
    if rows.Failure? {
      return Failure(rows.error);
    }
    return Success(rows.value[0]);
  }

  /** The equivalence check, for any number of branches: the forked rows and the sequential rows
      are the same rows. */
  method ForkEqualsSequential(net: Net, prefix: seq<Token>, suffixes: seq<seq<Token>>)
    returns (forked: Result<seq<Row>, Stop>, sequential: seq<Row>)
    requires prefix != [] && suffixes != [] && AllNonEmpty(suffixes)
    ensures forked == Success(sequential)
  {
    var live := new Session(net);
    assert Blank(live.cells);
    hide *;
    forked := ForkedReadout(live, prefix, suffixes);
    sequential := [];
    for k := 0 to |suffixes|
      invariant |sequential| == k && sequential == forked.value[..k]
    {
      var row := SequentialReadout(net, prefix, suffixes[k]);
      sequential := sequential + [row.value];
    }
    assert forked.value[..|suffixes|] == forked.value;
  }

  // ---------------------------------------------------------------- the measurement of one item

  /** One cue shape: how many tokens it advances before it is read (any positive number decodes one) and
      the rule that chooses the token. */
  datatype Shape = Shape(name: string, advance: nat, rule: Rule)

  /** Where a shape is read: its row, the position the row sits at, the token it advanced by. */
  datatype Readout = Readout(row: Row, ended: int, choice: Option<Token>)

  datatype RankAsk = RankAsk(shape: string, paths: seq<Path>)

  /** One ranked policy: its shape, that shape's sequence, how long its head is, the sequences it used, and every
      candidate's log-probabilities. */
  datatype Ranked = Ranked(shape: string, head: int, base: int, pool: seq<int>, logprobs: seq<seq<real>>)

  datatype Record = Record(cueRows: seq<Row>, outs: seq<Readout>, ranked: seq<Ranked>)

  function Chosen(read: Readout): seq<Token> {
    if read.choice.Some? then [read.choice.value] else []
  }

  /** The text a shape's sequence holds once it has been read. */
  function HeadText(prefix: seq<Token>, suffix: seq<Token>, read: Readout): seq<Token> {
    prefix + suffix + Chosen(read)
  }

  function HeadTexts(prefix: seq<Token>, suffixes: seq<seq<Token>>, outs: seq<Readout>): (texts: seq<seq<Token>>)
    requires |outs| == |suffixes|
    ensures |texts| == |suffixes| && forall k :: 0 <= k < |texts| ==> texts[k] == HeadText(prefix, suffixes[k], outs[k])
  {
    seq(|suffixes|, k requires 0 <= k < |suffixes| => HeadText(prefix, suffixes[k], outs[k]))
  }

  /** What a shape must report, said without a cache: the row of an independent context for the prefix,
      the suffix and the advanced token, and the position of that row. */
  ghost predicate ReadsAs(net: Net, prefix: seq<Token>, suffix: seq<Token>, shape: Shape, closers: set<Token>, read: Readout) {
    && prefix + suffix != []
    && read.row == FreshRow(net, HeadText(prefix, suffix, read))
    && read.ended == |HeadText(prefix, suffix, read)| - 1
    && (shape.advance == 0 ==> read.choice == None)
    && (shape.advance > 0 ==>
          read.choice.Some? && FirstMax(FreshRow(net, prefix + suffix), Excluded(closers, shape.rule), read.choice.value))
  }

  /** Before the advance step: the cue row, with the token to advance by already chosen. */
  ghost predicate CueReadsAs(net: Net, prefix: seq<Token>, suffix: seq<Token>, shape: Shape, closers: set<Token>, read: Readout) {
    && prefix + suffix != []
    && read.row == FreshRow(net, prefix + suffix)
    && read.ended == |prefix| + |suffix| - 1
    && (shape.advance == 0 ==> read.choice == None)
    && (shape.advance > 0 ==>
          read.choice.Some? && FirstMax(FreshRow(net, prefix + suffix), Excluded(closers, shape.rule), read.choice.value))
  }

  /** Every advancing shape finds a token to advance by. */
  ghost predicate CanAdvance(net: Net, prefix: seq<Token>, suffixes: seq<seq<Token>>, shapes: seq<Shape>, closers: set<Token>)
    requires |shapes| == |suffixes| && prefix != []
  {
    forall k :: 0 <= k < |shapes| && shapes[k].advance > 0 ==>
      HasContent(FreshRow(net, prefix + suffixes[k]), Excluded(closers, shapes[k].rule))
  }

  /** The first readout of every shape, with the advance token where one is asked for. */
  method ReadCues(net: Net, rows: seq<Row>, prefix: seq<Token>, suffixes: seq<seq<Token>>, shapes: seq<Shape>, closers: set<Token>)
    returns (r: Result<seq<Readout>, Stop>)
    requires prefix != [] && |rows| == |suffixes| == |shapes|
    requires forall k :: 0 <= k < |rows| ==> rows[k] == FreshRow(net, prefix + suffixes[k])
    ensures r.Success? <==> CanAdvance(net, prefix, suffixes, shapes, closers)
    ensures r.Success? ==> |r.value| == |shapes|
    ensures r.Success? ==> forall k :: 0 <= k < |shapes| ==> CueReadsAs(net, prefix, suffixes[k], shapes[k], closers, r.value[k])
  {
    hide FreshRow;
    var outs: seq<Readout> := [];
    for k := 0 to |shapes|
      invariant |outs| == k
      invariant forall i :: 0 <= i < k ==> CueReadsAs(net, prefix, suffixes[i], shapes[i], closers, outs[i])
      invariant forall i :: 0 <= i < k && shapes[i].advance > 0 ==>
        HasContent(FreshRow(net, prefix + suffixes[i]), Excluded(closers, shapes[i].rule))
    {
      var ended := |prefix| + |suffixes[k]| - 1;
      if shapes[k].advance > 0 {
        var choice := AdvanceToken(rows[k], closers, shapes[k].rule);
        if choice.Failure? {
          return Failure(choice.error);
        }
        outs := outs + [Readout(rows[k], ended, Some(choice.value))];
      } else {
        outs := outs + [Readout(rows[k], ended, None)];
      }
    }
    return Success(outs);
  }

  // ---------------------------------------------------------------- the one extra step

  function Choices(outs: seq<Readout>): (add: seq<Option<Token>>)
    ensures |add| == |outs| && forall k :: 0 <= k < |outs| ==> add[k] == outs[k].choice
  {
    seq(|outs|, k requires 0 <= k < |outs| => outs[k].choice)
  }

  function Ends(outs: seq<Readout>): (ends: seq<int>)
    ensures |ends| == |outs| && forall k :: 0 <= k < |outs| ==> ends[k] == outs[k].ended + 1
  {
    seq(|outs|, k requires 0 <= k < |outs| => outs[k].ended + 1)
  }

  /** The second readouts, written back to the advancing shapes only. */
  function Reread(outs: seq<Readout>, rows: seq<Option<Row>>): (after: seq<Readout>)
    requires |rows| == |outs|
    ensures |after| == |outs|
  {
    seq(|outs|, k requires 0 <= k < |outs| =>
      if rows[k].Some? then outs[k].(row := rows[k].value, ended := outs[k].ended + 1) else outs[k])
  }

  /** The advance step: every advancing shape decodes its own token in one batch and is read again. */
  method AdvanceShapes(live: Session, prefix: seq<Token>, suffixes: seq<seq<Token>>, shapes: seq<Shape>, closers: set<Token>,
                       outs: seq<Readout>)
    returns (after: seq<Readout>)
    requires |outs| == |suffixes| == |shapes| && prefix != []
    requires forall k :: 0 <= k < |shapes| ==> CueReadsAs(live.net, prefix, suffixes[k], shapes[k], closers, outs[k])
    requires HeadsHold(live.net, live.cells, prefix, Texts(prefix, suffixes), |suffixes| + 1)
    modifies live`cells, live`decodeCalls
    ensures |after| == |shapes|
    ensures forall k :: 0 <= k < |shapes| ==> ReadsAs(live.net, prefix, suffixes[k], shapes[k], closers, after[k])
    ensures HeadsHold(live.net, live.cells, prefix, HeadTexts(prefix, suffixes, after), |suffixes| + 1)
  {
    ghost var texts := Texts(prefix, suffixes);
    AdvanceEnds(live.net, prefix, suffixes, shapes, closers, outs);
    hide View, Fresh, FreshRow, Holds, FirstMax, TextsHeld, CueReadsAs, ReadsAs;
    var rows := StepHeads(live, Ends(outs), Choices(outs), prefix, texts);
    after := Reread(outs, rows);
    AdvanceDone(live.net, prefix, suffixes, shapes, closers, outs, rows);
  }

  lemma AdvanceEnds(net: Net, prefix: seq<Token>, suffixes: seq<seq<Token>>, shapes: seq<Shape>, closers: set<Token>,
                    outs: seq<Readout>)
    requires |outs| == |suffixes| == |shapes|
    requires forall k :: 0 <= k < |shapes| ==> CueReadsAs(net, prefix, suffixes[k], shapes[k], closers, outs[k])
    ensures forall k :: 0 <= k < |outs| ==> Ends(outs)[k] == |Texts(prefix, suffixes)[k]|
  {
    hide FreshRow, FirstMax;
  }

  lemma AdvanceDone(net: Net, prefix: seq<Token>, suffixes: seq<seq<Token>>, shapes: seq<Shape>, closers: set<Token>,
                    outs: seq<Readout>, rows: seq<Option<Row>>)
    requires |outs| == |suffixes| == |shapes| == |rows| && prefix != []
    requires forall k :: 0 <= k < |shapes| ==> CueReadsAs(net, prefix, suffixes[k], shapes[k], closers, outs[k])
    requires RowsRead(net, Texts(prefix, suffixes), Choices(outs), rows)
    ensures forall k :: 0 <= k < |shapes| ==> ReadsAs(net, prefix, suffixes[k], shapes[k], closers, Reread(outs, rows)[k])
    ensures HeadTexts(prefix, suffixes, Reread(outs, rows)) == Stepped(Texts(prefix, suffixes), Choices(outs))
  {
    hide FreshRow, FirstMax;
    var after := Reread(outs, rows);
    forall k | 0 <= k < |shapes|
      ensures ReadsAs(net, prefix, suffixes[k], shapes[k], closers, after[k])
      ensures HeadText(prefix, suffixes[k], after[k]) == Stepped(Texts(prefix, suffixes), Choices(outs))[k]
    {
      var text := prefix + suffixes[k];
      assert after[k].choice == outs[k].choice && Choices(outs)[k] == outs[k].choice;
      assert text + [] == text;
      if outs[k].choice.Some? {
        assert HeadText(prefix, suffixes[k], after[k]) == text + [outs[k].choice.value];
      }
    }
  }

  // ---------------------------------------------------------------- the ranked policies

  /** The first free sequence after the given policies' pools. */
  ghost function CursorAfter(start: int, rank: seq<RankAsk>): (cursor: int)
    ensures cursor >= start
  {
    if rank == [] then start
    else
      var n := |rank| - 1;
      CursorAfter(start, rank[..n]) + Nodes(rank[n].paths, Widest(rank[n].paths))
  }

  predicate Measured(shapes: seq<Shape>, name: string) {
    exists k :: 0 <= k < |shapes| && shapes[k].name == name
  }

  predicate NoEmptyLabel(paths: seq<Path>) {
    forall i :: 0 <= i < |paths| ==> paths[i] != []
  }

  /** The guards of the ranking loop, up to policy n. */
  ghost predicate RankOk(shapes: seq<Shape>, rank: seq<RankAsk>, n: nat, maxSequences: int)
    requires n <= |rank|
  {
    forall i :: 0 <= i < n ==>
      && Measured(shapes, rank[i].shape)
      && NoEmptyLabel(rank[i].paths)
      && CursorAfter(|shapes| + 1, rank[..i + 1]) <= maxSequences
  }

  /** A ranked policy, said without a cache: each candidate's tokens scored by the fresh rows that follow
      the shape's own text; a candidate listed m times has its later scores repeated m times. */
  ghost predicate RankedAs(net: Net, text: seq<Token>, ask: RankAsk, cursor: int, ranked: Ranked) {
    && text != [] && NoEmptyLabel(ask.paths)
    && ranked.shape == ask.shape && ranked.base == |text|
    && ranked.pool == Range(cursor, Nodes(ask.paths, Widest(ask.paths)))
    && FullyScored(net, text, ask.paths, ranked.logprobs)
  }

  ghost predicate FullyScored(net: Net, text: seq<Token>, paths: seq<Path>, logprobs: seq<seq<real>>)
    requires text != [] && NoEmptyLabel(paths)
  {
    && |logprobs| == |paths|
    && forall i :: 0 <= i < |paths| ==>
         logprobs[i] == [FreshLogprob(net, text, paths[i], 0)] + Scores(net, text, paths[i], Tally(paths, paths[i]), |paths[i]| - 1)
  }

  lemma FullScore(net: Net, row: Row, paths: seq<Path>, rest: map<Path, seq<real>>, q: Path, text: seq<Token>)
    requires text != [] && row == FreshRow(net, text) && q != [] && q in paths
    requires Scored(net, text, paths, rest, Widest(paths))
    ensures q in rest
    ensures [net.logprob(row, q[0])] + rest[q]
         == [FreshLogprob(net, text, q, 0)] + Scores(net, text, q, Tally(paths, q), |q| - 1)
  {
    assert |q| <= Widest(paths);
    assert text + q[..0] == text;
    hide FreshRow, Fresh, Scores, Tally, Widest;
    assert Min(Widest(paths), Depth(q)) == |q| - 1;
  }

  method FindShape(shapes: seq<Shape>, name: string) returns (r: Option<nat>)
    ensures r.Some? <==> Measured(shapes, name)
    ensures r.Some? ==> r.value < |shapes| && shapes[r.value].name == name
  {
    for k := 0 to |shapes|
      invariant forall i :: 0 <= i < k ==> shapes[i].name != name
    {
      if shapes[k].name == name {
        return Some(k);
      }
    }
    return None;
  }

  method HasEmptyLabel(paths: seq<Path>) returns (b: bool)
    ensures b == !NoEmptyLabel(paths)
  {
    for i := 0 to |paths|
      invariant forall j :: 0 <= j < i ==> paths[j] != []
    {
      if paths[i] == [] {
        return true;
      }
    }
    return false;
  }

  /** The decision row scores the first token of every candidate, the trie the rest. */
  method FirstScores(net: Net, row: Row, paths: seq<Path>, rest: map<Path, seq<real>>, ghost text: seq<Token>)
    returns (all: seq<seq<real>>)
    requires text != [] && row == FreshRow(net, text) && NoEmptyLabel(paths)
    requires Scored(net, text, paths, rest, Widest(paths))
    ensures FullyScored(net, text, paths, all)
  {
    hide FreshRow, Fresh, Scores, Tally, Widest, Scored, FreshLogprob;
    all := [];
    for i := 0 to |paths|
      invariant |all| == i
      invariant forall k :: 0 <= k < i ==>
        all[k] == [FreshLogprob(net, text, paths[k], 0)] + Scores(net, text, paths[k], Tally(paths, paths[k]), |paths[k]| - 1)
    {
      FullScore(net, row, paths, rest, paths[i], text);
      all := all + [[net.logprob(row, paths[i][0])] + rest[paths[i]]];
    }
  }

  lemma PoolFree(net: Net, cells: seq<Cell>, prefix: seq<Token>, texts: seq<seq<Token>>, cursor: int, n: nat, k: nat)
    requires HeadsHold(net, cells, prefix, texts, cursor) && cursor > |texts| > k
    ensures var pool := Range(cursor, n);
            AllDistinct(pool) && k + 1 !in pool && Unused(cells, pool) && Holds(net, cells, k + 1, texts[k])
  {
    hide View, Fresh;
    forall s | s in Range(cursor, n) ensures s >= cursor {
    }
  }

  lemma PoolUsed(net: Net, cells: seq<Cell>, after: seq<Cell>, prefix: seq<Token>, texts: seq<seq<Token>>, cursor: int, n: nat)
    requires HeadsHold(net, cells, prefix, texts, cursor) && cursor > |texts|
    requires forall s :: s !in Range(cursor, n) ==> View(after, s) == View(cells, s)
    ensures HeadsHold(net, after, prefix, texts, cursor + n)
  {
    hide View, Fresh;
    forall s | s < cursor || s >= cursor + n ensures View(after, s) == View(cells, s) {
      assert s !in Range(cursor, n);
    }
  }

  /** One policy: its own pool of fresh sequences, the engine's arithmetic on the shape's row. */
  method RankOne(live: Session, prefix: seq<Token>, ask: RankAsk, k: nat, read: Readout, cursor: int,
                 ghost texts: seq<seq<Token>>)
    returns (ranked: Ranked)
    requires k < |texts| < cursor && HeadsHold(live.net, live.cells, prefix, texts, cursor)
    requires texts[k] != [] && read.row == FreshRow(live.net, texts[k]) && read.ended == |texts[k]| - 1
    requires NoEmptyLabel(ask.paths)
    modifies live`cells, live`decodeCalls
    ensures RankedAs(live.net, texts[k], ask, cursor, ranked) && ranked.head == k + 1
    ensures HeadsHold(live.net, live.cells, prefix, texts, cursor + Nodes(ask.paths, Widest(ask.paths)))
  {
    hide View, Fresh, HeadsHold, Nodes, Widest, Scores, Tally, FreshRow, Holds, AllDistinct, Unused, LevelSet;
    var n := TrieNodes(ask.paths);
    var pool := Range(cursor, n);
    ghost var start := live.cells;
    PoolFree(live.net, start, prefix, texts, cursor, n, k);
    var scores := ScorePaths(live, k + 1, read.ended + 1, pool, ask.paths, texts[k]);
    PoolUsed(live.net, start, live.cells, prefix, texts, cursor, n);
    var all := FirstScores(live.net, read.row, ask.paths, scores.value, texts[k]);
    ranked := Ranked(ask.shape, k + 1, read.ended + 1, pool, all);
  }

  lemma CursorStep(start: int, rank: seq<RankAsk>, n: nat)
    requires n < |rank|
    ensures CursorAfter(start, rank[..n + 1]) == CursorAfter(start, rank[..n]) + Nodes(rank[n].paths, Widest(rank[n].paths))
  {
    hide Nodes, Widest;
    assert rank[..n + 1][..n] == rank[..n] && rank[..n + 1][n] == rank[n];
  }

  /** The guards up to policy n+1 are those up to n and the n-th policy's own. */
  lemma RankOkStep(shapes: seq<Shape>, rank: seq<RankAsk>, n: nat, maxSequences: int)
    requires n < |rank|
    ensures RankOk(shapes, rank, n + 1, maxSequences) <==>
      && RankOk(shapes, rank, n, maxSequences)
      && Measured(shapes, rank[n].shape) && NoEmptyLabel(rank[n].paths)
      && CursorAfter(|shapes| + 1, rank[..n + 1]) <= maxSequences
  {
    hide Nodes, Widest, CursorAfter, Measured, NoEmptyLabel;
  }

  lemma RankOkPrefix(shapes: seq<Shape>, rank: seq<RankAsk>, n: nat, maxSequences: int)
    requires n <= |rank| && RankOk(shapes, rank, |rank|, maxSequences)
    ensures RankOk(shapes, rank, n, maxSequences)
  {
    hide Nodes, Widest, CursorAfter, Measured, NoEmptyLabel;
  }

  method RankAll(live: Session, prefix: seq<Token>, shapes: seq<Shape>, outs: seq<Readout>, rank: seq<RankAsk>,
                 maxSequences: int, ghost texts: seq<seq<Token>>)
    returns (r: Result<seq<Ranked>, Stop>)
    requires |texts| == |shapes| == |outs| && HeadsHold(live.net, live.cells, prefix, texts, |shapes| + 1)
    requires forall k :: 0 <= k < |texts| ==>
      texts[k] != [] && outs[k].row == FreshRow(live.net, texts[k]) && outs[k].ended == |texts[k]| - 1
    modifies live`cells, live`decodeCalls
    ensures r.Success? <==> RankOk(shapes, rank, |rank|, maxSequences)
    ensures r.Success? ==> |r.value| == |rank| && HeadsHold(live.net, live.cells, prefix, texts, CursorAfter(|shapes| + 1, rank))
    ensures r.Success? ==> forall i :: 0 <= i < |rank| ==>
      && 1 <= r.value[i].head <= |shapes| && shapes[r.value[i].head - 1].name == rank[i].shape
      && RankedAs(live.net, texts[r.value[i].head - 1], rank[i], CursorAfter(|shapes| + 1, rank[..i]), r.value[i])
  {
    var cursor := |shapes| + 1;
    var done: seq<Ranked> := [];
    hide View, Fresh, HeadsHold, Nodes, Widest, FreshRow, RankedAs, RankOk, CursorAfter, Measured, NoEmptyLabel;
    assert CursorAfter(cursor, rank[..0]) == cursor && RankOk(shapes, rank, 0, maxSequences) by {
      RankStart(shapes, rank, maxSequences);
    }
    for i := 0 to |rank|
      invariant |done| == i && cursor == CursorAfter(|shapes| + 1, rank[..i])
      invariant RankOk(shapes, rank, i, maxSequences)
      invariant HeadsHold(live.net, live.cells, prefix, texts, cursor)
      invariant forall j :: 0 <= j < i ==>
        && 1 <= done[j].head <= |shapes| && shapes[done[j].head - 1].name == rank[j].shape
        && RankedAs(live.net, texts[done[j].head - 1], rank[j], CursorAfter(|shapes| + 1, rank[..j]), done[j])
    {
      CursorStep(|shapes| + 1, rank, i);
      RankOkStep(shapes, rank, i, maxSequences);
      if RankOk(shapes, rank, |rank|, maxSequences) {
        RankOkPrefix(shapes, rank, i + 1, maxSequences);
      }
      var found := FindShape(shapes, rank[i].shape);
      if found.None? {
        return Failure(UnmeasuredShape);
      }
      var empty := HasEmptyLabel(rank[i].paths);
      if empty {
        return Failure(EmptyLabel);
      }
      var n := TrieNodes(rank[i].paths);
      if cursor + n > maxSequences {
        return Failure(PoolTooSmall);
      }
      var ranked := RankOne(live, prefix, rank[i], found.value, outs[found.value], cursor, texts);
      done, cursor := done + [ranked], cursor + n;
    }
    assert rank[..|rank|] == rank;
    return Success(done);
  }

  lemma RankStart(shapes: seq<Shape>, rank: seq<RankAsk>, maxSequences: int)
    ensures CursorAfter(|shapes| + 1, rank[..0]) == |shapes| + 1 && RankOk(shapes, rank, 0, maxSequences)
  {
  }

  // ---------------------------------------------------------------- measure_item

  predicate DistinctNames(shapes: seq<Shape>) {
    forall i, j :: 0 <= i < j < |shapes| ==> shapes[i].name != shapes[j].name
  }

  /** The measured variants' labels all have a first token. */
  predicate LabelsReadable(variants: seq<seq<Path>>) {
    forall i :: 0 <= i < |variants| ==> NoEmptyLabel(variants[i])
  }

  method ReadLabels(variants: seq<seq<Path>>) returns (b: bool)
    ensures b == LabelsReadable(variants)
  {
    for v := 0 to |variants|
      invariant forall i :: 0 <= i < v ==> NoEmptyLabel(variants[i])
    {
      var empty := HasEmptyLabel(variants[v]);
      if empty {
        return false;
      }
    }
    return true;
  }

  method HasRepeatedName(shapes: seq<Shape>) returns (b: bool)
    ensures b == !DistinctNames(shapes)
  {
    for j := 0 to |shapes|
      invariant forall i, k :: 0 <= i < k < j ==> shapes[i].name != shapes[k].name
    {
      for i := 0 to j
        invariant forall k :: 0 <= k < i ==> shapes[k].name != shapes[j].name
      {
        if shapes[i].name == shapes[j].name {
          return true;
        }
      }
    }
    return false;
  }

  /** An item's whole measurement: the prefix, all cues in one batch, the shapes that move on, then the ranked
      policies. It succeeds exactly when its guards hold, and then every number in the record
      is the one an independent context would have given, however the sequences were shared. */
  method MeasureItem(live: Session, prefix: seq<Token>, shapes: seq<Shape>, suffixes: seq<seq<Token>>, closers: set<Token>,
                     variants: seq<seq<Path>>, rank: seq<RankAsk>, maxSequences: int)
    returns (r: Result<Record, Stop>)
    requires Blank(live.cells) && |shapes| == |suffixes|
    modifies live`cells, live`decodeCalls
    ensures r.Success? <==>
      && prefix != [] && shapes != [] && AllNonEmpty(suffixes) && DistinctNames(shapes)
      && LabelsReadable(variants) && CanAdvance(live.net, prefix, suffixes, shapes, closers)
      && RankOk(shapes, rank, |rank|, maxSequences)
    ensures r.Success? ==> |r.value.outs| == |r.value.cueRows| == |shapes| && |r.value.ranked| == |rank|
    ensures r.Success? ==> forall k :: 0 <= k < |shapes| ==>
      && prefix + suffixes[k] != [] && r.value.cueRows[k] == FreshRow(live.net, prefix + suffixes[k])
      && ReadsAs(live.net, prefix, suffixes[k], shapes[k], closers, r.value.outs[k])
    ensures r.Success? ==> forall i :: 0 <= i < |rank| ==>
      && 1 <= r.value.ranked[i].head <= |shapes| && shapes[r.value.ranked[i].head - 1].name == rank[i].shape
      && RankedAs(live.net, HeadTexts(prefix, suffixes, r.value.outs)[r.value.ranked[i].head - 1], rank[i],
                  CursorAfter(|shapes| + 1, rank[..i]), r.value.ranked[i])
    ensures r.Success? ==>
      HeadsHold(live.net, live.cells, prefix, HeadTexts(prefix, suffixes, r.value.outs), CursorAfter(|shapes| + 1, rank))
  {
    hide View, Fresh, HeadsHold, FreshRow, RankedAs, RankOk, CursorAfter, Blank, FirstMax, HasContent;
    var rows := ForkedReadout(live, prefix, suffixes);
    if rows.Failure? {
      return Failure(rows.error);
    }
    // a repeated name leaves fewer token lists than shapes, which the strict zip refuses
    var repeated := HasRepeatedName(shapes);
    if repeated {
      return Failure(StrictZip);
    }
    // every row's label block reads the first token of every label of every variant
    var readable := ReadLabels(variants);
    if !readable {
      return Failure(EmptyLabel);
    }
    var cues := ReadCues(live.net, rows.value, prefix, suffixes, shapes, closers);
    if cues.Failure? {
      return Failure(cues.error);
    }
    var outs := AdvanceShapes(live, prefix, suffixes, shapes, closers, cues.value);
    ghost var texts := HeadTexts(prefix, suffixes, outs);
    var ranked := RankAll(live, prefix, shapes, outs, rank, maxSequences, texts);
    if ranked.Failure? {
      return Failure(ranked.error);
    }
    return Success(Record(rows.value, outs, ranked.value));
  }

  // ---------------------------------------------------------------- what the record's numbers mean

  ghost function Pool(start: int, rank: seq<RankAsk>, i: nat): seq<int>
    requires i < |rank|
  {
    Range(CursorAfter(start, rank[..i]), Nodes(rank[i].paths, Widest(rank[i].paths)))
  }

  lemma {:induction false} CursorMonotone(start: int, rank: seq<RankAsk>, i: nat, j: nat)
    requires i <= j <= |rank|
    ensures start <= CursorAfter(start, rank[..i]) <= CursorAfter(start, rank[..j])
  {
    hide *;
    if i < j {
      CursorStep(start, rank, j - 1);
      CursorMonotone(start, rank, i, j - 1);
    }
  }

  /** Every policy ranks on sequences of its own: above the heads, apart from every other policy's, and
      (once the guards hold) below `--max-sequences`. The heads are below it too, if anything is ranked. */
  lemma PoolsDisjoint(shapes: seq<Shape>, rank: seq<RankAsk>, i: nat, j: nat, maxSequences: int)
    requires i < j < |rank| && RankOk(shapes, rank, |rank|, maxSequences)
    ensures var start := |shapes| + 1;
            forall s :: s in Pool(start, rank, i) ==> start <= s < maxSequences && s !in Pool(start, rank, j)
    ensures |shapes| < maxSequences
  {
    var start := |shapes| + 1;
    hide CursorAfter, Nodes, Widest, Measured, NoEmptyLabel;
    CursorStep(start, rank, i);
    CursorMonotone(start, rank, 0, i);
    CursorMonotone(start, rank, i + 1, j);
    CursorMonotone(start, rank, 0, |rank|);
    CursorMonotone(start, rank, j, |rank|);
    assert rank[..|rank|] == rank && rank[..|rank| - 1 + 1] == rank;
  }

  /** A run that ranks nothing never compares its heads with `--max-sequences`: they may exceed it. */
  lemma HeadsUnguarded(shapes: seq<Shape>, maxSequences: int)
    requires |shapes| >= maxSequences
    ensures RankOk(shapes, [], 0, maxSequences)
    ensures forall rank :: rank != [] ==> !RankOk(shapes, rank, |rank|, maxSequences)
  {
    forall rank: seq<RankAsk> | rank != [] ensures !RankOk(shapes, rank, |rank|, maxSequences) {
      CursorMonotone(|shapes| + 1, rank, 0, |rank|);
      assert rank[..|rank| - 1 + 1] == rank[..|rank|];
    }
  }

  /** The number of sequences the context is created for. */
  function ContextSize(nShapes: nat, nCriteria: nat): nat {
    var wanted := 1 + nShapes + 4 * nCriteria + 4;
    if wanted < 8 then 8 else wanted
  }

  /** The pools are guarded by another number: they stay inside the context exactly when the final cursor does. */
  lemma PoolsFitContext(shapes: seq<Shape>, rank: seq<RankAsk>, nCriteria: nat)
    ensures var start, size := |shapes| + 1, ContextSize(|shapes|, nCriteria);
            (forall i: nat, s :: i < |rank| && s in Pool(start, rank, i) ==> s < size) <==> CursorAfter(start, rank) <= size
  {
    hide Nodes, Widest;
    var start, size := |shapes| + 1, ContextSize(|shapes|, nCriteria);
    assert rank[..|rank|] == rank;
    forall i: nat, s | i < |rank| && s in Pool(start, rank, i) ensures s < CursorAfter(start, rank) {
      CursorStep(start, rank, i);
      CursorMonotone(start, rank, i + 1, |rank|);
    }
    if CursorAfter(start, rank) > size {
      LastPoolMember(start, rank, size);
    }
  }

  lemma {:induction false} LastPoolMember(start: int, rank: seq<RankAsk>, nSeqMax: int)
    requires start <= nSeqMax < CursorAfter(start, rank)
    ensures exists i: nat, s :: i < |rank| && s in Pool(start, rank, i) && s >= nSeqMax
    decreases |rank|
  {
    hide Nodes, Widest;
    var n := |rank| - 1;
    CursorStep(start, rank, n);
    assert rank[..n + 1] == rank;
    if CursorAfter(start, rank[..n]) > nSeqMax {
      LastPoolMember(start, rank[..n], nSeqMax);
      var i: nat, s :| i < n && s in Pool(start, rank[..n], i) && s >= nSeqMax;
      assert rank[..n][..i] == rank[..i];
      assert s in Pool(start, rank, i);
    } else {
      var s := CursorAfter(start, rank) - 1;
      assert Pool(start, rank, n)[s - CursorAfter(start, rank[..n])] == s;
      assert n < |rank| && s in Pool(start, rank, n) && s >= nSeqMax;
    }
  }

  /** Labels that share no first token, all of the same length. */
  ghost predicate Unshared(paths: seq<Path>, n: nat) {
    && n > 0
    && (forall i :: 0 <= i < |paths| ==> |paths[i]| == n)
    && forall i, j :: 0 <= i < j < |paths| ==> paths[i][0] != paths[j][0]
  }

  lemma {:induction false} UnsharedLevel(paths: seq<Path>, n: nat, level: nat)
    requires Unshared(paths, n) && 1 <= level < n
    ensures |LevelSet(paths, level)| == |paths|
    decreases |paths|
  {
    if paths == [] {
      assert LevelSet(paths, level) == {};
    } else {
      hide *;
      UnsharedInit(paths, n);
      UnsharedLast(paths, n, level);
      UnsharedLevel(paths[..|paths| - 1], n, level);
      OneMoreInLevel(paths, level);
    }
  }

  lemma OneMoreInLevel(paths: seq<Path>, level: nat)
    requires paths != [] && |paths[|paths| - 1]| > level
    requires paths[|paths| - 1][..level] !in LevelSet(paths[..|paths| - 1], level)
    ensures |LevelSet(paths, level)| == |LevelSet(paths[..|paths| - 1], level)| + 1
  {
    var init, p := paths[..|paths| - 1], paths[|paths| - 1];
    assert paths == init + [p];
    LevelSetSnoc(init, p, level);
    hide LevelSet;
  }

  lemma UnsharedInit(paths: seq<Path>, n: nat)
    requires Unshared(paths, n) && paths != []
    ensures Unshared(paths[..|paths| - 1], n)
  {
  }

  lemma LevelSetSnoc(paths: seq<Path>, p: Path, level: nat)
    requires |p| > level
    ensures LevelSet(paths + [p], level) == LevelSet(paths, level) + {p[..level]}
  {
    assert forall q :: q in paths + [p] <==> q in paths || q == p;
  }

  lemma UnsharedLast(paths: seq<Path>, n: nat, level: nat)
    requires Unshared(paths, n) && 1 <= level < n && paths != []
    ensures |paths[|paths| - 1]| > level && paths[|paths| - 1][..level] !in LevelSet(paths[..|paths| - 1], level)
  {
    var k := |paths| - 1;
    var last := paths[k];
    forall p | p in LevelSet(paths[..k], level) ensures p != last[..level] {
      var q :| q in paths[..k] && |q| > level && p == q[..level];
      var i :| 0 <= i < k && paths[i] == q;
      assert p[0] == q[0] && last[..level][0] == last[0];
    }
  }

  /** Nothing shared: every label needs a sequence for each of its tokens but the last. */
  lemma {:induction false} UnsharedNodes(paths: seq<Path>, n: nat, level: nat)
    requires Unshared(paths, n) && 1 <= level <= n
    ensures Nodes(paths, level) == |paths| * (level - 1)
    decreases level
  {
    if level > 1 {
      UnsharedNodes(paths, n, level - 1);
      UnsharedLevel(paths, n, level - 1);
      hide LevelSet, Unshared;
      OneMoreLevel(|paths|, level);
    }
  }

  lemma OneMoreLevel(c: nat, level: nat)
    requires level > 1
    ensures c * (level - 2) + c == c * (level - 1)
  {
  }

  lemma {:induction false} UnsharedWidest(paths: seq<Path>, n: nat)
    requires Unshared(paths, n) && paths != []
    ensures Widest(paths) == n
    decreases |paths|
  {
    if |paths| > 1 {
      UnsharedWidest(paths[1..], n);
    }
  }

  /** One shape and two to eight labels of eight tokens each that share no first token: the guard accepts the
      policy under the default ceiling of 64, and its pool reaches past the sequences the context has. */
  lemma PoolOutgrowsContext(shape: Shape, labels: seq<Path>)
    requires 2 <= |labels| <= 8 && Unshared(labels, 8)
    ensures var rank := [RankAsk(shape.name, labels)];
            RankOk([shape], rank, 1, 64) && exists s :: s in Pool(2, rank, 0) && s >= ContextSize(1, |labels|)
  {
    var rank, c := [RankAsk(shape.name, labels)], |labels|;
    UnsharedNodes(labels, 8, 8);
    UnsharedWidest(labels, 8);
    assert rank[..1] == rank && rank[..0] == [];
    assert [shape][0].name == rank[0].shape;
    CursorStep(2, rank, 0);
    hide Nodes, Widest, Unshared, RankOk;
    assert CursorAfter(2, rank) == 2 + 7 * c > ContextSize(1, c);
    LastPoolMember(2, rank, ContextSize(1, c));
    assert RankOk([shape], rank, 1, 64) by {
      OutgrownRankOk(shape, labels);
    }
  }

  lemma OutgrownRankOk(shape: Shape, labels: seq<Path>)
    requires 2 <= |labels| <= 8 && Unshared(labels, 8)
    requires CursorAfter(2, [RankAsk(shape.name, labels)]) <= 64
    ensures RankOk([shape], [RankAsk(shape.name, labels)], 1, 64)
  {
    var rank := [RankAsk(shape.name, labels)];
    assert rank[..1] == rank;
    assert [shape][0].name == rank[0].shape;
    hide Nodes, Widest, CursorAfter;
  }

  /** The log-probabilities of a candidate decoded token by token after `text` in a context of its own. */
  ghost function Sequential(net: Net, text: seq<Token>, q: Path): (s: seq<real>)
    requires text != []
    ensures |s| == |q|
  {
    SequentialTo(net, text, q, |q|)
  }

  /** The same for the candidate's first n tokens. */
  ghost function SequentialTo(net: Net, text: seq<Token>, q: Path, n: nat): (s: seq<real>)
    requires text != [] && n <= |q|
    ensures |s| == n
  {
    seq(n, k requires 0 <= k < n => FreshLogprob(net, text, q, k))
  }

  /** Sharing prefixes in the trie is exact for a candidate with several tokens if and only if it is listed
      once: a repeated candidate gets its later log-probabilities repeated as well. */
  lemma SharedEqualsSequential(net: Net, text: seq<Token>, ask: RankAsk, cursor: int, ranked: Ranked, i: nat)
    requires RankedAs(net, text, ask, cursor, ranked) && i < |ask.paths|
    ensures |ranked.logprobs| == |ask.paths|
    ensures var q := ask.paths[i];
            && (|ranked.logprobs[i]| == |q| <==> |q| == 1 || Tally(ask.paths, q) == 1)
            && (ranked.logprobs[i] == Sequential(net, text, q) <==> |q| == 1 || Tally(ask.paths, q) == 1)
  {
    hide *;
    RankedEntry(net, text, ask, cursor, ranked, i);
    if |ask.paths[i]| == 1 || Tally(ask.paths, ask.paths[i]) == 1 {
      OnceIsSequential(net, text, ask.paths[i], Tally(ask.paths, ask.paths[i]));
    }
  }

  lemma RankedEntry(net: Net, text: seq<Token>, ask: RankAsk, cursor: int, ranked: Ranked, i: nat)
    requires RankedAs(net, text, ask, cursor, ranked) && i < |ask.paths|
    ensures |ranked.logprobs| == |ask.paths|
    ensures var q := ask.paths[i];
            && text != [] && |q| >= 1 && Tally(ask.paths, q) >= 1
            && ranked.logprobs[i] == [FreshLogprob(net, text, q, 0)] + Scores(net, text, q, Tally(ask.paths, q), |q| - 1)
            && |ranked.logprobs[i]| == 1 + Tally(ask.paths, q) * (|q| - 1)
  {
    hide Fresh, FreshRow, FreshLogprob, Nodes, Widest, Scores, Tally;
    TallyMember(ask.paths, ask.paths[i]);
  }

  lemma OnceIsSequential(net: Net, text: seq<Token>, q: Path, m: nat)
    requires text != [] && (|q| == 1 || (|q| > 1 && m == 1))
    ensures [FreshLogprob(net, text, q, 0)] + Scores(net, text, q, m, |q| - 1) == Sequential(net, text, q)
  {
    hide Fresh, FreshRow, FreshLogprob;
    var got := [FreshLogprob(net, text, q, 0)] + Scores(net, text, q, m, |q| - 1);
    forall k | 1 <= k < |q| ensures got[k] == Sequential(net, text, q)[k] {
      ScoresAt(net, text, q, |q| - 1, k - 1);
    }
  }
}
