/** One live context and the batches it decodes. */
module Sessions {
  import opened KvCache
  import opened Wrappers

  /** Why a readout stops: the exception the program raises. */
  datatype Stop =
    | EmptyPrefix       // prefill of zero tokens
    | EmptyBatch        // a decode of nothing
    | StrictZip         // two sequences zipped with strict=True differ in length
    | MissingPlace      // fewer positions than tokens
    | NoContentToken    // a row without a token outside the turn closers
    | UnmeasuredShape   // a ranked shape this run did not measure
    | PoolTooSmall      // --max-sequences is too small
    | PoolExhausted     // more trie nodes than pool sequences
    | EmptyLabel        // a label that tokenizes to nothing
    | SeqMaxExceeded    // more sequences or waves than the context or the request allows
    | ContextTooSmall   // the prompt does not fit the context
    | CandidateCollision // two candidates scored by the same tokens
    | StateLoadFailed   // a saved prefix that is of other tokens

  /** What a decode is given: four lists of equal length, an element of each per token. */
  datatype Batch = Batch(tokens: seq<Token>, seqIds: seq<int>, positions: seq<int>, logits: seq<bool>) {
    predicate Valid() {
      tokens != [] && |tokens| == |seqIds| == |positions| == |logits|
    }

    function Slots(): seq<Slot>
      requires |tokens| == |seqIds| == |positions| == |logits|
    {
      seq(|tokens|, i requires 0 <= i < |tokens| => Slot(tokens[i], seqIds[i], positions[i], logits[i]))
    }
  }

  /** A prefix on disk: the tokens it was saved for, and what sequence 0 saw. */
  datatype SavedState = SavedState(tokens: seq<Token>, entries: seq<Entry>)

  /** The cells `llama_state_seq_load_file` makes for sequence 0. */
  function Restored(entries: seq<Entry>): seq<Cell> {
    if entries == [] then [] else [Cell(entries[0], {0})] + Restored(entries[1..])
  }

  lemma {:induction false} RestoredView(entries: seq<Entry>, s: int)
    ensures View(Restored(entries), s) == if s == 0 then entries else []
  {
    if entries != [] {
      RestoredView(entries[1..], s);
      assert Restored(entries)[1..] == Restored(entries[1..]);
    }
  }

  class Session {
    const net: Net
    var cells: seq<Cell>
    var decodeCalls: nat

    constructor (net: Net)
      ensures this.net == net && cells == [] && decodeCalls == 0
    {
      this.net := net;
      cells := [];
      decodeCalls := 0;
    }

    method Fork(src: int, dst: int, upto: int)
      modifies this`cells
      ensures cells == Forked(old(cells), src, dst, upto)
      ensures forall s :: s != dst ==> View(cells, s) == View(old(cells), s)
      ensures src != dst && View(old(cells), dst) == [] ==> View(cells, dst) == Upto(View(old(cells), src), upto)
    {
      forall s {
        ForkView(cells, src, dst, upto, s);
      }
      cells := Forked(cells, src, dst, upto);
    }

    /** Takes a sequence off its cells; nothing is done to sequence 0. */
    method Release(s: int)
      modifies this`cells
      ensures cells == if s == 0 then old(cells) else Released(old(cells), s)
      ensures forall r :: View(cells, r) == if r == s != 0 then [] else View(old(cells), r)
    {
      if s != 0 {
        forall r {
          ReleaseView(cells, s, r);
        }
        cells := Released(cells, s);
      }
    }

    method Decode(batch: Batch) returns (rows: seq<Row>)
      requires batch.Valid()
      modifies this`cells, this`decodeCalls
      ensures cells == RunCells(net, old(cells), batch.Slots())
      ensures rows == RunRows(net, old(cells), batch.Slots())
      ensures decodeCalls == old(decodeCalls) + 1
    {
      assert |batch.tokens| == |batch.seqIds| == |batch.positions| == |batch.logits|;
      hide *;
      var slots := batch.Slots();
      var start, now := cells, cells;
      decodeCalls := decodeCalls + 1;
      rows := [];
      assert slots[0..] == slots && [] + RunRows(net, start, slots) == RunRows(net, start, slots);
      for i := 0 to |slots|
        invariant RunCells(net, now, slots[i..]) == RunCells(net, start, slots)
        invariant rows + RunRows(net, now, slots[i..]) == RunRows(net, start, slots)
        invariant decodeCalls == old(decodeCalls) + 1
      {
        RunStep(net, now, slots, i, rows);
        if slots[i].logits {
          rows := rows + [net.head(HiddenAt(net, now, slots[i]))];
        }
        now := Put(net, now, slots[i]);
      }
      assert slots[|slots|..] == [];
      RunNone(net, now, rows);
      cells := now;
    }

    /** Sequence 0 as it stands, for a later context. */
    method SaveState(tokens: seq<Token>) returns (saved: SavedState)
      ensures saved == SavedState(tokens, View(cells, 0))
    {
      saved := SavedState(tokens, View(cells, 0));
    }

    /** A saved prefix put back; what is compared is its tokens. */
    method LoadState(saved: SavedState, tokens: seq<Token>) returns (r: Result<(), Stop>)
      modifies this`cells
      ensures r == if saved.tokens == tokens then Success(()) else Failure(StateLoadFailed)
      ensures r.Failure? ==> cells == old(cells)
      ensures r.Success? ==> View(cells, 0) == View(old(cells), 0) + saved.entries
      ensures forall s :: s != 0 ==> View(cells, s) == View(old(cells), s)
    {
      if saved.tokens != tokens {
        return Failure(StateLoadFailed);
      }
      forall s ensures View(cells + Restored(saved.entries), s) == View(cells, s) + if s == 0 then saved.entries else [] {
        ViewAppend(cells, Restored(saved.entries), s);
        RestoredView(saved.entries, s);
      }
      hide View;
      cells := cells + Restored(saved.entries);
      return Success(());
    }

    /** The shared prefix on sequence 0: put back if a state was saved for it, or else decoded, with no row
        asked for. */
    method Prefill(tokens: seq<Token>, saved: Option<SavedState>) returns (r: Result<bool, Stop>)
      modifies this`cells, this`decodeCalls
      ensures r.Success? <==> tokens != [] && (saved.Some? ==> saved.value.tokens == tokens)
      ensures r.Failure? ==> r.error == if tokens == [] then EmptyPrefix else StateLoadFailed
      ensures r.Failure? ==> cells == old(cells) && decodeCalls == old(decodeCalls)
      ensures r.Success? ==> r.value == saved.Some? && decodeCalls == old(decodeCalls) + if r.value then 0 else 1
      ensures r.Success? && View(old(cells), 0) == [] ==>
                View(cells, 0) == if r.value then saved.value.entries else Fresh(net, tokens)
      ensures forall s :: s != 0 && View(old(cells), 0) == [] ==> View(cells, s) == View(old(cells), s)
    {
      if tokens == [] {
        return Failure(EmptyPrefix);
      }
      if saved.Some? {
        var loaded := LoadState(saved.value, tokens);
        return if loaded.Success? then Success(true) else Failure(loaded.error);
      }
      var n := |tokens|;
      var batch := Batch(tokens, seq(n, i => 0), Range(0, n), seq(n, i => false));
      PrefillHolds(net, cells, batch, tokens);
      var _ := Decode(batch);
      r := Success(false);
    }
  }

  /** The state was saved by a context of this network, or is refused for its tokens. */
  ghost predicate OwnState(net: Net, tokens: seq<Token>, saved: Option<SavedState>) {
    saved.Some? && saved.value.tokens == tokens ==> saved.value.entries == Fresh(net, tokens)
  }

  /** What one context prefills and saves, another context of the same network may put back. */
  method SaveThenLoad(net: Net, tokens: seq<Token>) returns (saved: SavedState, live: Session)
    requires tokens != []
    ensures saved.tokens == tokens && OwnState(net, tokens, Some(saved))
    ensures fresh(live) && live.net == net && Holds(net, live.cells, 0, tokens) && live.decodeCalls == 0
  {
    var first := new Session(net);
    var decoded := first.Prefill(tokens, None);
    saved := first.SaveState(tokens);
    live := new Session(net);
    var reused := live.Prefill(tokens, Some(saved));
  }

  /** The network whose rows repeat the first hidden state of a context. */
  function EchoNet(x: real): Net {
    Net((es: seq<Entry>, t: Token, p: int) => if es == [] then [x] else es[0].hidden, (h: Hidden) => h, (row: Row, t: Token) => 0.0)
  }

  lemma {:induction false} EchoFirst(x: real, toks: seq<Token>)
    requires toks != []
    ensures Fresh(EchoNet(x), toks)[0].hidden == [x] && FreshRow(EchoNet(x), toks) == [x]
  {
    if |toks| > 1 {
      EchoFirst(x, toks[..|toks| - 1]);
    }
  }

  /** The state of one network is put back for another, and the row after one more token is the other's. */
  ghost predicate Misleads(net: Net, other: Net, prefix: seq<Token>, t: Token) {
    var cells := Restored(Fresh(other, prefix));
    && RunRows(net, cells, [Slot(t, 0, |prefix|, true)]) == [FreshRow(other, prefix + [t])]
    && FreshRow(other, prefix + [t]) != FreshRow(net, prefix + [t])
  }

  lemma RestoredRow(net: Net, entries: seq<Entry>, slot: Slot)
    requires slot.logits && slot.seqId == 0
    ensures RunRows(net, Restored(entries), [slot]) == [net.head(net.step(Upto(entries, slot.pos), slot.token, slot.pos))]
  {
    RestoredView(entries, 0);
    assert [slot][1..] == [];
    hide View, Upto, Restored;
  }

  /** The loader compares tokens and no model: after any prefix there are two networks that it confuses. */
  lemma ForeignState(prefix: seq<Token>, t: Token)
    requires prefix != []
    ensures exists net: Net, other: Net :: Misleads(net, other, prefix, t)
  {
    var net, other := EchoNet(0.0), EchoNet(1.0);
    EchoFirst(0.0, prefix + [t]);
    EchoFirst(1.0, prefix + [t]);
    EchoFirst(1.0, prefix);
    FreshUpto(other, prefix);
    var es, slot := Fresh(other, prefix), Slot(t, 0, |prefix|, true);
    assert net.head(net.step(es, t, |prefix|)) == [1.0];
    assert [0.0][0] != [1.0][0];
    hide *;
    RestoredRow(net, es, slot);
    IsMisleading(net, other, prefix, t);
  }

  lemma IsMisleading(net: Net, other: Net, prefix: seq<Token>, t: Token)
    requires RunRows(net, Restored(Fresh(other, prefix)), [Slot(t, 0, |prefix|, true)]) == [FreshRow(other, prefix + [t])]
    requires FreshRow(other, prefix + [t]) != FreshRow(net, prefix + [t])
    ensures Misleads(net, other, prefix, t)
  {
    hide Fresh, FreshRow, Restored, RunRows;
  }

  lemma RunStep(net: Net, cells: seq<Cell>, slots: seq<Slot>, i: nat, rows: seq<Row>)
    requires i < |slots|
    ensures var next := Put(net, cells, slots[i]);
            var more := if slots[i].logits then rows + [net.head(HiddenAt(net, cells, slots[i]))] else rows;
            && RunCells(net, cells, slots[i..]) == RunCells(net, next, slots[i + 1..])
            && rows + RunRows(net, cells, slots[i..]) == more + RunRows(net, next, slots[i + 1..])
  {
    assert slots[i..][0] == slots[i] && slots[i..][1..] == slots[i + 1..];
    hide View, Upto, HiddenAt, Put;
  }

  lemma RunNone(net: Net, cells: seq<Cell>, rows: seq<Row>)
    ensures RunCells(net, cells, []) == cells && rows + RunRows(net, cells, []) == rows
  {
  }

  lemma PrefillHolds(net: Net, cells: seq<Cell>, batch: Batch, tokens: seq<Token>)
    requires tokens != []
    requires batch == Batch(tokens, seq(|tokens|, i => 0), Range(0, |tokens|), seq(|tokens|, i => false))
    ensures View(cells, 0) == [] ==>
              && Holds(net, RunCells(net, cells, batch.Slots()), 0, tokens)
              && forall s :: s != 0 ==> View(RunCells(net, cells, batch.Slots()), s) == View(cells, s)
  {
    if View(cells, 0) == [] {
      var n := |tokens|;
      SegmentSnoc(0, 0, tokens, 0);
      forall i: nat | i < n ensures batch.Slots()[i] == Segment(0, 0, tokens)[i].(logits := false) {
        SegmentSnoc(0, 0, tokens, i);
      }
      SameTokensSameCells(net, cells, batch.Slots(), Segment(0, 0, tokens));
      SegmentRun(net, cells, 0, [], tokens);
      assert [] + tokens == tokens;
    }
  }

  /** The logits flags choose which rows come back, never what the cache holds. */
  lemma {:induction false} SameTokensSameCells(net: Net, cells: seq<Cell>, a: seq<Slot>, b: seq<Slot>)
    requires |a| == |b|
    requires forall i :: 0 <= i < |a| ==> a[i] == b[i].(logits := a[i].logits)
    ensures RunCells(net, cells, a) == RunCells(net, cells, b)
    decreases |a|
  {
    if a != [] {
      assert Put(net, cells, a[0]) == Put(net, cells, b[0]);
      SameTokensSameCells(net, Put(net, cells, a[0]), a[1..], b[1..]);
    }
  }

  // ---------------------------------------------------------------- batch_for

  /** The first `n` slots of one pair: the token at index i goes to the i-th given place, only the last
      asks a row. */
  function PlacedFirst(s: int, toks: seq<Token>, places: seq<int>, n: nat): (slots: seq<Slot>)
    requires n <= |toks| && n <= |places|
    ensures |slots| == n
  {
    seq(n, i requires 0 <= i < n => Slot(toks[i], s, places[i], i == |toks| - 1))
  }

  function Placed(s: int, toks: seq<Token>, places: seq<int>): (slots: seq<Slot>)
    requires |toks| <= |places|
    ensures |slots| == |toks|
  {
    PlacedFirst(s, toks, places, |toks|)
  }

  lemma SlotsPush(batch: Batch, slot: Slot)
    requires |batch.tokens| == |batch.seqIds| == |batch.positions| == |batch.logits|
    ensures Batch(batch.tokens + [slot.token], batch.seqIds + [slot.seqId], batch.positions + [slot.pos],
                  batch.logits + [slot.logits]).Slots()
         == batch.Slots() + [slot]
  {
  }

  ghost predicate EnoughPlaces(wanted: seq<(int, seq<Token>)>, positions: seq<seq<int>>) {
    |wanted| <= |positions| && forall i :: 0 <= i < |wanted| ==> |wanted[i].1| <= |positions[i]|
  }

  ghost function AllPlaced(wanted: seq<(int, seq<Token>)>, positions: seq<seq<int>>): seq<Slot>
    requires EnoughPlaces(wanted, positions)
  {
    if wanted == [] then []
    else
      var n := |wanted| - 1;
      AllPlaced(wanted[..n], positions) + Placed(wanted[n].0, wanted[n].1, positions[n])
  }

  /** The batch in which all pairs are decoded together, each in turn, with its places. */
  method BatchFor(wanted: seq<(int, seq<Token>)>, positions: seq<seq<int>>) returns (r: Result<Batch, Stop>)
    ensures r.Success? ==> |wanted| == |positions| && EnoughPlaces(wanted, positions)
    ensures |wanted| == |positions| && EnoughPlaces(wanted, positions) ==>
              && r.Success? == (AllPlaced(wanted, positions) != [])
              && (r.Failure? ==> r.error == EmptyBatch)
    ensures r.Success? ==> r.value.Valid() && r.value.Slots() == AllPlaced(wanted, positions)
  {
    var batch := Batch([], [], [], []);
    var k := 0;
    assert batch.Slots() == AllPlaced(wanted[..0], positions);
    hide PlacedFirst;
    while k < |wanted| && k < |positions|
      invariant 0 <= k <= |wanted| && k <= |positions|
      invariant |batch.tokens| == |batch.seqIds| == |batch.positions| == |batch.logits|
      invariant EnoughPlaces(wanted[..k], positions)
      invariant batch.Slots() == AllPlaced(wanted[..k], positions)
    {
      var (s, toks) := wanted[k];
      var places := positions[k];
      ghost var before := batch.Slots();
      for index := 0 to |toks|
        invariant |batch.tokens| == |batch.seqIds| == |batch.positions| == |batch.logits|
        invariant index <= |places|
        invariant batch.Slots() == before + PlacedFirst(s, toks, places, index)
      {
        if index >= |places| {
          return Failure(MissingPlace);
        }
        SlotsPush(batch, Slot(toks[index], s, places[index], index == |toks| - 1));
        batch := Batch(batch.tokens + [toks[index]], batch.seqIds + [s],
                       batch.positions + [places[index]], batch.logits + [index == |toks| - 1]);
      }
      assert wanted[..k + 1][..k] == wanted[..k];
      k := k + 1;
    }
    if |wanted| != |positions| {
      return Failure(StrictZip);
    }
    assert wanted[..k] == wanted;
    if batch.tokens == [] {
      return Failure(EmptyBatch);
    }
    return Success(batch);
  }

  // ---------------------------------------------------------------- batches of whole branches

  function Range(lo: int, n: nat): (r: seq<int>)
    ensures |r| == n && forall i :: 0 <= i < n ==> r[i] == lo + i
  {
    seq(n, i requires 0 <= i < n => lo + i)
  }

  function Wanted(bs: seq<Branch>): (w: seq<(int, seq<Token>)>)
    ensures |w| == |bs|
  {
    seq(|bs|, i requires 0 <= i < |bs| => (bs[i].seqId, bs[i].toks))
  }

  function Places(bs: seq<Branch>): (p: seq<seq<int>>)
    ensures |p| == |bs|
  {
    seq(|bs|, i requires 0 <= i < |bs| => Range(|bs[i].past|, |bs[i].toks|))
  }

  lemma {:induction false} SlotsSnoc(bs: seq<Branch>, b: Branch)
    ensures KvCache.Slots(bs + [b]) == KvCache.Slots(bs) + Segment(b.seqId, |b.past|, b.toks)
    decreases |bs|
  {
    if bs == [] {
      assert [] + [b] == [b];
      assert [b][1..] == [];
    } else {
      assert (bs + [b])[1..] == bs[1..] + [b];
      SlotsSnoc(bs[1..], b);
    }
  }

  /** Positions that continue each sequence make `batch_for` emit exactly the branches' segments. */
  lemma {:induction false} PlacedBranches(bs: seq<Branch>)
    ensures EnoughPlaces(Wanted(bs), Places(bs))
    ensures AllPlaced(Wanted(bs), Places(bs)) == KvCache.Slots(bs)
    decreases |bs|
  {
    if bs != [] {
      var n := |bs| - 1;
      var b := bs[n];
      PlacedBranches(bs[..n]);
      assert Wanted(bs)[..n] == Wanted(bs[..n]);
      SamePlaces(Wanted(bs)[..n], Places(bs), Places(bs[..n]));
      if b.toks != [] {
        forall k: nat | k < |b.toks| {
          SegmentSnoc(b.seqId, |b.past|, b.toks, k);
        }
        SegmentSnoc(b.seqId, |b.past|, b.toks, 0);
      }
      assert Placed(b.seqId, b.toks, Range(|b.past|, |b.toks|)) == Segment(b.seqId, |b.past|, b.toks);
      SlotsSnoc(bs[..n], b);
      assert bs[..n] + [b] == bs;
    }
  }

  lemma {:induction false} SamePlaces(w: seq<(int, seq<Token>)>, p: seq<seq<int>>, q: seq<seq<int>>)
    requires EnoughPlaces(w, p) && EnoughPlaces(w, q)
    requires forall i :: 0 <= i < |w| ==> p[i] == q[i]
    ensures AllPlaced(w, p) == AllPlaced(w, q)
    decreases |w|
  {
    if w != [] {
      SamePlaces(w[..|w| - 1], p, q);
    }
  }

  /** One batched decode over a set of branches, with all that refinement says about it. */
  method DecodeBranches(live: Session, wanted: seq<(int, seq<Token>)>, positions: seq<seq<int>>, ghost bs: seq<Branch>)
    returns (r: Result<seq<Row>, Stop>)
    requires wanted == Wanted(bs) && positions == Places(bs)
    requires Ready(live.net, live.cells, bs)
    modifies live`cells, live`decodeCalls
    ensures r.Success? <==> KvCache.Slots(bs) != []
    ensures r.Failure? ==> r.error == EmptyBatch
    ensures r.Failure? ==> live.cells == old(live.cells) && live.decodeCalls == old(live.decodeCalls)
    ensures r.Success? ==>
              && r.value == FreshRows(live.net, bs)
              && live.decodeCalls == old(live.decodeCalls) + 1
              && (forall i :: 0 <= i < |bs| ==> Holds(live.net, live.cells, bs[i].seqId, bs[i].past + bs[i].toks))
    ensures forall s :: (forall i :: 0 <= i < |bs| ==> bs[i].seqId != s) ==> View(live.cells, s) == View(old(live.cells), s)
  {
    PlacedBranches(bs);
    var batch := BatchFor(wanted, positions);
    if batch.Failure? {
      return Failure(batch.error);
    }
    BatchRun(live.net, live.cells, bs);
    var rows := live.Decode(batch.value);
    return Success(rows);
  }
}
