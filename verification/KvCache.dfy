/** The unified key/value cache of one context. */
module KvCache {
  // One cell holds one decoded token: its position, its token id and the hidden state that decoding it
  // produced, together with the set of sequence ids that may see the cell. `llama_memory_seq_cp` only adds
  // a sequence id to existing cells; nothing is recomputed. The hidden state of a new cell is a function of
  // what its sequence sees at that moment, so a wrong id, position or order would reach every later row of
  // that sequence.

  type Token = int
  type Hidden = seq<real>
  type Row = seq<real>

  datatype Entry = Entry(pos: int, token: Token, hidden: Hidden)

  datatype Cell = Cell(entry: Entry, seqs: set<int>)

  /** The loaded model: an unknown but deterministic network. `step` is one token's forward pass over
      the entries its sequence sees (in decode order, each with its position), `head` turns a hidden
      state into a full-vocabulary row, and `logprob` reads one token of a row. */
  datatype Net = Net(step: (seq<Entry>, Token, int) -> Hidden, head: Hidden -> Row, logprob: (Row, Token) -> real)

  /** One token of a decode batch. */
  datatype Slot = Slot(token: Token, seqId: int, pos: int, logits: bool)

  // ---------------------------------------------------------------- what a sequence sees

  function View(cells: seq<Cell>, s: int): seq<Entry> {
    if cells == [] then []
    else (if s in cells[0].seqs then [cells[0].entry] else []) + View(cells[1..], s)
  }

  /** The causal mask, and the position range of a fork: the entries before position `p`. */
  function Upto(es: seq<Entry>, p: int): seq<Entry> {
    if es == [] then []
    else (if es[0].pos < p then [es[0]] else []) + Upto(es[1..], p)
  }

  lemma Associates<T>(a: seq<T>, b: seq<T>, c: seq<T>)
    ensures a + (b + c) == (a + b) + c
  {
  }

  lemma {:induction false} ViewAppend(a: seq<Cell>, b: seq<Cell>, s: int)
    ensures View(a + b, s) == View(a, s) + View(b, s)
  {
    if a == [] {
      assert a + b == b;
    } else {
      ViewAppend(a[1..], b, s);
      assert (a + b)[1..] == a[1..] + b && (a + b)[0] == a[0];
      var first := if s in a[0].seqs then [a[0].entry] else [];
      assert View(a + b, s) == first + View(a[1..] + b, s);
      Associates(first, View(a[1..], s), View(b, s));
    }
  }

  lemma {:induction false} UptoAll(es: seq<Entry>, p: int)
    requires forall e :: e in es ==> e.pos < p
    ensures Upto(es, p) == es
  {
    if es != [] {
      UptoAll(es[1..], p);
    }
  }

  // ---------------------------------------------------------------- the three memory steps

  /** `llama_memory_seq_cp(mem, src, dst, 0, upto)`. */
  function Forked(cells: seq<Cell>, src: int, dst: int, upto: int): seq<Cell> {
    if cells == [] then []
    else
      var c := cells[0];
      [if src in c.seqs && c.entry.pos < upto then c.(seqs := c.seqs + {dst}) else c]
      + Forked(cells[1..], src, dst, upto)
  }

  /** `llama_memory_seq_rm(mem, s, -1, -1)`: a cell nobody sees any more is freed. */
  function Released(cells: seq<Cell>, s: int): seq<Cell> {
    if cells == [] then []
    else
      var left := cells[0].seqs - {s};
      (if left == {} then [] else [cells[0].(seqs := left)]) + Released(cells[1..], s)
  }

  /** One token of `llama_decode`: a new cell owned by one sequence. */
  function Put(net: Net, cells: seq<Cell>, slot: Slot): seq<Cell> {
    cells + [Cell(Entry(slot.pos, slot.token, HiddenAt(net, cells, slot)), {slot.seqId})]
  }

  function HiddenAt(net: Net, cells: seq<Cell>, slot: Slot): Hidden {
    net.step(Upto(View(cells, slot.seqId), slot.pos), slot.token, slot.pos)
  }

  function RunCells(net: Net, cells: seq<Cell>, slots: seq<Slot>): seq<Cell>
    decreases |slots|
  {
    if slots == [] then cells else RunCells(net, Put(net, cells, slots[0]), slots[1..])
  }

  /** The rows of one decode call: one per flagged slot, in batch order. */
  function RunRows(net: Net, cells: seq<Cell>, slots: seq<Slot>): seq<Row>
    decreases |slots|
  {
    if slots == [] then []
    else (if slots[0].logits then [net.head(HiddenAt(net, cells, slots[0]))] else [])
         + RunRows(net, Put(net, cells, slots[0]), slots[1..])
  }

  lemma {:induction false} RunAppend(net: Net, cells: seq<Cell>, a: seq<Slot>, b: seq<Slot>)
    ensures RunCells(net, cells, a + b) == RunCells(net, RunCells(net, cells, a), b)
    ensures RunRows(net, cells, a + b) == RunRows(net, cells, a) + RunRows(net, RunCells(net, cells, a), b)
    decreases |a|
  {
    if a == [] {
      assert a + b == b;
    } else {
      assert (a + b)[1..] == a[1..] + b;
      RunAppend(net, Put(net, cells, a[0]), a[1..], b);
    }
  }

  lemma {:induction false} ForkView(cells: seq<Cell>, src: int, dst: int, upto: int, s: int)
    ensures s != dst ==> View(Forked(cells, src, dst, upto), s) == View(cells, s)
    ensures src != dst && View(cells, dst) == [] ==>
              View(Forked(cells, src, dst, upto), dst) == Upto(View(cells, src), upto)
  {
    if cells != [] {
      ForkView(cells[1..], src, dst, upto, s);
      assert Forked(cells, src, dst, upto)[1..] == Forked(cells[1..], src, dst, upto);
      if View(cells, dst) == [] {
        assert dst !in cells[0].seqs && View(cells[1..], dst) == [];
        if src in cells[0].seqs {
          assert View(cells, src)[1..] == View(cells[1..], src);
        } else {
          assert View(cells, src) == View(cells[1..], src);
        }
      }
    }
  }

  lemma {:induction false} ReleaseView(cells: seq<Cell>, gone: int, s: int)
    ensures View(Released(cells, gone), s) == if s == gone then [] else View(cells, s)
  {
    if cells != [] {
      ReleaseView(cells[1..], gone, s);
      var left := cells[0].seqs - {gone};
      var head := if left == {} then [] else [cells[0].(seqs := left)];
      ViewAppend(head, Released(cells[1..], gone), s);
      if left != {} {
        assert View(head, s) == (if s in left then [cells[0].entry] else []) + View(head[1..], s);
      } else {
        assert s in cells[0].seqs ==> s == gone by { assert s in cells[0].seqs && s != gone ==> s in left; }
      }
    }
  }

  lemma PutView(net: Net, cells: seq<Cell>, slot: Slot, s: int)
    ensures View(Put(net, cells, slot), s)
         == if s == slot.seqId
            then View(cells, s) + [Entry(slot.pos, slot.token, HiddenAt(net, cells, slot))]
            else View(cells, s)
  {
    ViewAppend(cells, [Cell(Entry(slot.pos, slot.token, HiddenAt(net, cells, slot)), {slot.seqId})], s);
  }

  /** Branching is free: a fork adds no cell, so the unified cache holds a shared prefix once,
      however many sequences read it ... */
  lemma {:induction false} ForkCostsNoCell(cells: seq<Cell>, src: int, dst: int, upto: int)
    ensures |Forked(cells, src, dst, upto)| == |cells|
  {
    if cells != [] {
      ForkCostsNoCell(cells[1..], src, dst, upto);
    }
  }

  /** ... and a decode adds exactly one cell per token. */
  lemma {:induction false} DecodeCostsOneCellPerToken(net: Net, cells: seq<Cell>, slots: seq<Slot>)
    ensures |RunCells(net, cells, slots)| == |cells| + |slots|
    decreases |slots|
  {
    if slots != [] {
      DecodeCostsOneCellPerToken(net, Put(net, cells, slots[0]), slots[1..]);
    }
  }

  // ---------------------------------------------------------------- the independent reference

  /** What a fresh context with a single sequence holds after decoding `toks` from position 0: no
      sequence ids, no sharing, no batches. */
  function Fresh(net: Net, toks: seq<Token>): (es: seq<Entry>)
    ensures |es| == |toks|
    decreases |toks|
  {
    if toks == [] then []
    else
      var n := |toks| - 1;
      var before := Fresh(net, toks[..n]);
      before + [Entry(n, toks[n], net.step(before, toks[n], n))]
  }

  /** The row that context returns at its last token. */
  function FreshRow(net: Net, toks: seq<Token>): Row
    requires toks != []
  {
    net.head(Fresh(net, toks)[|toks| - 1].hidden)
  }

  /** Sequence `s` holds `toks` at the contiguous positions 0..|toks|-1, and every hidden state is the
      one a fresh context would have computed. */
  ghost predicate Holds(net: Net, cells: seq<Cell>, s: int, toks: seq<Token>) {
    View(cells, s) == Fresh(net, toks)
  }

  lemma {:induction false} FreshAt(net: Net, toks: seq<Token>, i: nat)
    requires i < |toks|
    ensures Fresh(net, toks)[i].pos == i && Fresh(net, toks)[i].token == toks[i]
    ensures Fresh(net, toks)[i].hidden == net.step(Fresh(net, toks)[..i], toks[i], i)
    ensures Fresh(net, toks)[..i + 1] == Fresh(net, toks[..i + 1])
    decreases |toks|
  {
    var n := |toks| - 1;
    if i == n {
      assert toks[..i + 1] == toks;
      assert Fresh(net, toks)[..i + 1] == Fresh(net, toks);
    } else {
      FreshAt(net, toks[..n], i);
      assert Fresh(net, toks)[..i] == Fresh(net, toks[..n])[..i];
      assert toks[..n][..i + 1] == toks[..i + 1];
      assert Fresh(net, toks)[..i + 1] == Fresh(net, toks[..n])[..i + 1];
    }
  }

  lemma FreshUpto(net: Net, toks: seq<Token>)
    ensures Upto(Fresh(net, toks), |toks|) == Fresh(net, toks)
  {
    forall i: nat | i < |toks| ensures Fresh(net, toks)[i].pos < |toks| {
      FreshAt(net, toks, i);
    }
    UptoAll(Fresh(net, toks), |toks|);
  }

  lemma FreshSnoc(net: Net, toks: seq<Token>, t: Token)
    ensures Fresh(net, toks + [t]) == Fresh(net, toks) + [Entry(|toks|, t, net.step(Fresh(net, toks), t, |toks|))]
  {
    assert (toks + [t])[..|toks|] == toks;
  }

  // ---------------------------------------------------------------- branches of one batch

  /** The slots `batch_for` emits for one `(sequence, tokens)` pair at consecutive positions. */
  function Segment(s: int, base: int, toks: seq<Token>): seq<Slot>
    decreases |toks|
  {
    if toks == [] then []
    else [Slot(toks[0], s, base, |toks| == 1)] + Segment(s, base + 1, toks[1..])
  }

  lemma {:induction false} SegmentSnoc(s: int, base: int, toks: seq<Token>, k: nat)
    requires k < |toks|
    ensures |Segment(s, base, toks)| == |toks|
    ensures Segment(s, base, toks)[k] == Slot(toks[k], s, base + k, k == |toks| - 1)
    decreases |toks|
  {
    if |toks| > 1 {
      SegmentSnoc(s, base + 1, toks[1..], if k == 0 then 0 else k - 1);
    }
  }

  /** One token decoded at the end of its sequence: the cache holds it as a fresh context would. */
  lemma PutHolds(net: Net, cells: seq<Cell>, past: seq<Token>, slot: Slot)
    requires Holds(net, cells, slot.seqId, past) && slot.pos == |past|
    ensures Holds(net, Put(net, cells, slot), slot.seqId, past + [slot.token])
    ensures forall r :: r != slot.seqId ==> View(Put(net, cells, slot), r) == View(cells, r)
    ensures net.head(HiddenAt(net, cells, slot)) == FreshRow(net, past + [slot.token])
  {
    hide View, Fresh, Put, Upto;
    FreshUpto(net, past);
    FreshSnoc(net, past, slot.token);
    forall r ensures r != slot.seqId ==> View(Put(net, cells, slot), r) == View(cells, r) {
      PutView(net, cells, slot, r);
    }
    PutView(net, cells, slot, slot.seqId);
  }

  /** Decoding a batch is decoding its first slot and then the rest. */
  lemma RunUnfold(net: Net, cells: seq<Cell>, slot: Slot, rest: seq<Slot>)
    ensures RunCells(net, cells, [slot] + rest) == RunCells(net, Put(net, cells, slot), rest)
    ensures RunRows(net, cells, [slot] + rest)
         == (if slot.logits then [net.head(HiddenAt(net, cells, slot))] else []) + RunRows(net, Put(net, cells, slot), rest)
  {
    hide View, Put, Upto, HiddenAt;
    assert ([slot] + rest)[1..] == rest;
  }

  /** Decoding one branch extends exactly one sequence, and its single row is the fresh one. */
  lemma {:induction false} SegmentRun(net: Net, cells: seq<Cell>, s: int, past: seq<Token>, toks: seq<Token>)
    requires Holds(net, cells, s, past)
    ensures Holds(net, RunCells(net, cells, Segment(s, |past|, toks)), s, past + toks)
    ensures forall r :: r != s ==> View(RunCells(net, cells, Segment(s, |past|, toks)), r) == View(cells, r)
    ensures RunRows(net, cells, Segment(s, |past|, toks))
         == if toks == [] then [] else [FreshRow(net, past + toks)]
    decreases |toks|
  {
    if toks == [] {
      assert past + toks == past;
    } else {
      hide *;
      var slot := Slot(toks[0], s, |past|, |toks| == 1);
      var next, rest := Put(net, cells, slot), toks[1..];
      PutHolds(net, cells, past, slot);
      assert past + [toks[0]] + rest == past + toks;
      SegmentRun(net, next, s, past + [toks[0]], rest);
      RunUnfold(net, cells, slot, Segment(s, |past| + 1, rest));
      if |toks| == 1 {
        assert past + [toks[0]] == past + toks;
      }
    }
  }

  /** One branch of a batch: which sequence, what it already holds, what it decodes now. */
  datatype Branch = Branch(seqId: int, past: seq<Token>, toks: seq<Token>)

  function Slots(bs: seq<Branch>): seq<Slot> {
    if bs == [] then [] else Segment(bs[0].seqId, |bs[0].past|, bs[0].toks) + Slots(bs[1..])
  }

  /** The rows independent contexts return for the branches that decode anything at all. */
  function FreshRows(net: Net, bs: seq<Branch>): seq<Row> {
    if bs == [] then []
    else (if bs[0].toks == [] then [] else [FreshRow(net, bs[0].past + bs[0].toks)]) + FreshRows(net, bs[1..])
  }

  ghost predicate Ready(net: Net, cells: seq<Cell>, bs: seq<Branch>) {
    && (forall i, j :: 0 <= i < j < |bs| ==> bs[i].seqId != bs[j].seqId)
    && (forall i :: 0 <= i < |bs| ==> Holds(net, cells, bs[i].seqId, bs[i].past))
  }

  lemma RunNothing(net: Net, cells: seq<Cell>)
    ensures RunRows(net, cells, []) == [] && RunCells(net, cells, []) == cells
  {
  }

  /** The central refinement: one batched decode over shared cells gives every branch the row its own
      fresh context gives, in branch order, and no branch changes what any other sequence sees. */
  lemma {:induction false} BatchRun(net: Net, cells: seq<Cell>, bs: seq<Branch>)
    requires Ready(net, cells, bs)
    ensures RunRows(net, cells, Slots(bs)) == FreshRows(net, bs)
    ensures var out := RunCells(net, cells, Slots(bs));
            && (forall i :: 0 <= i < |bs| ==> Holds(net, out, bs[i].seqId, bs[i].past + bs[i].toks))
            && (forall r :: (forall i :: 0 <= i < |bs| ==> bs[i].seqId != r) ==> View(out, r) == View(cells, r))
    decreases |bs|
  {
    hide View, Fresh, Put, FreshRow, Segment, RunCells, RunRows;
    assert RunRows(net, cells, []) == [] && RunCells(net, cells, []) == cells by {
      RunNothing(net, cells);
    }
    if bs != [] {
      var b, rest := bs[0], bs[1..];
      var seg := Segment(b.seqId, |b.past|, b.toks);
      var mid := RunCells(net, cells, seg);
      SegmentRun(net, cells, b.seqId, b.past, b.toks);
      RunAppend(net, cells, seg, Slots(rest));
      assert forall i :: 0 <= i < |rest| ==> rest[i] == bs[i + 1];
      BatchRun(net, mid, rest);
      var out := RunCells(net, cells, Slots(bs));
      assert View(out, b.seqId) == View(mid, b.seqId);
      forall r | forall i :: 0 <= i < |bs| ==> bs[i].seqId != r ensures View(out, r) == View(cells, r) {
        assert bs[0].seqId != r;
      }
    }
  }

  lemma {:induction false} FreshRowsAt(net: Net, bs: seq<Branch>, k: nat)
    requires forall i :: 0 <= i < |bs| ==> bs[i].toks != []
    requires k < |bs|
    ensures |FreshRows(net, bs)| == |bs|
    ensures FreshRows(net, bs)[k] == FreshRow(net, bs[k].past + bs[k].toks)
    decreases |bs|
  {
    if |bs| > 1 {
      FreshRowsAt(net, bs[1..], if k == 0 then 0 else k - 1);
    }
  }

  /** The caller's strict zip over branches and rows fails exactly when some branch is empty. */
  lemma {:induction false} FreshRowsCount(net: Net, bs: seq<Branch>)
    ensures |FreshRows(net, bs)| <= |bs|
    ensures |FreshRows(net, bs)| == |bs| <==> forall i :: 0 <= i < |bs| ==> bs[i].toks != []
    decreases |bs|
  {
    if bs != [] {
      FreshRowsCount(net, bs[1..]);
      assert forall i :: 0 <= i < |bs[1..]| ==> bs[1..][i] == bs[i + 1];
      if forall i :: 0 <= i < |bs[1..]| ==> bs[1..][i].toks != [] {
        if bs[0].toks != [] {
          assert forall i :: 0 <= i < |bs| ==> i == 0 || bs[i] == bs[1..][i - 1];
        }
      }
    }
  }
}
