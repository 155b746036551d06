/** One step of the heads forked from a prefix. */
module Heads {
  // Sequence 0 holds the shared prefix, the sequences 1..n the heads forked from it; a step moves some of
  // the heads by one token in one decode.

  import opened KvCache
  import opened Sessions
  import opened Wrappers

  /** Sequence 0 holds the prefix and sequence k+1 holds the k-th text. */
  ghost predicate TextsHeld(net: Net, cells: seq<Cell>, prefix: seq<Token>, texts: seq<seq<Token>>) {
    && Holds(net, cells, 0, prefix)
    && (forall k :: 0 <= k < |texts| ==> Holds(net, cells, k + 1, texts[k]))
  }

  function Tail(add: Option<Token>): seq<Token> {
    if add.Some? then [add.value] else []
  }

  /** The texts after every head with a token to add has decoded it. */
  ghost function Stepped(texts: seq<seq<Token>>, add: seq<Option<Token>>): (after: seq<seq<Token>>)
    requires |add| == |texts|
    ensures |after| == |texts|
  {
    seq(|texts|, k requires 0 <= k < |texts| => texts[k] + Tail(add[k]))
  }

  /** One row per moved head, the one a fresh context gives at the end of its new text. */
  ghost predicate RowsRead(net: Net, texts: seq<seq<Token>>, add: seq<Option<Token>>, rows: seq<Option<Row>>)
    requires |add| == |texts|
  {
    && |rows| == |add|
    && forall k :: 0 <= k < |add| ==>
         rows[k] == if add[k].Some? then Some(FreshRow(net, texts[k] + [add[k].value])) else None
  }

  /** The indices that move, in order. */
  ghost predicate Moving(add: seq<Option<Token>>, moving: seq<nat>) {
    && (forall j :: 0 <= j < |moving| ==> moving[j] < |add| && add[moving[j]].Some?)
    && (forall i, j :: 0 <= i < j < |moving| ==> moving[i] < moving[j])
    && (forall k :: 0 <= k < |add| && add[k].Some? ==> k in moving)
  }

  method CollectMoving(add: seq<Option<Token>>) returns (moving: seq<nat>)
    ensures Moving(add, moving)
  {
    moving := [];
    for k := 0 to |add|
      invariant forall j :: 0 <= j < |moving| ==> moving[j] < k && add[moving[j]].Some?
      invariant forall i, j :: 0 <= i < j < |moving| ==> moving[i] < moving[j]
      invariant forall i :: 0 <= i < k && add[i].Some? ==> i in moving
    {
      if add[k].Some? {
        moving := moving + [k];
      }
    }
  }

  ghost function StepBranches(texts: seq<seq<Token>>, add: seq<Option<Token>>, moving: seq<nat>): (bs: seq<Branch>)
    requires |add| == |texts| && forall j :: 0 <= j < |moving| ==> moving[j] < |add|
    ensures |bs| == |moving|
  {
    seq(|moving|, j requires 0 <= j < |moving| => Branch(moving[j] + 1, texts[moving[j]], Tail(add[moving[j]])))
  }

  function StepWanted(add: seq<Option<Token>>, moving: seq<nat>): seq<(int, seq<Token>)>
    requires forall j :: 0 <= j < |moving| ==> moving[j] < |add|
  {
    seq(|moving|, j requires 0 <= j < |moving| => (moving[j] + 1, Tail(add[moving[j]])))
  }

  function StepPlaces(ends: seq<int>, moving: seq<nat>): seq<seq<int>>
    requires forall j :: 0 <= j < |moving| ==> moving[j] < |ends|
  {
    seq(|moving|, j requires 0 <= j < |moving| => [ends[moving[j]]])
  }

  lemma StepPlan(net: Net, cells: seq<Cell>, prefix: seq<Token>, texts: seq<seq<Token>>, ends: seq<int>,
                 add: seq<Option<Token>>, moving: seq<nat>)
    requires |ends| == |add| == |texts| && Moving(add, moving)
    requires forall k :: 0 <= k < |ends| ==> ends[k] == |texts[k]|
    requires TextsHeld(net, cells, prefix, texts)
    ensures var bs := StepBranches(texts, add, moving);
            && StepWanted(add, moving) == Wanted(bs) && StepPlaces(ends, moving) == Places(bs)
            && Ready(net, cells, bs)
  {
    hide View, Fresh;
    var bs := StepBranches(texts, add, moving);
    forall j | 0 <= j < |bs|
      ensures Places(bs)[j] == [ends[moving[j]]] && Holds(net, cells, bs[j].seqId, bs[j].past)
    {
      assert |bs[j].toks| == 1;
      assert texts[moving[j]] == bs[j].past;
    }
  }

  lemma StepRows(net: Net, texts: seq<seq<Token>>, add: seq<Option<Token>>, moving: seq<nat>)
    requires |add| == |texts| && Moving(add, moving)
    ensures var rows := FreshRows(net, StepBranches(texts, add, moving));
            && |rows| == |moving|
            && forall j :: 0 <= j < |moving| ==> rows[j] == FreshRow(net, texts[moving[j]] + [add[moving[j]].value])
    ensures moving != [] ==> Slots(StepBranches(texts, add, moving)) != []
  {
    var bs := StepBranches(texts, add, moving);
    FreshRowsCount(net, bs);
    forall j: nat | j < |moving|
      ensures FreshRows(net, bs)[j] == FreshRow(net, texts[moving[j]] + [add[moving[j]].value])
    {
      FreshRowsAt(net, bs, j);
    }
    if moving != [] {
      SegmentSnoc(bs[0].seqId, |bs[0].past|, bs[0].toks, 0);
    }
  }

  /** A head with a token to add is one of the step's branches; the others are on no branch at all. */
  lemma BranchOfHead(texts: seq<seq<Token>>, add: seq<Option<Token>>, moving: seq<nat>, k: nat)
    requires k < |add| == |texts| && Moving(add, moving)
    ensures var bs := StepBranches(texts, add, moving);
            && (add[k].Some? ==>
                  exists j :: 0 <= j < |bs| && bs[j].seqId == k + 1 && bs[j].past + bs[j].toks == Stepped(texts, add)[k])
            && (add[k].None? ==>
                  Stepped(texts, add)[k] == texts[k] && forall j :: 0 <= j < |bs| ==> bs[j].seqId != k + 1)
  {
    var bs := StepBranches(texts, add, moving);
    if add[k].Some? {
      var j :| 0 <= j < |moving| && moving[j] == k;
      assert bs[j].seqId == k + 1 && bs[j].past + bs[j].toks == Stepped(texts, add)[k];
    } else {
      assert texts[k] + Tail(add[k]) == texts[k];
    }
  }

  lemma StepHead(net: Net, cells: seq<Cell>, after: seq<Cell>, prefix: seq<Token>, texts: seq<seq<Token>>,
                 add: seq<Option<Token>>, moving: seq<nat>, k: nat)
    requires k < |add| == |texts| && Moving(add, moving)
    requires TextsHeld(net, cells, prefix, texts)
    requires var bs := StepBranches(texts, add, moving);
             && (forall i :: 0 <= i < |bs| ==> Holds(net, after, bs[i].seqId, bs[i].past + bs[i].toks))
             && (forall s :: (forall i :: 0 <= i < |bs| ==> bs[i].seqId != s) ==> View(after, s) == View(cells, s))
    ensures Holds(net, after, k + 1, Stepped(texts, add)[k])
  {
    hide View, Fresh, StepBranches, Stepped, Moving;
    BranchOfHead(texts, add, moving, k);
    if add[k].None? {
      assert View(after, k + 1) == View(cells, k + 1);
    } else {
      hide Holds, TextsHeld;
    }
  }

  lemma StepDone(net: Net, cells: seq<Cell>, after: seq<Cell>, prefix: seq<Token>, texts: seq<seq<Token>>,
                 add: seq<Option<Token>>, moving: seq<nat>)
    requires |add| == |texts| && Moving(add, moving)
    requires TextsHeld(net, cells, prefix, texts)
    requires var bs := StepBranches(texts, add, moving);
             && (forall i :: 0 <= i < |bs| ==> Holds(net, after, bs[i].seqId, bs[i].past + bs[i].toks))
             && (forall s :: (forall i :: 0 <= i < |bs| ==> bs[i].seqId != s) ==> View(after, s) == View(cells, s))
    ensures TextsHeld(net, after, prefix, Stepped(texts, add))
    ensures forall s :: s <= 0 || s > |texts| ==> View(after, s) == View(cells, s)
  {
    hide View, Fresh, Stepped;
    var bs := StepBranches(texts, add, moving);
    forall k: nat | k < |add| ensures Holds(net, after, k + 1, Stepped(texts, add)[k]) {
      StepHead(net, cells, after, prefix, texts, add, moving, k);
    }
    forall s | s <= 0 || s > |texts| ensures View(after, s) == View(cells, s) {
      assert forall i :: 0 <= i < |bs| ==> bs[i].seqId != s;
    }
  }

  method SpreadRows(add: seq<Option<Token>>, moving: seq<nat>, rows: seq<Row>) returns (spread: seq<Option<Row>>)
    requires Moving(add, moving) && |rows| == |moving|
    ensures |spread| == |add|
    ensures forall j :: 0 <= j < |moving| ==> spread[moving[j]] == Some(rows[j])
    ensures forall k :: 0 <= k < |add| && add[k].None? ==> spread[k] == None
  {
    spread := seq(|add|, _ => None);
    for j := 0 to |moving|
      invariant |spread| == |add|
      invariant forall i :: 0 <= i < j ==> spread[moving[i]] == Some(rows[i])
      invariant forall k :: 0 <= k < |add| && add[k].None? ==> spread[k] == None
    {
      spread := spread[moving[j] := Some(rows[j])];
    }
  }

  /** One batched decode of the given tokens, each at the end of its own head; no decode when no head moves. */
  method StepHeads(live: Session, ends: seq<int>, add: seq<Option<Token>>, ghost prefix: seq<Token>, ghost texts: seq<seq<Token>>)
    returns (rows: seq<Option<Row>>)
    requires |ends| == |add| == |texts| && forall k :: 0 <= k < |ends| ==> ends[k] == |texts[k]|
    requires TextsHeld(live.net, live.cells, prefix, texts)
    modifies live`cells, live`decodeCalls
    ensures RowsRead(live.net, texts, add, rows)
    ensures TextsHeld(live.net, live.cells, prefix, Stepped(texts, add))
    ensures forall s :: s <= 0 || s > |texts| ==> View(live.cells, s) == View(old(live.cells), s)
    ensures live.decodeCalls == old(live.decodeCalls) + if exists k :: 0 <= k < |add| && add[k].Some? then 1 else 0
  {
    hide View, Fresh, TextsHeld, FreshRow, FreshRows, Holds, Ready, KvCache.Slots;
    var moving := CollectMoving(add);
    ghost var start := live.cells;
    ghost var bs := StepBranches(texts, add, moving);
    StepPlan(live.net, start, prefix, texts, ends, add, moving);
    StepRows(live.net, texts, add, moving);
    if moving == [] {
      rows := seq(|add|, _ => None);
      forall k | 0 <= k < |texts| ensures Stepped(texts, add)[k] == texts[k] {
        assert texts[k] + [] == texts[k];
      }
      assert Stepped(texts, add) == texts;
      return;
    }
    assert add[moving[0]].Some?;
    hide StepBranches, Wanted, Places;
    var got := DecodeBranches(live, StepWanted(add, moving), StepPlaces(ends, moving), bs);
    StepDone(live.net, start, live.cells, prefix, texts, add, moving);
    rows := SpreadRows(add, moving, got.value);
  }
}
