/** The ranked readout over shared prefixes. */
module Trie {
  // Sequence log-probabilities for every candidate, each shared prefix decoded once on a forked sequence.

  import opened KvCache
  import opened Sequences
  import opened Sessions
  import opened Wrappers

  type Path = seq<Token>

  // ---------------------------------------------------------------- the plan

  /** The prefixes of length `level` that some longer path passes through. */
  ghost function LevelSet(paths: seq<Path>, level: nat): set<Path> {
    set p | p in paths && |p| > level :: p[..level]
  }

  ghost function PathSet(paths: seq<Path>): set<Path> {
    set q | q in paths
  }

  function Widest(paths: seq<Path>): (w: nat)
    ensures forall p :: p in paths ==> |p| <= w
  {
    if paths == [] then 0
    else
      var w, n := Widest(paths[1..]), |paths[0]|;
      if n > w then n else w
  }

  /** How many sequences the levels below `n` need. */
  ghost function Nodes(paths: seq<Path>, n: nat): nat {
    if n <= 1 then 0 else Nodes(paths, n - 1) + |LevelSet(paths, n - 1)|
  }

  /** `children` lists the elements of `found`, each once. */
  ghost predicate Lists(children: seq<Path>, found: set<Path>) {
    && (forall i, j :: 0 <= i < j < |children| ==> children[i] != children[j])
    && (forall c :: c in children <==> c in found)
    && |children| == |found|
  }

  lemma ListsSnoc(children: seq<Path>, found: set<Path>, c: Path)
    requires Lists(children, found) && c !in children
    ensures Lists(children + [c], found + {c})
  {
  }

  /** The order of tuples: token by token. */
  predicate PathBefore(a: Path, b: Path) {
    a == [] || (b != [] && (a[0] < b[0] || (a[0] == b[0] && PathBefore(a[1..], b[1..]))))
  }

  /** One path comes before another where it is its beginning or has the lesser token at the first difference. */
  lemma {:induction false} PathBeforeMeans(a: Path, b: Path)
    ensures PathBefore(a, b) <==>
            a <= b || exists k :: 0 <= k < |a| && k < |b| && a[..k] == b[..k] && a[k] < b[k]
  {
    if a != [] && b != [] && a[0] == b[0] {
      PathBeforeMeans(a[1..], b[1..]);
      assert a == [a[0]] + a[1..] && b == [b[0]] + b[1..];
      if k :| 0 <= k < |a[1..]| && k < |b[1..]| && a[1..][..k] == b[1..][..k] && a[1..][k] < b[1..][k] {
        assert a[..k + 1] == [a[0]] + a[1..][..k] && b[..k + 1] == [b[0]] + b[1..][..k];
      }
      if k :| 0 <= k < |a| && k < |b| && a[..k] == b[..k] && a[k] < b[k] {
        assert k > 0 && a[1..][..k - 1] == a[..k][1..] && b[1..][..k - 1] == b[..k][1..];
      }
    } else if a != [] && b != [] {
      forall k | 0 < k <= |a| && k <= |b| ensures a[..k] != b[..k] {
        assert a[..k][0] == a[0] && b[..k][0] == b[0];
      }
      assert a[..0] == b[..0];
    }
  }

  lemma {:induction false} PathTotal(a: Path, b: Path)
    ensures PathBefore(a, b) || PathBefore(b, a)
  {
    if a != [] && b != [] {
      PathTotal(a[1..], b[1..]);
    }
  }

  lemma {:induction false} PathTransitive(a: Path, b: Path, c: Path)
    requires PathBefore(a, b) && PathBefore(b, c)
    ensures PathBefore(a, c)
  {
    if a != [] && a[0] == b[0] == c[0] {
      PathTransitive(a[1..], b[1..], c[1..]);
    }
  }

  /** The distinct prefixes of one level, sorted. */
  ghost predicate IsLevel(children: seq<Path>, paths: seq<Path>, level: nat) {
    Lists(children, LevelSet(paths, level)) && Ordered(PathBefore, children)
  }

  lemma ListsRearranged(a: seq<Path>, b: seq<Path>, found: set<Path>)
    requires Lists(a, found) && |a| == |b| && multiset(a) == multiset(b)
    ensures Lists(b, found)
  {
    forall p ensures multiset(b)[p] <= 1 {
      DistinctCounts(a, p);
    }
    CountsDistinct(b);
    assert forall p :: p in b <==> p in multiset(b);
    assert forall p :: p in a <==> p in multiset(a);
  }

  /** One level of the trie: the prefixes found, once each, sorted. */
  method TrieLevel(paths: seq<Path>, level: nat) returns (children: seq<Path>)
    ensures IsLevel(children, paths, level)
  {
    var found := FoundPrefixes(paths, level);
    children := Sort(PathBefore, found);
    forall i, j | 0 <= i < j < |found| ensures PathBefore(found[i], found[j]) || PathBefore(found[j], found[i]) {
      PathTotal(found[i], found[j]);
    }
    forall a, b, c | PathBefore(a, b) && PathBefore(b, c) ensures PathBefore(a, c) {
      PathTransitive(a, b, c);
    }
    hide PathBefore, Lists, LevelSet, Ordered, Sort;
    SortOrdered(PathBefore, found);
    ListsRearranged(found, children, LevelSet(paths, level));
  }

  method FoundPrefixes(paths: seq<Path>, level: nat) returns (children: seq<Path>)
    ensures Lists(children, LevelSet(paths, level))
  {
    children := [];
    ghost var found: set<Path> := {};
    assert found == LevelSet(paths[..0], level);
    hide LevelSet, Lists;
    assert Lists([], {}) by {
    }
    for i := 0 to |paths|
      invariant found == LevelSet(paths[..i], level) && Lists(children, found)
    {
      var p := paths[i];
      assert paths[..i + 1] == paths[..i] + [p];
      if |p| > level {
        var child := p[..level];
        if child !in children {
          ListsSnoc(children, found, child);
          children := children + [child];
        } else {
          ListsMember(children, found, child);
        }
        found := found + {child};
      }
    }
    assert paths[..|paths|] == paths;
  }

  lemma ListsMember(children: seq<Path>, found: set<Path>, c: Path)
    requires Lists(children, found) && c in children
    ensures found + {c} == found
  {
  }

  method TrieNodes(paths: seq<Path>) returns (total: nat)
    ensures total == Nodes(paths, Widest(paths))
  {
    total := 0;
    var widest := Widest(paths);
    var level := 1;
    while level < widest
      invariant level == 1 || level <= widest
      invariant total == Nodes(paths, level)
    {
      var children := TrieLevel(paths, level);
      total := total + |children|;
      level := level + 1;
    }
  }

  // ---------------------------------------------------------------- the reference scores

  /** How often a path occurs in a list of paths. */
  function Tally(paths: seq<Path>, q: Path): nat {
    if paths == [] then 0
    else Tally(paths[..|paths| - 1], q) + if paths[|paths| - 1] == q then 1 else 0
  }

  /** Path `q`'s token k, read from the fresh row after `head + q[..k]`. */
  function FreshLogprob(net: Net, head: seq<Token>, q: Path, k: nat): real
    requires k < |q| && head + q[..k] != []
  {
    net.logprob(FreshRow(net, head + q[..k]), q[k])
  }

  /** The log-probabilities of q's tokens 1..n, each repeated `m` times. */
  function Scores(net: Net, head: seq<Token>, q: Path, m: nat, n: nat): (s: seq<real>)
    requires n == 0 || n < |q|
    ensures |s| == m * n
  {
    if n == 0 then []
    else Scores(net, head, q, m, n - 1) + seq(m, _ => FreshLogprob(net, head, q, n))
  }

  function Depth(q: Path): nat {
    if q == [] then 0 else |q| - 1
  }

  lemma {:induction false} ScoresAt(net: Net, head: seq<Token>, q: Path, n: nat, k: nat)
    requires k < n < |q|
    ensures Scores(net, head, q, 1, n)[k] == FreshLogprob(net, head, q, k + 1)
  {
    if k < n - 1 {
      ScoresAt(net, head, q, n - 1, k);
    }
  }

  // ---------------------------------------------------------------- the shared-prefix decode

  /** Unused sequences. */
  ghost predicate Unused(cells: seq<Cell>, ids: seq<int>) {
    forall s :: s in ids ==> View(cells, s) == []
  }

  /** Every registered node of the trie lives on a sequence that holds the head and then the node. */
  ghost predicate NodesHold(net: Net, cells: seq<Cell>, head: seq<Token>, nodes: map<Path, int>) {
    forall n :: n in nodes ==> Holds(net, cells, nodes[n], head + n)
  }

  /** No registered node lives on one of these sequences. */
  ghost predicate Apart(nodes: map<Path, int>, ids: seq<int>) {
    forall n :: n in nodes ==> nodes[n] !in ids
  }

  predicate NonEmpty(children: seq<Path>) {
    forall i :: 0 <= i < |children| ==> children[i] != []
  }

  function Above(child: Path): Path
    requires child != []
  {
    child[..|child| - 1]
  }

  function Last(child: Path): Token
    requires child != []
  {
    child[|child| - 1]
  }

  /** The children of one level: not empty, with a registered node one level up. */
  ghost predicate Parents(children: seq<Path>, nodes: map<Path, int>) {
    forall i :: 0 <= i < |children| ==> children[i] != [] && Above(children[i]) in nodes
  }

  ghost function LevelBranch(head: seq<Token>, child: Path, id: int): Branch
    requires child != []
  {
    Branch(id, head + Above(child), [Last(child)])
  }

  /** The branches of one trie level, one per child. */
  ghost function LevelBranches(head: seq<Token>, children: seq<Path>, ids: seq<int>): (bs: seq<Branch>)
    requires |ids| == |children| && NonEmpty(children)
    ensures |bs| == |children|
  {
    seq(|children|, k requires 0 <= k < |children| => LevelBranch(head, children[k], ids[k]))
  }

  /** After `k` forks of a level: the first k children's sequences hold their parents, every other
      sequence is as it was. */
  ghost predicate ForkedTo(net: Net, start: seq<Cell>, now: seq<Cell>, head: seq<Token>, children: seq<Path>,
                           ids: seq<int>, k: nat)
    requires |ids| == |children| && k <= |children| && NonEmpty(children)
  {
    && (forall i :: 0 <= i < k ==> Holds(net, now, ids[i], head + Above(children[i])))
    && (forall s :: s !in ids[..k] ==> View(now, s) == View(start, s))
  }

  lemma ForkStep(net: Net, start: seq<Cell>, now: seq<Cell>, head: seq<Token>, children: seq<Path>, ids: seq<int>,
                 parent: int, k: nat)
    requires k < |ids| == |children| && AllDistinct(ids) && NonEmpty(children)
    requires parent !in ids && Holds(net, start, parent, head + Above(children[k]))
    requires View(start, ids[k]) == []
    requires ForkedTo(net, start, now, head, children, ids, k)
    ensures ForkedTo(net, start, Forked(now, parent, ids[k], |head| + |children[k]| - 1), head, children, ids, k + 1)
  {
    hide View, Fresh, Forked, Upto;
    var s, upto := ids[k], |head| + |children[k]| - 1;
    var next := Forked(now, parent, s, upto);
    assert ids[..k + 1] == ids[..k] + [s];
    assert s !in ids[..k] && parent !in ids[..k];
    FreshUpto(net, head + Above(children[k]));
    ForkView(now, parent, s, upto, s);
    forall r ensures r != s ==> View(next, r) == View(now, r) {
      ForkView(now, parent, s, upto, r);
    }
  }

  lemma ForkNone(net: Net, start: seq<Cell>, head: seq<Token>, children: seq<Path>, ids: seq<int>)
    requires |ids| == |children| && NonEmpty(children)
    ensures ForkedTo(net, start, start, head, children, ids, 0)
  {
  }

  /** The batch of one level: each child's last token, on its own sequence, at the position after its parent. */
  function LevelWanted(children: seq<Path>, ids: seq<int>): seq<(int, seq<Token>)>
    requires |ids| == |children| && NonEmpty(children)
  {
    seq(|children|, k requires 0 <= k < |children| => (ids[k], [Last(children[k])]))
  }

  function LevelPlaces(children: seq<Path>, base: int): seq<seq<int>> {
    seq(|children|, k requires 0 <= k < |children| => [base + |children[k]| - 1])
  }

  lemma LevelPlan(head: seq<Token>, children: seq<Path>, ids: seq<int>)
    requires |ids| == |children| && NonEmpty(children)
    ensures Wanted(LevelBranches(head, children, ids)) == LevelWanted(children, ids)
    ensures Places(LevelBranches(head, children, ids)) == LevelPlaces(children, |head|)
  {
    var bs := LevelBranches(head, children, ids);
    forall k | 0 <= k < |children| ensures Places(bs)[k] == [|head| + |children[k]| - 1] {
      assert |bs[k].past| == |head| + |children[k]| - 1 && |bs[k].toks| == 1;
    }
  }

  lemma ParentAt(net: Net, start: seq<Cell>, head: seq<Token>, children: seq<Path>, nodes: map<Path, int>,
                 ids: seq<int>, k: nat)
    requires k < |children| == |ids| && Parents(children, nodes) && NodesHold(net, start, head, nodes)
    requires Unused(start, ids) && Apart(nodes, ids)
    ensures children[k] != [] && Above(children[k]) in nodes && nodes[Above(children[k])] !in ids
    ensures Holds(net, start, nodes[Above(children[k])], head + Above(children[k]))
    ensures View(start, ids[k]) == []
  {
    hide View, Fresh;
  }

  lemma ParentsNonEmpty(children: seq<Path>, nodes: map<Path, int>)
    requires Parents(children, nodes)
    ensures NonEmpty(children)
  {
  }

  /** Forking child k off its parent's sequence extends the forked part of the level by one. */
  lemma ForkChild(net: Net, start: seq<Cell>, now: seq<Cell>, head: seq<Token>, children: seq<Path>,
                  nodes: map<Path, int>, ids: seq<int>, k: nat)
    requires k < |children| == |ids| && NonEmpty(children)
    requires Parents(children, nodes) && NodesHold(net, start, head, nodes)
    requires AllDistinct(ids) && Unused(start, ids) && Apart(nodes, ids)
    requires ForkedTo(net, start, now, head, children, ids, k)
    ensures children[k] != [] && Above(children[k]) in nodes
    ensures ForkedTo(net, start, Forked(now, nodes[Above(children[k])], ids[k], |head| + |children[k]| - 1),
                     head, children, ids, k + 1)
  {
    hide *;
    ParentAt(net, start, head, children, nodes, ids, k);
    ForkStep(net, start, now, head, children, ids, nodes[Above(children[k])], k);
  }

  method ForkLevel(live: Session, children: seq<Path>, nodes: map<Path, int>, ids: seq<int>, base: int,
                   ghost head: seq<Token>)
    returns (wanted: seq<(int, seq<Token>)>, positions: seq<seq<int>>)
    requires base == |head| && |ids| == |children|
    requires Parents(children, nodes) && NodesHold(live.net, live.cells, head, nodes)
    requires AllDistinct(ids) && Unused(live.cells, ids) && Apart(nodes, ids)
    modifies live`cells
    ensures wanted == Wanted(LevelBranches(head, children, ids))
    ensures positions == Places(LevelBranches(head, children, ids))
    ensures ForkedTo(live.net, old(live.cells), live.cells, head, children, ids, |children|)
  {
    hide *;
    ParentsNonEmpty(children, nodes);
    wanted, positions := LevelWanted(children, ids), LevelPlaces(children, base);
    LevelPlan(head, children, ids);
    ghost var start := live.cells;
    ForkNone(live.net, start, head, children, ids);
    for k := 0 to |children|
      invariant ForkedTo(live.net, start, live.cells, head, children, ids, k)
    {
      ForkChild(live.net, start, live.cells, head, children, nodes, ids, k);
      live.Fork(nodes[Above(children[k])], ids[k], base + |children[k]| - 1);
    }
  }

  lemma LevelReady(net: Net, start: seq<Cell>, now: seq<Cell>, head: seq<Token>, children: seq<Path>, ids: seq<int>)
    requires |ids| == |children| && NonEmpty(children) && AllDistinct(ids)
    requires ForkedTo(net, start, now, head, children, ids, |children|)
    ensures Ready(net, now, LevelBranches(head, children, ids))
  {
    hide View, Fresh;
  }

  /** The k-th row of a level is the fresh row at the end of the k-th child. */
  lemma LevelRows(net: Net, head: seq<Token>, children: seq<Path>, ids: seq<int>)
    requires |ids| == |children| && NonEmpty(children)
    ensures var bs := LevelBranches(head, children, ids);
            && |FreshRows(net, bs)| == |children|
            && (children != [] ==> KvCache.Slots(bs) != [])
            && forall k :: 0 <= k < |children| ==>
                 && bs[k].seqId == ids[k] && bs[k].past + bs[k].toks == head + children[k]
                 && FreshRows(net, bs)[k] == FreshRow(net, head + children[k])
  {
    var bs := LevelBranches(head, children, ids);
    forall k | 0 <= k < |children|
      ensures bs[k].past + bs[k].toks == head + children[k]
    {
      assert Above(children[k]) + [Last(children[k])] == children[k];
    }
    FreshRowsCount(net, bs);
    forall k: nat | k < |children| ensures FreshRows(net, bs)[k] == FreshRow(net, head + children[k]) {
      FreshRowsAt(net, bs, k);
    }
    if children != [] {
      assert |Segment(bs[0].seqId, |bs[0].past|, bs[0].toks)| == 1;
    }
  }

  /** One level of the trie: fork every child off its parent, decode all children in one batch. */
  method ScoreLevel(live: Session, children: seq<Path>, nodes: map<Path, int>, ids: seq<int>, base: int,
                    ghost head: seq<Token>)
    returns (rows: seq<Row>)
    requires base == |head| && |ids| == |children| > 0
    requires Parents(children, nodes) && NodesHold(live.net, live.cells, head, nodes)
    requires AllDistinct(ids) && Unused(live.cells, ids) && Apart(nodes, ids)
    modifies live`cells, live`decodeCalls
    ensures |rows| == |children|
    ensures forall k :: 0 <= k < |children| ==> children[k] != [] && rows[k] == FreshRow(live.net, head + children[k])
    ensures forall k :: 0 <= k < |children| ==> Holds(live.net, live.cells, ids[k], head + children[k])
    ensures forall s :: s !in ids ==> View(live.cells, s) == View(old(live.cells), s)
    ensures live.decodeCalls == old(live.decodeCalls) + 1
  {
    hide *;
    ParentsNonEmpty(children, nodes);
    ghost var start := live.cells;
    var wanted, positions := ForkLevel(live, children, nodes, ids, base, head);
    ghost var bs := LevelBranches(head, children, ids);
    ghost var mid := live.cells;
    LevelReady(live.net, start, mid, head, children, ids);
    LevelRows(live.net, head, children, ids);
    LevelLeaves(live.net, start, mid, head, children, ids);
    NonEmptyMeans(children);
    var r := DecodeBranches(live, wanted, positions, bs);
    rows := r.value;
    OthersUntouched(live.cells, mid, bs, ids);
    forall k | 0 <= k < |children| ensures Holds(live.net, live.cells, ids[k], head + children[k]) {
      assert bs[k].seqId == ids[k];
    }
  }

  lemma NonEmptyMeans(children: seq<Path>)
    requires NonEmpty(children)
    ensures forall k :: 0 <= k < |children| ==> children[k] != []
  {
  }

  lemma LevelLeaves(net: Net, start: seq<Cell>, now: seq<Cell>, head: seq<Token>, children: seq<Path>, ids: seq<int>)
    requires |ids| == |children| && NonEmpty(children) && ForkedTo(net, start, now, head, children, ids, |children|)
    ensures forall s :: s !in ids ==> View(now, s) == View(start, s)
  {
    hide View, Fresh;
    assert ids[..|children|] == ids;
  }

  lemma OthersUntouched(now: seq<Cell>, before: seq<Cell>, bs: seq<Branch>, ids: seq<int>)
    requires |bs| == |ids| && forall k :: 0 <= k < |bs| ==> bs[k].seqId == ids[k]
    requires forall s :: (forall i :: 0 <= i < |bs| ==> bs[i].seqId != s) ==> View(now, s) == View(before, s)
    ensures forall s :: s !in ids ==> View(now, s) == View(before, s)
  {
    hide View;
    forall s | s !in ids ensures View(now, s) == View(before, s) {
      forall i | 0 <= i < |bs| ensures bs[i].seqId != s {
        assert bs[i].seqId == ids[i];
      }
    }
  }

  /** `dict(zip(children, rows, strict=True))`. */
  method ZipRows(children: seq<Path>, rows: seq<Row>) returns (byChild: map<Path, Row>)
    requires |rows| == |children|
    requires forall i, j :: 0 <= i < j < |children| ==> children[i] != children[j]
    ensures forall k :: 0 <= k < |children| ==> children[k] in byChild && byChild[children[k]] == rows[k]
  {
    byChild := map[];
    for k := 0 to |children|
      invariant forall i :: 0 <= i < k ==> children[i] in byChild && byChild[children[i]] == rows[i]
    {
      byChild := byChild[children[k] := rows[k]];
    }
  }

  // ---------------------------------------------------------------- accumulating the scores

  function Min(a: nat, b: nat): nat {
    if a <= b then a else b
  }

  /** After `n` levels every path carries its first n log-probabilities (all of them, if it is shorter),
      each as often as the path was listed. */
  ghost predicate Scored(net: Net, head: seq<Token>, paths: seq<Path>, results: map<Path, seq<real>>, n: nat) {
    && results.Keys == PathSet(paths)
    && forall q :: q in results ==> results[q] == Scores(net, head, q, Tally(paths, q), Min(n, Depth(q)))
  }

  ghost predicate RowsFor(net: Net, head: seq<Token>, paths: seq<Path>, byChild: map<Path, Row>, level: nat) {
    forall q :: q in paths && |q| > level >= 1 ==>
      q[..level] in byChild && byChild[q[..level]] == FreshRow(net, head + q[..level])
  }

  lemma {:induction false} TallyMember(paths: seq<Path>, q: Path)
    ensures q in paths <==> Tally(paths, q) > 0
  {
    if paths != [] {
      var n := |paths| - 1;
      TallyMember(paths[..n], q);
      assert paths == paths[..n] + [paths[n]];
    }
  }

  ghost function Partial(net: Net, head: seq<Token>, q: Path, level: nat, all: nat, done: nat): seq<real>
    requires level >= 1
  {
    if |q| > level then Scores(net, head, q, all, level - 1) + seq(done, _ => FreshLogprob(net, head, q, level))
    else Scores(net, head, q, all, Depth(q))
  }

  lemma TallySnoc(paths: seq<Path>, j: nat, q: Path)
    requires j < |paths|
    ensures Tally(paths[..j + 1], q) == Tally(paths[..j], q) + if paths[j] == q then 1 else 0
  {
    assert paths[..j + 1][..j] == paths[..j];
  }

  lemma PartialStep(net: Net, head: seq<Token>, q: Path, level: nat, all: nat, done: nat, row: Row)
    requires level >= 1 && (|q| > level ==> row == FreshRow(net, head + q[..level]))
    ensures Partial(net, head, q, level, all, done + 1)
         == Partial(net, head, q, level, all, done) + if |q| > level then [net.logprob(row, q[level])] else []
  {
    hide Fresh, Scores;
    if |q| > level {
      var score := net.logprob(row, q[level]);
      assert seq(done + 1, _ => FreshLogprob(net, head, q, level)) == seq(done, _ => FreshLogprob(net, head, q, level)) + [score];
    }
  }

  lemma PartialEnds(net: Net, head: seq<Token>, q: Path, level: nat, all: nat)
    requires level >= 1
    ensures Partial(net, head, q, level, all, 0) == Scores(net, head, q, all, Min(level - 1, Depth(q)))
    ensures Partial(net, head, q, level, all, all) == Scores(net, head, q, all, Min(level, Depth(q)))
  {
    hide Fresh, FreshRow;
  }

  ghost predicate PartlyScored(net: Net, head: seq<Token>, paths: seq<Path>, results: map<Path, seq<real>>, level: nat, j: nat)
    requires level >= 1 && j <= |paths|
  {
    forall q :: q in results ==> results[q] == Partial(net, head, q, level, Tally(paths, q), Tally(paths[..j], q))
  }

  lemma PartlyScoredStep(net: Net, head: seq<Token>, paths: seq<Path>, results: map<Path, seq<real>>, level: nat, j: nat,
                         row: Row)
    requires level >= 1 && j < |paths| && paths[j] in results
    requires PartlyScored(net, head, paths, results, level, j)
    requires |paths[j]| > level ==> row == FreshRow(net, head + paths[j][..level])
    ensures var key := paths[j];
            var next := if |key| > level then results[key := results[key] + [net.logprob(row, key[level])]] else results;
            PartlyScored(net, head, paths, next, level, j + 1)
  {
    hide Partial, Tally, Fresh, FreshRow;
    var key := paths[j];
    assert results[key] + [] == results[key];
    PartialStep(net, head, key, level, Tally(paths, key), Tally(paths[..j], key), row);
    forall q {
      TallySnoc(paths, j, q);
    }
  }

  lemma PartlyScoredEnds(net: Net, head: seq<Token>, paths: seq<Path>, results: map<Path, seq<real>>, level: nat)
    requires level >= 1 && results.Keys == PathSet(paths)
    ensures Scored(net, head, paths, results, level - 1) ==> PartlyScored(net, head, paths, results, level, 0)
    ensures PartlyScored(net, head, paths, results, level, |paths|) ==> Scored(net, head, paths, results, level)
  {
    assert forall q :: Tally(paths[..0], q) == 0;
    assert paths[..|paths|] == paths;
    forall q {
      PartialEnds(net, head, q, level, Tally(paths, q));
    }
    hide Partial, Tally, Scores, Fresh, FreshRow;
  }

  method AddScores(net: Net, paths: seq<Path>, level: nat, byChild: map<Path, Row>, before: map<Path, seq<real>>,
                   ghost head: seq<Token>)
    returns (results: map<Path, seq<real>>)
    requires level >= 1
    requires RowsFor(net, head, paths, byChild, level)
    requires Scored(net, head, paths, before, level - 1)
    ensures Scored(net, head, paths, results, level)
  {
    results := before;
    PartlyScoredEnds(net, head, paths, results, level);
    hide PartlyScored, FreshRow, Scores, Tally;
    for j := 0 to |paths|
      invariant results.Keys == before.Keys && PartlyScored(net, head, paths, results, level, j)
    {
      var key := paths[j];
      if |key| > level {
        var row := byChild[key[..level]];
        PartlyScoredStep(net, head, paths, results, level, j, row);
        results := results[key := results[key] + [net.logprob(row, key[level])]];
      } else {
        PartlyScoredStep(net, head, paths, results, level, j, []);
      }
    }
    PartlyScoredEnds(net, head, paths, results, level);
  }

  // ---------------------------------------------------------------- labels.score_paths

  ghost predicate Registered(paths: seq<Path>, nodes: map<Path, int>, level: nat) {
    forall q :: q in paths && |q| > level ==> q[..level] in nodes
  }

  lemma LevelParents(paths: seq<Path>, children: seq<Path>, nodes: map<Path, int>, level: nat)
    requires level >= 1 && Registered(paths, nodes, level - 1) && IsLevel(children, paths, level)
    ensures Parents(children, nodes)
  {
    forall i | 0 <= i < |children|
      ensures |children[i]| == level && Above(children[i]) in nodes
    {
      assert children[i] in LevelSet(paths, level);
      var q :| q in paths && |q| > level && children[i] == q[..level];
      assert Above(children[i]) == q[..level - 1];
    }
  }

  lemma LevelSetMember(paths: seq<Path>, q: Path, level: nat)
    requires q in paths && |q| > level
    ensures q[..level] in LevelSet(paths, level)
  {
  }

  /** The maps after one level: every child is registered on its sequence and its row is known. */
  method RegisterLevel(children: seq<Path>, ids: seq<int>, nodes: map<Path, int>) returns (after: map<Path, int>)
    requires |ids| == |children|
    requires forall i, j :: 0 <= i < j < |children| ==> children[i] != children[j]
    ensures forall k :: 0 <= k < |children| ==> children[k] in after && after[children[k]] == ids[k]
    ensures forall n :: n in nodes && n !in children ==> n in after && after[n] == nodes[n]
    ensures forall n :: n in after ==> n in children || n in nodes
  {
    after := nodes;
    for k := 0 to |children|
      invariant forall i :: 0 <= i < k ==> children[i] in after && after[children[i]] == ids[i]
      invariant forall n :: n in nodes && n !in children ==> n in after && after[n] == nodes[n]
      invariant forall n :: n in after ==> n in children || n in nodes
    {
      after := after[children[k] := ids[k]];
    }
  }

  /** What one run of `score_paths` keeps from level to level. */
  ghost predicate Running(net: Net, start: seq<Cell>, now: seq<Cell>, head: seq<Token>, headSeq: int, pool: seq<int>,
                          available: seq<int>, nodes: map<Path, int>)
  {
    && |available| <= |pool| && available == pool[|pool| - |available|..]
    && NodesHold(net, now, head, nodes)
    && (forall n :: n in nodes ==> nodes[n] == headSeq || nodes[n] in pool[..|pool| - |available|])
    && (forall s :: s !in pool[..|pool| - |available|] ==> View(now, s) == View(start, s))
  }

  lemma RunningFacts(net: Net, start: seq<Cell>, now: seq<Cell>, head: seq<Token>, headSeq: int, pool: seq<int>,
                     available: seq<int>, nodes: map<Path, int>, n: nat)
    requires Running(net, start, now, head, headSeq, pool, available, nodes)
    requires AllDistinct(pool) && headSeq !in pool && Unused(start, pool) && n <= |available|
    ensures var ids := available[..n];
            AllDistinct(ids) && Unused(now, ids) && Apart(nodes, ids)
  {
    hide NodesHold, View;
    var u := |pool| - |available|;
    forall s | s in available[..n] ensures s in pool && s !in pool[..u] {
      var k :| 0 <= k < n && available[k] == s;
      assert pool[u + k] == s;
    }
  }

  lemma RunningStep(net: Net, start: seq<Cell>, mid: seq<Cell>, now: seq<Cell>, head: seq<Token>, headSeq: int,
                    pool: seq<int>, available: seq<int>, nodes: map<Path, int>, after: map<Path, int>,
                    children: seq<Path>)
    requires Running(net, start, mid, head, headSeq, pool, available, nodes)
    requires |children| <= |available|
    requires forall k :: 0 <= k < |children| ==> children[k] in after && after[children[k]] == available[k]
    requires forall n :: n in nodes && n !in children ==> n in after && after[n] == nodes[n]
    requires forall n :: n in after ==> n in children || n in nodes
    requires forall k :: 0 <= k < |children| ==> Holds(net, now, available[k], head + children[k])
    requires forall s :: s !in available[..|children|] ==> View(now, s) == View(mid, s)
    requires Apart(nodes, available[..|children|])
    ensures Running(net, start, now, head, headSeq, pool, available[|children|..], after)
  {
    hide View, Fresh, AllDistinct;
    var u, c := |pool| - |available|, |children|;
    forall n | n in after ensures Holds(net, now, after[n], head + n) && (after[n] == headSeq || after[n] in pool[..u + c]) {
      if n in children {
        var k :| 0 <= k < c && children[k] == n;
        assert available[..c][k] == available[k];
      } else {
        assert nodes[n] !in available[..c];
      }
    }
    hide Holds;
    forall s | s !in pool[..u + c] ensures View(now, s) == View(start, s) {
      assert s !in pool[..u] && s !in available[..c];
    }
  }

  ghost predicate Progress(net: Net, start: seq<Cell>, now: seq<Cell>, head: seq<Token>, headSeq: int, pool: seq<int>,
                           available: seq<int>, nodes: map<Path, int>, paths: seq<Path>, results: map<Path, seq<real>>,
                           level: nat)
    requires level >= 1
  {
    && Running(net, start, now, head, headSeq, pool, available, nodes)
    && Registered(paths, nodes, level - 1)
    && Scored(net, head, paths, results, level - 1)
    && |pool| == |available| + Nodes(paths, level)
  }

  /** One level of the loop: children forked, decoded and scored. */
  method StepLevel(live: Session, ghost start: seq<Cell>, children: seq<Path>, paths: seq<Path>, level: nat,
                   nodes: map<Path, int>, available: seq<int>, before: map<Path, seq<real>>, headSeq: int, base: int,
                   ghost pool: seq<int>, ghost head: seq<Token>)
    returns (results: map<Path, seq<real>>, after: map<Path, int>)
    requires level >= 1 && base == |head| && 0 < |children| <= |available|
    requires IsLevel(children, paths, level)
    requires AllDistinct(pool) && headSeq !in pool && Unused(start, pool)
    requires Progress(live.net, start, live.cells, head, headSeq, pool, available, nodes, paths, before, level)
    modifies live`cells, live`decodeCalls
    ensures Progress(live.net, start, live.cells, head, headSeq, pool, available[|children|..], after, paths, results, level + 1)
    ensures live.decodeCalls == old(live.decodeCalls) + 1
  {
    hide View, Fresh, Running, NodesHold, Scored, Registered, LevelSet, Holds, Parents, Unused, AllDistinct, FreshRow, RowsFor;
    LevelParents(paths, children, nodes, level);
    RunningFacts(live.net, start, live.cells, head, headSeq, pool, available, nodes, |children|);
    RunningFrame(live.net, start, live.cells, head, headSeq, pool, available, nodes);
    var ids := available[..|children|];
    ghost var mid := live.cells;
    var rows := ScoreLevel(live, children, nodes, ids, base, head);
    var byChild := ZipRows(children, rows);
    after := RegisterLevel(children, ids, nodes);
    RunningStep(live.net, start, mid, live.cells, head, headSeq, pool, available, nodes, after, children);
    ChildRows(live.net, head, paths, children, byChild, after, level);
    results := AddScores(live.net, paths, level, byChild, before, head);
  }

  method EmptyScores(paths: seq<Path>) returns (results: map<Path, seq<real>>)
    ensures results.Keys == PathSet(paths) && forall q :: q in results ==> results[q] == []
  {
    results := map[];
    assert PathSet(paths[..0]) == {};
    hide PathSet;
    for i := 0 to |paths|
      invariant results.Keys == PathSet(paths[..i]) && forall q :: q in results ==> results[q] == []
    {
      results := results[paths[i] := []];
    }
    assert paths[..|paths|] == paths;
  }

  /** The whole trie, level by level below the head, which is `base` tokens long: what every path scores beyond
      its first token. */
  method ScorePaths(live: Session, headSeq: int, base: int, pool: seq<int>, paths: seq<Path>, ghost head: seq<Token>)
    returns (r: Result<map<Path, seq<real>>, Stop>)
    requires base == |head| && Holds(live.net, live.cells, headSeq, head)
    requires AllDistinct(pool) && headSeq !in pool && Unused(live.cells, pool)
    modifies live`cells, live`decodeCalls
    ensures r.Success? <==> Nodes(paths, Widest(paths)) <= |pool|
    ensures r.Success? ==> Scored(live.net, head, paths, r.value, Widest(paths))
    ensures forall s :: s !in pool ==> View(live.cells, s) == View(old(live.cells), s)
  {
    hide *;
    var results := EmptyScores(paths);
    var nodes: map<Path, int> := map[[] := headSeq];
    var available := pool;
    var widest := Widest(paths);
    ghost var start := live.cells;
    var level := 1;
    ScorePathsStart(live.net, start, head, headSeq, pool, paths, nodes, results);
    while level < widest
      invariant level >= 1 && (level <= widest || level == 1)
      invariant Progress(live.net, start, live.cells, head, headSeq, pool, available, nodes, paths, results, level)
    {
      var children := TrieLevel(paths, level);
      LevelNeeds(live.net, start, live.cells, head, headSeq, pool, available, nodes, paths, results, level, children);
      if |available| < |children| {
        Untouched(live.net, start, live.cells, head, headSeq, pool, available, nodes, paths, results, level);
        return Failure(PoolExhausted);
      }
      results, nodes := StepLevel(live, start, children, paths, level, nodes, available, results, headSeq, base, pool, head);
      available, level := available[|children|..], level + 1;
    }
    LevelsDone(live.net, start, live.cells, head, headSeq, pool, available, nodes, paths, results, level);
    Untouched(live.net, start, live.cells, head, headSeq, pool, available, nodes, paths, results, level);
    return Success(results);
  }

  lemma ScorePathsStart(net: Net, start: seq<Cell>, head: seq<Token>, headSeq: int, pool: seq<int>, paths: seq<Path>,
                        nodes: map<Path, int>, results: map<Path, seq<real>>)
    requires Holds(net, start, headSeq, head)
    requires nodes == map[[] := headSeq] && results.Keys == PathSet(paths) && forall q :: q in results ==> results[q] == []
    ensures Progress(net, start, start, head, headSeq, pool, pool, nodes, paths, results, 1)
  {
    hide View, Fresh;
    assert head + [] == head;
  }

  lemma RunningFrame(net: Net, start: seq<Cell>, now: seq<Cell>, head: seq<Token>, headSeq: int, pool: seq<int>,
                     available: seq<int>, nodes: map<Path, int>)
    requires Running(net, start, now, head, headSeq, pool, available, nodes)
    ensures |available| <= |pool| && NodesHold(net, now, head, nodes)
    ensures forall s :: s !in pool ==> View(now, s) == View(start, s)
  {
    hide View, NodesHold;
    forall s | s !in pool ensures s !in pool[..|pool| - |available|] {
    }
  }

  lemma {:induction false} NodesGrow(paths: seq<Path>, level: nat, widest: nat)
    requires 1 <= level < widest
    ensures Nodes(paths, level) + |LevelSet(paths, level)| == Nodes(paths, level + 1) <= Nodes(paths, widest)
    decreases widest - level
  {
    hide LevelSet;
    if level + 1 < widest {
      NodesGrow(paths, level + 1, widest);
    }
  }

  lemma LevelNotEmpty(paths: seq<Path>, children: seq<Path>, level: nat)
    requires level < Widest(paths) && IsLevel(children, paths, level)
    ensures children != [] && |children| == |LevelSet(paths, level)|
  {
    var q := WidestPath(paths);
    assert q[..level] in LevelSet(paths, level);
  }

  lemma {:induction false} WidestPath(paths: seq<Path>) returns (q: Path)
    requires Widest(paths) > 0
    ensures q in paths && |q| == Widest(paths)
  {
    if |paths[0]| == Widest(paths) {
      q := paths[0];
    } else {
      q := WidestPath(paths[1..]);
    }
  }

  lemma ChildRows(net: Net, head: seq<Token>, paths: seq<Path>, children: seq<Path>, byChild: map<Path, Row>,
                  after: map<Path, int>, level: nat)
    requires level >= 1 && IsLevel(children, paths, level)
    requires forall k :: 0 <= k < |children| ==>
      children[k] != [] && children[k] in byChild && byChild[children[k]] == FreshRow(net, head + children[k])
    requires forall k :: 0 <= k < |children| ==> children[k] in after
    ensures RowsFor(net, head, paths, byChild, level) && Registered(paths, after, level)
  {
    hide Fresh, FreshRow;
    forall q | q in paths && |q| > level
      ensures q[..level] in byChild && q[..level] in after && byChild[q[..level]] == FreshRow(net, head + q[..level])
    {
      LevelSetMember(paths, q, level);
      var k :| 0 <= k < |children| && children[k] == q[..level];
    }
  }

  /** Outside its pool a run leaves every sequence as it found it. */
  lemma Untouched(net: Net, start: seq<Cell>, now: seq<Cell>, head: seq<Token>, headSeq: int, pool: seq<int>,
                  available: seq<int>, nodes: map<Path, int>, paths: seq<Path>, results: map<Path, seq<real>>,
                  level: nat)
    requires level >= 1 && Progress(net, start, now, head, headSeq, pool, available, nodes, paths, results, level)
    ensures forall s :: s !in pool ==> View(now, s) == View(start, s)
  {
    hide View, Running, Scored, Registered, Nodes;
    RunningFrame(net, start, now, head, headSeq, pool, available, nodes);
  }

  /** A level that does not fit what is left of the pool is a level the whole pool cannot hold. */
  lemma LevelNeeds(net: Net, start: seq<Cell>, now: seq<Cell>, head: seq<Token>, headSeq: int, pool: seq<int>,
                   available: seq<int>, nodes: map<Path, int>, paths: seq<Path>, results: map<Path, seq<real>>,
                   level: nat, children: seq<Path>)
    requires level >= 1 && Progress(net, start, now, head, headSeq, pool, available, nodes, paths, results, level)
    requires level < Widest(paths) && IsLevel(children, paths, level)
    ensures children != []
    ensures |available| < |children| ==> Nodes(paths, Widest(paths)) > |pool|
  {
    hide View, Running, Scored, Registered, LevelSet;
    NodesGrow(paths, level, Widest(paths));
    LevelNotEmpty(paths, children, level);
  }

  /** After the last level every path is scored and the pool was large enough. */
  lemma LevelsDone(net: Net, start: seq<Cell>, now: seq<Cell>, head: seq<Token>, headSeq: int, pool: seq<int>,
                   available: seq<int>, nodes: map<Path, int>, paths: seq<Path>, results: map<Path, seq<real>>,
                   level: nat)
    requires level >= 1 && Progress(net, start, now, head, headSeq, pool, available, nodes, paths, results, level)
    requires level == Widest(paths) || level == 1 > Widest(paths)
    ensures Scored(net, head, paths, results, Widest(paths)) && Nodes(paths, Widest(paths)) <= |pool|
  {
    hide View, LevelSet, Running, Scored, Registered, Widest;
    ScoredToTheEnd(net, head, paths, results, level - 1);
  }

  /** A path's last token has no level of its own, so the scores are complete one level early. */
  lemma ScoredToTheEnd(net: Net, head: seq<Token>, paths: seq<Path>, results: map<Path, seq<real>>, n: nat)
    requires Scored(net, head, paths, results, n) && Widest(paths) <= n + 1
    ensures Scored(net, head, paths, results, Widest(paths))
  {
    hide Scores, Tally;
    var widest := Widest(paths);
    forall q | q in results ensures Min(n, Depth(q)) == Min(widest, Depth(q)) {
      assert q in PathSet(paths);
      assert |q| <= widest;
    }
  }
}
