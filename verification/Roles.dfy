/** The paired decision: pairing, flipping, ranking and verdicts. */
module Roles {
  import opened Arith
  import opened McNemar
  import opened Sequences
  import opened Text
  import opened Wrappers

  // ---------------------------------------------------------------- reports and pairs

  /** One measured item of one report. */
  datatype Row = Row(id: string, correct: bool, refused: bool, lowMass: bool)

  /** A report under its cell label. */
  datatype Report = Report(name: string, rows: seq<Row>)

  datatype Cell = Cell(name: string, items: nat, correct: nat, refusals: nat, lowMass: nat)

  datatype Pair = Pair(baseline: string, challenger: string, n: nat, both: nat, neither: int,
                       baselineOnly: nat, challengerOnly: nat, difference: real, low: real, high: real, p: real, wins: bool)

  /** The rows by id; of several with one id the last is kept. */
  function Outcomes(rows: seq<Row>): map<string, bool> {
    if rows == [] then map[]
    else
      var last := rows[|rows| - 1];
      Outcomes(rows[..|rows| - 1])[last.id := last.correct]
  }

  function Where(shared: set<string>, a: map<string, bool>, x: bool, b: map<string, bool>, y: bool): set<string>
    requires shared <= a.Keys && shared <= b.Keys
  {
    set id | id in shared && a[id] == x && b[id] == y
  }

  /** The numbers of a pair, from the counts alone. */
  function Compared(root: real -> real, baseline: string, challenger: string, b: nat, c: nat, both: nat, n: nat): Pair
    requires n > 0
  {
    var low, p := Low(root, b, c, n), Exact(b, c);
    Pair(baseline, challenger, n, both, n - b - c - both, c, b, Difference(b, c, n), low, High(root, b, c, n), p,
         low > 0.0 && p < 0.05)
  }

  /** `pair_stats`, or none where the reports share no item. */
  function PairStats(root: real -> real, left: Report, right: Report): Option<Pair> {
    var l, r := Outcomes(left.rows), Outcomes(right.rows);
    var shared := l.Keys * r.Keys;
    if shared == {} then None
    else
      Some(Compared(root, left.name, right.name, |Where(shared, l, false, r, true)|, |Where(shared, l, true, r, false)|,
                    |Where(shared, l, true, r, true)|, |shared|))
  }

  lemma {:induction false} FourParts(shared: set<string>, a: map<string, bool>, b: map<string, bool>)
    requires shared <= a.Keys && shared <= b.Keys
    ensures |shared| == |Where(shared, a, true, b, true)| + |Where(shared, a, true, b, false)|
                      + |Where(shared, a, false, b, true)| + |Where(shared, a, false, b, false)|
  {
    var tt, tf := Where(shared, a, true, b, true), Where(shared, a, true, b, false);
    var ft, ff := Where(shared, a, false, b, true), Where(shared, a, false, b, false);
    assert shared == (tt + tf) + (ft + ff);
    assert tt !! tf && ft !! ff && tt + tf !! ft + ff;
    hide Where;
  }

  /** Four outcomes: the counts of a pair account for every shared item once. */
  lemma {:induction false} CountsAddUp(root: real -> real, left: Report, right: Report)
    requires PairStats(root, left, right).Some?
    ensures var p := PairStats(root, left, right).value;
            var l, r := Outcomes(left.rows), Outcomes(right.rows);
            && p.neither == |Where(l.Keys * r.Keys, l, false, r, false)|
            && p.baselineOnly + p.challengerOnly <= p.n
  {
    hide Compared, Where, Outcomes;
    var l, r := Outcomes(left.rows), Outcomes(right.rows);
    var shared := l.Keys * r.Keys;
    FourParts(shared, l, r);
    CompareFields(root, left.name, right.name, |Where(shared, l, false, r, true)|, |Where(shared, l, true, r, false)|,
                  |Where(shared, l, true, r, true)|, |shared|);
  }

  lemma {:induction false} CompareFields(root: real -> real, baseline: string, challenger: string, b: nat, c: nat, both: nat, n: nat)
    requires n > 0
    ensures var p := Compared(root, baseline, challenger, b, c, both, n);
            && p.baseline == baseline && p.challenger == challenger && p.n == n && p.both == both
            && p.baselineOnly == c && p.challengerOnly == b && p.neither == n - b - c - both
  {
  }

  /** The flip `decide` applies in place of comparing the reports the other way round. */
  function Flip(p: Pair): Pair {
    p.(baseline := p.challenger, challenger := p.baseline,
       baselineOnly := p.challengerOnly, challengerOnly := p.baselineOnly,
       difference := -p.difference, low := -p.high, high := -p.low,
       wins := p.high < 0.0 && p.p < 0.05)
  }

  /** A flipped pair is, number for number, the pair of the reports taken the other way round. */
  lemma {:induction false} FlipIsSwap(root: real -> real, left: Report, right: Report)
    ensures PairStats(root, left, right).None? <==> PairStats(root, right, left).None?
    ensures PairStats(root, left, right).Some? ==>
              PairStats(root, right, left) == Some(Flip(PairStats(root, left, right).value))
  {
    var l, r := Outcomes(left.rows), Outcomes(right.rows);
    var shared := l.Keys * r.Keys;
    assert shared == r.Keys * l.Keys;
    if shared != {} {
      assert Where(shared, l, false, r, true) == Where(shared, r, true, l, false);
      assert Where(shared, l, true, r, false) == Where(shared, r, false, l, true);
      assert Where(shared, l, true, r, true) == Where(shared, r, true, l, true);
      var b, c := |Where(shared, l, false, r, true)|, |Where(shared, l, true, r, false)|;
      hide Where, Outcomes;
      FlipCompared(root, left.name, right.name, b, c, |Where(shared, l, true, r, true)|, |shared|);
    }
  }

  lemma {:induction false} FlipCompared(root: real -> real, x: string, y: string, b: nat, c: nat, both: nat, n: nat)
    requires n > 0
    ensures Compared(root, y, x, c, b, both, n) == Flip(Compared(root, x, y, b, c, both, n))
  {
    IntervalMirrors(root, b, c, n);
    ExactIsProbability(b, c);
    hide Low, High, Difference, Exact;
  }

  /** A win rests on at least six items that only one of the two got right, most of them the challenger's. */
  lemma {:induction false} WinNeedsSix(root: real -> real, left: Report, right: Report)
    requires Root(root) && PairStats(root, left, right).Some? && PairStats(root, left, right).value.wins
    ensures var p := PairStats(root, left, right).value;
            p.challengerOnly > p.baselineOnly && p.challengerOnly + p.baselineOnly >= 6
  {
    CountsAddUp(root, left, right);
    var p := PairStats(root, left, right).value;
    assert p.low == Low(root, p.challengerOnly, p.baselineOnly, p.n) && p.p == Exact(p.challengerOnly, p.baselineOnly);
    hide Root, Low, Exact, PairStats;
    SixDiscordant(p.challengerOnly, p.baselineOnly);
    PositiveIntervalWins(root, p.challengerOnly, p.baselineOnly, p.n);
  }

  // ---------------------------------------------------------------- ranking

  function Count(rows: seq<Row>, what: Row -> bool): nat {
    if rows == [] then 0 else (if what(rows[0]) then 1 else 0) + Count(rows[1..], what)
  }

  /** `cell_stats`, as far as the decision reads it. */
  function CellOf(r: Report): Cell {
    Cell(r.name, |r.rows|, Count(r.rows, (row: Row) => row.correct), Count(r.rows, (row: Row) => row.refused),
         Count(r.rows, (row: Row) => row.lowMass))
  }

  /** More right first, then fewer refusals, then less low mass, then the label. */
  predicate Before(x: Cell, y: Cell) {
    || x.correct > y.correct
    || (x.correct == y.correct && x.refusals < y.refusals)
    || (x.correct == y.correct && x.refusals == y.refusals && x.lowMass < y.lowMass)
    || (x.correct == y.correct && x.refusals == y.refusals && x.lowMass == y.lowMass && TextLess(x.name, y.name))
  }

  lemma {:induction false} BeforeTotal(x: Cell, y: Cell)
    ensures x.name != y.name ==> Before(x, y) || Before(y, x)
    ensures !(Before(x, y) && Before(y, x))
  {
    TextTotal(x.name, y.name);
    hide TextLess;
  }

  lemma {:induction false} BeforeTransitive(x: Cell, y: Cell, z: Cell)
    requires Before(x, y) && Before(y, z)
    ensures Before(x, z)
  {
    if TextLess(x.name, y.name) && TextLess(y.name, z.name) {
      TextTransitive(x.name, y.name, z.name);
    }
    hide TextLess;
  }

  ghost predicate Ranked(cells: seq<Cell>) {
    Ordered(Before, cells)
  }

  function Rank(cells: seq<Cell>): (ranked: seq<Cell>)
    ensures |ranked| == |cells|
  {
    Sort(Before, cells)
  }

  ghost predicate Names(cells: seq<Cell>) {
    forall i, j :: 0 <= i < j < |cells| ==> cells[i].name != cells[j].name
  }

  lemma {:induction false} RankSorts(cells: seq<Cell>)
    requires Names(cells)
    ensures Ranked(Rank(cells)) && multiset(Rank(cells)) == multiset(cells)
  {
    forall i, j | 0 <= i < j < |cells| ensures Before(cells[i], cells[j]) || Before(cells[j], cells[i]) {
      BeforeTotal(cells[i], cells[j]);
    }
    forall x, y, z | Before(x, y) && Before(y, z) ensures Before(x, z) {
      BeforeTransitive(x, y, z);
    }
    hide Before;
    SortOrdered(Before, cells);
  }

  lemma {:induction false} SameFirst(a: seq<Cell>, b: seq<Cell>)
    requires Ranked(a) && Ranked(b) && multiset(a) == multiset(b) && a != [] && b != []
    ensures a[0] == b[0]
  {
    assert a[0] in multiset(b) && b[0] in multiset(a);
    if a[0] != b[0] {
      assert Before(b[0], a[0]) && Before(a[0], b[0]);
      BeforeTotal(a[0], b[0]);
      assert false;
    }
  }

  /** The ranking is a total order on distinctly labelled cells: there is only one ranked arrangement of them. */
  lemma {:induction false} RankedUnique(a: seq<Cell>, b: seq<Cell>)
    requires Ranked(a) && Ranked(b) && multiset(a) == multiset(b)
    ensures a == b
  {
    hide Before, Ranked;
    SameLength(a, b);
    if a != [] {
      SameFirst(a, b);
      Removed(a, b, 0);
      assert b[..0] + b[1..] == b[1..];
      RankedTail(a);
      RankedTail(b);
      RankedUnique(a[1..], b[1..]);
      assert a == [a[0]] + a[1..] && b == [b[0]] + b[1..];
    }
  }

  lemma SameLength<T>(a: seq<T>, b: seq<T>)
    requires multiset(a) == multiset(b)
    ensures |a| == |b|
  {
    assert |a| == |multiset(a)| == |multiset(b)| == |b|;
  }

  lemma RankedTail(a: seq<Cell>)
    requires a != [] && Ranked(a)
    ensures Ranked(a[1..])
  {
    hide Before;
  }

  // ---------------------------------------------------------------- the decision

  datatype Verdict = Wins | Identical | ClearsAbove | ClearsBelow | WithinNoise | Unpaired

  datatype Judged = Judged(name: string, verdict: Verdict, pair: Option<Pair>)

  datatype Decision = Decision(baseline: string, best: Cell, verdicts: seq<Judged>, ranking: seq<Cell>)

  datatype Problem = NoSharedItems | NoCells | RepeatedLabel | UnknownBaseline

  function Judge(p: Pair): Verdict {
    if p.wins then Wins
    else if p.challengerOnly == 0 && p.baselineOnly == 0 then Identical
    else if p.low > 0.0 then ClearsAbove
    else if p.high < 0.0 then ClearsBelow
    else WithinNoise
  }

  /** The verdict "interval clears zero below, exact test does not" is given whenever the interval does, and
      what it says of the test is untrue exactly when p is below 0.05, which is exactly when the same two
      reports taken the other way round are a win. */
  lemma BelowIgnoresTheTest(root: real -> real, left: Report, right: Report)
    requires Root(root) && PairStats(root, left, right).Some?
    ensures PairStats(root, right, left).Some?
    ensures var p, turned := PairStats(root, left, right).value, PairStats(root, right, left).value;
            && (Judge(p) == ClearsBelow <==> p.high < 0.0)
            && (Judge(p) == ClearsBelow ==> (p.p < 0.05 <==> Judge(turned) == Wins))
  {
    CountsAddUp(root, left, right);
    FlipIsSwap(root, left, right);
    PairFields(root, left, right);
    var p := PairStats(root, left, right).value;
    var b, c, n := p.challengerOnly, p.baselineOnly, p.n;
    hide PairStats, Exact, Root;
    IntervalMirrors(root, b, c, n);
    HalfWidthNonNegative(root, b, c, n);
    hide HalfWidth, Difference;
    if p.high < 0.0 {
      PositiveIntervalWins(root, c, b, n);
    }
  }

  /** What each verdict says of the interval, the test and the items only one of the two got right. */
  lemma {:induction false} VerdictMeans(root: real -> real, left: Report, right: Report)
    requires Root(root) && PairStats(root, left, right).Some?
    ensures var p := PairStats(root, left, right).value;
            && (Judge(p) == Wins <==> p.low > 0.0 && p.p < 0.05)
            && (Judge(p) == ClearsAbove <==> p.low > 0.0 && p.p >= 0.05)
            && (Judge(p) == ClearsBelow <==> p.high < 0.0)
            && (Judge(p) == Identical <==> p.challengerOnly == 0 && p.baselineOnly == 0)
            && (Judge(p) == WithinNoise <==> p.low <= 0.0 <= p.high && (p.challengerOnly > 0 || p.baselineOnly > 0))
  {
    CountsAddUp(root, left, right);
    PairFields(root, left, right);
    BelowIgnoresTheTest(root, left, right);
    var p := PairStats(root, left, right).value;
    var b, c, n := p.challengerOnly, p.baselineOnly, p.n;
    hide PairStats, Exact, Root, High, Low;
    if p.low > 0.0 {
      PositiveIntervalWins(root, b, c, n);
    }
    if p.high < 0.0 {
      IntervalMirrors(root, b, c, n);
      PositiveIntervalWins(root, c, b, n);
    }
  }

  /** What a pair counts: the items only one of the two got right, and those both did. */
  lemma PairCounts(root: real -> real, left: Report, right: Report)
    requires PairStats(root, left, right).Some?
    ensures var p, l, r := PairStats(root, left, right).value, Outcomes(left.rows), Outcomes(right.rows);
            && p.baseline == left.name && p.challenger == right.name
            && p.n == |set id | id in l && id in r|
            && p.challengerOnly == |set id | id in l && id in r && !l[id] && r[id]|
            && p.baselineOnly == |set id | id in l && id in r && l[id] && !r[id]|
            && p.both == |set id | id in l && id in r && l[id] && r[id]|
  {
    hide Outcomes, Low, High, Exact, Difference;
    var l, r := Outcomes(left.rows), Outcomes(right.rows);
    assert (set id | id in l && id in r) == l.Keys * r.Keys;
    assert (set id | id in l && id in r && !l[id] && r[id]) == Where(l.Keys * r.Keys, l, false, r, true);
    assert (set id | id in l && id in r && l[id] && !r[id]) == Where(l.Keys * r.Keys, l, true, r, false);
    assert (set id | id in l && id in r && l[id] && r[id]) == Where(l.Keys * r.Keys, l, true, r, true);
  }

  /** An item's outcome is that of its last row. */
  lemma {:induction false} OutcomeIsLast(rows: seq<Row>, k: nat)
    requires k < |rows| && forall j :: k < j < |rows| ==> rows[j].id != rows[k].id
    ensures rows[k].id in Outcomes(rows) && Outcomes(rows)[rows[k].id] == rows[k].correct
  {
    if k < |rows| - 1 {
      OutcomeIsLast(rows[..|rows| - 1], k);
    }
  }

  /** A cell counts the rows of its report. */
  lemma CellMeans(r: Report)
    ensures CellOf(r).name == r.name && CellOf(r).items == |r.rows|
    ensures CellOf(r).correct == |set i | 0 <= i < |r.rows| && r.rows[i].correct|
    ensures CellOf(r).refusals == |set i | 0 <= i < |r.rows| && r.rows[i].refused|
    ensures CellOf(r).lowMass == |set i | 0 <= i < |r.rows| && r.rows[i].lowMass|
  {
    var correct, refused, low := (row: Row) => row.correct, (row: Row) => row.refused, (row: Row) => row.lowMass;
    CountIsSize(r.rows, correct);
    CountIsSize(r.rows, refused);
    CountIsSize(r.rows, low);
    hide Count;
    assert Places(r.rows, correct) == set i | 0 <= i < |r.rows| && r.rows[i].correct;
    assert Places(r.rows, refused) == set i | 0 <= i < |r.rows| && r.rows[i].refused;
    assert Places(r.rows, low) == set i | 0 <= i < |r.rows| && r.rows[i].lowMass;
  }

  function Places(rows: seq<Row>, what: Row -> bool): set<int> {
    set i | 0 <= i < |rows| && what(rows[i])
  }

  lemma {:induction false} CountIsSize(rows: seq<Row>, what: Row -> bool)
    ensures Count(rows, what) == |Places(rows, what)|
    decreases |rows|
  {
    hide *;
    if rows == [] {
      NoPlaces(what);
    } else {
      CountIsSize(rows[..|rows| - 1], what);
      CountLast(rows, what);
      OneMorePlace(rows, what);
    }
  }

  lemma NoPlaces(what: Row -> bool)
    ensures Count([], what) == 0 && Places([], what) == {}
  {
  }

  lemma OneMorePlace(rows: seq<Row>, what: Row -> bool)
    requires rows != []
    ensures |Places(rows, what)| == |Places(rows[..|rows| - 1], what)| + if what(rows[|rows| - 1]) then 1 else 0
  {
    var n := |rows| - 1;
    var before := Places(rows[..n], what);
    assert Places(rows, what) == before + if what(rows[n]) then {n} else {};
    assert n !in before;
  }

  lemma {:induction false} CountLast(rows: seq<Row>, what: Row -> bool)
    requires rows != []
    ensures Count(rows, what) == Count(rows[..|rows| - 1], what) + if what(rows[|rows| - 1]) then 1 else 0
  {
    if |rows| > 1 {
      CountLast(rows[1..], what);
      assert rows[1..][..|rows| - 2] == rows[..|rows| - 1][1..];
    }
  }

  lemma PairFields(root: real -> real, left: Report, right: Report)
    requires PairStats(root, left, right).Some?
    ensures var p := PairStats(root, left, right).value;
            var b, c, n := p.challengerOnly, p.baselineOnly, p.n;
            && n > 0 && p.low == Low(root, b, c, n) && p.high == High(root, b, c, n) && p.p == Exact(b, c)
            && (p.wins <==> p.low > 0.0 && p.p < 0.05)
  {
    hide Low, High, Exact, Where, Outcomes;
  }

  /** So any cell that got none of six or more items right that the baseline got all right is told that the
      exact test does not clear, though it does. */
  lemma WorseButDenied(root: real -> real, left: Report, right: Report)
    requires Root(root)
    requires Outcomes(left.rows).Keys == Outcomes(right.rows).Keys && |Outcomes(left.rows).Keys| >= 6
    requires forall id <- Outcomes(left.rows) :: Outcomes(left.rows)[id] && !Outcomes(right.rows)[id]
    ensures PairStats(root, left, right).Some?
    ensures var p := PairStats(root, left, right).value;
            p.high == -1.0 && p.p < 0.05 && Judge(p) == ClearsBelow
  {
    AllLost(root, left, right);
    var k := |Outcomes(left.rows).Keys|;
    LostInterval(root, k);
    LostTest(k);
    hide PairStats, Outcomes, Exact, High, Low, Root;
    BelowIgnoresTheTest(root, left, right);
    PairFields(root, left, right);
  }

  lemma AllLost(root: real -> real, left: Report, right: Report)
    requires Outcomes(left.rows).Keys == Outcomes(right.rows).Keys && Outcomes(left.rows).Keys != {}
    requires forall id <- Outcomes(left.rows) :: Outcomes(left.rows)[id] && !Outcomes(right.rows)[id]
    ensures PairStats(root, left, right).Some?
    ensures var p, k := PairStats(root, left, right).value, |Outcomes(left.rows).Keys|;
            p.challengerOnly == 0 && p.baselineOnly == k == p.n
  {
    var l, r := Outcomes(left.rows), Outcomes(right.rows);
    var shared := l.Keys * r.Keys;
    assert shared == l.Keys;
    assert Where(shared, l, false, r, true) == {};
    assert Where(shared, l, true, r, false) == shared;
    hide Compared, Where, Outcomes;
    CompareFields(root, left.name, right.name, 0, |shared|, |Where(shared, l, true, r, true)|, |shared|);
  }

  lemma LostInterval(root: real -> real, k: nat)
    requires Root(root) && k > 0
    ensures High(root, 0, k, k) == -1.0
  {
    assert (0.0 - k as real) * (0.0 - k as real) == k as real * k as real;
    SelfQuotient(k as real);
    assert Radicand(0, k, k) == 0.0;
    assert root(0.0) >= 0.0 && Square(root(0.0)) == 0.0;
    hide Root, Radicand, Square;
    ZeroSquare(root(0.0));
    ZeroQuotient(k as real);
  }

  lemma SelfQuotient(x: real)
    requires x > 0.0
    ensures x * x / x == x && (0.0 - x) / x == -1.0
  {
  }

  lemma ZeroQuotient(x: real)
    requires x > 0.0
    ensures 0.0 / x == 0.0
  {
  }

  function Square(x: real): real {
    x * x
  }

  lemma ZeroSquare(x: real)
    requires x >= 0.0 && Square(x) == 0.0
    ensures x == 0.0
  {
    SquareOrder(x, 0.0);
  }

  lemma LostTest(k: nat)
    requires k >= 6
    ensures Exact(0, k) < 0.05
  {
    AtLeast64(k);
    hide Power2;
    var d := Power2(k) as real;
    assert Tail(k, 0) == 1;
    assert TwoTails(0, k) == 2.0 / d;
    hide TwoTails;
    ScaleIff(2.0 / d, 0.05, d);
  }

  lemma {:induction false} AtLeast64(k: nat)
    requires k >= 6
    ensures Power2(k) >= 64
  {
    if k == 6 {
      SmallRows();
    } else {
      AtLeast64(k - 1);
    }
  }

  function CellsOf(reports: seq<Report>): (cells: seq<Cell>)
    ensures |cells| == |reports|
  {
    seq(|reports|, i requires 0 <= i < |reports| => CellOf(reports[i]))
  }

  predicate Labelled(reports: seq<Report>) {
    forall i, j :: 0 <= i < j < |reports| ==> reports[i].name != reports[j].name
  }

  predicate AllShare(root: real -> real, reports: seq<Report>) {
    forall i, j :: 0 <= i < j < |reports| ==> PairStats(root, reports[i], reports[j]).Some?
  }

  function Find(reports: seq<Report>, name: string): (i: nat)
    ensures i <= |reports|
    ensures i < |reports| ==> reports[i].name == name
    ensures i == |reports| ==> forall j :: 0 <= j < |reports| ==> reports[j].name != name
  {
    if reports == [] then 0
    else if reports[0].name == name then 0
    else
      var i := Find(reports[1..], name);
      assert forall j :: 1 <= j < |reports| ==> reports[j] == reports[1..][j - 1];
      1 + i
  }

  /** What is said of one cell: the comparison of the baseline's report with its own. */
  function JudgedCell(root: real -> real, reports: seq<Report>, baseline: string, name: string): Judged {
    var i, j := Find(reports, baseline), Find(reports, name);
    if i == |reports| || j == |reports| then Judged(name, Unpaired, None)
    else
      var pair := PairStats(root, reports[i], reports[j]);
      if pair.None? then Judged(name, Unpaired, None) else Judged(name, Judge(pair.value), pair)
  }

  function JudgedAll(root: real -> real, reports: seq<Report>, baseline: string, ranked: seq<Cell>): seq<Judged> {
    if ranked == [] then []
    else
      var n := |ranked| - 1;
      JudgedAll(root, reports, baseline, ranked[..n])
      + if ranked[n].name == baseline then [] else [JudgedCell(root, reports, baseline, ranked[n].name)]
  }

  /** The decision the report order should not matter to. */
  function DecisionOf(root: real -> real, reports: seq<Report>, baseline: Option<string>): Result<Decision, Problem> {
    if !AllShare(root, reports) then Failure(NoSharedItems)
    else if reports == [] then Failure(NoCells)
    else if !Labelled(reports) then Failure(RepeatedLabel)
    else
      var base := if baseline.Some? && baseline.value != "" then baseline.value else reports[0].name;
      if Find(reports, base) == |reports| then Failure(UnknownBaseline)
      else
        var ranked := Rank(CellsOf(reports));
        Success(Decision(base, ranked[0], JudgedAll(root, reports, base, ranked), ranked))
  }

  // ---------------------------------------------------------------- the loops

  function PairOf(root: real -> real, left: Report, right: Report): Pair
    requires PairStats(root, left, right).Some?
  {
    PairStats(root, left, right).value
  }

  /** The pairs of report `i` with the reports after it, before report `j`. */
  function PairsOfOne(root: real -> real, reports: seq<Report>, i: nat, j: nat): seq<Pair>
    requires AllShare(root, reports) && i < |reports| && j <= |reports|
    decreases j
  {
    if j <= i + 1 then [] else PairsOfOne(root, reports, i, j - 1) + [PairOf(root, reports[i], reports[j - 1])]
  }

  function PairsBefore(root: real -> real, reports: seq<Report>, i: nat): seq<Pair>
    requires AllShare(root, reports) && i <= |reports|
  {
    if i == 0 then [] else PairsBefore(root, reports, i - 1) + PairsOfOne(root, reports, i - 1, |reports|)
  }

  ghost predicate ShareAfter(root: real -> real, reports: seq<Report>, i: nat, j: nat)
    requires i < |reports| && j <= |reports|
  {
    forall l :: i < l < j ==> PairStats(root, reports[i], reports[l]).Some?
  }

  /** One report against the later ones. */
  method PairOne(root: real -> real, reports: seq<Report>, i: nat) returns (r: Option<seq<Pair>>)
    requires i < |reports|
    ensures r.None? <==> !ShareAfter(root, reports, i, |reports|)
    ensures r.Some? && AllShare(root, reports) ==> r.value == PairsOfOne(root, reports, i, |reports|)
  {
    hide PairStats, AllShare;
    var pairs: seq<Pair>, j := [], i + 1;
    while j < |reports|
      invariant i < j <= |reports|
      invariant ShareAfter(root, reports, i, j)
      invariant AllShare(root, reports) ==> pairs == PairsOfOne(root, reports, i, j)
    {
      var pair := PairStats(root, reports[i], reports[j]);
      if pair.None? {
        return None;
      }
      pairs := pairs + [pair.value];
      j := j + 1;
    }
    return Some(pairs);
  }

  /** Every later report against every earlier one; the first two without a shared item end the analysis. */
  method PairAll(root: real -> real, reports: seq<Report>) returns (r: Option<seq<Pair>>)
    ensures r.None? <==> !AllShare(root, reports)
    ensures r.Some? ==> r.value == PairsBefore(root, reports, |reports|)
  {
    hide PairStats, PairsOfOne;
    var pairs: seq<Pair>, i := [], 0;
    while i < |reports|
      invariant 0 <= i <= |reports|
      invariant forall k :: 0 <= k < i ==> ShareAfter(root, reports, k, |reports|)
      invariant AllShare(root, reports) ==> pairs == PairsBefore(root, reports, i)
    {
      var one := PairOne(root, reports, i);
      if one.None? {
        return None;
      }
      pairs := pairs + one.value;
      i := i + 1;
    }
    forall k, l | 0 <= k < l < |reports| ensures PairStats(root, reports[k], reports[l]).Some? {
      assert ShareAfter(root, reports, k, |reports|);
    }
    return Some(pairs);
  }

  /** The pair kept for every label that is compared with the baseline, flipped where it has to be. */
  function Against(pairs: seq<Pair>, baseline: string): map<string, Pair> {
    if pairs == [] then map[]
    else
      var before, last := Against(pairs[..|pairs| - 1], baseline), pairs[|pairs| - 1];
      if last.baseline == baseline then before[last.challenger := last]
      else if last.challenger == baseline then before[last.baseline := Flip(last)]
      else before
  }

  function JudgedFrom(against: map<string, Pair>, name: string): Judged {
    if name in against then Judged(name, Judge(against[name]), Some(against[name])) else Judged(name, Unpaired, None)
  }

  function JudgedAllFrom(against: map<string, Pair>, baseline: string, ranked: seq<Cell>): seq<Judged> {
    if ranked == [] then []
    else
      var n := |ranked| - 1;
      JudgedAllFrom(against, baseline, ranked[..n])
      + if ranked[n].name == baseline then [] else [JudgedFrom(against, ranked[n].name)]
  }

  /** The baseline that is meant: the one named, or the first cell. */
  function BaseOf(cells: seq<Cell>, baseline: Option<string>): string
    requires cells != []
  {
    if baseline.Some? && baseline.value != "" then baseline.value else cells[0].name
  }

  function DecideOf(cells: seq<Cell>, pairs: seq<Pair>, baseline: Option<string>): Result<Decision, Problem> {
    if cells == [] then Failure(NoCells)
    else if exists i, j :: 0 <= i < j < |cells| && cells[i].name == cells[j].name then Failure(RepeatedLabel)
    else
      var base := BaseOf(cells, baseline);
      if forall c <- cells :: c.name != base then Failure(UnknownBaseline)
      else
        var ranked := Rank(cells);
        Success(Decision(base, ranked[0], JudgedAllFrom(Against(pairs, base), base, ranked), ranked))
  }

  /** The loop over the pairs: the last comparison of every label with the baseline, flipped where needed. */
  method CollectAgainst(pairs: seq<Pair>, base: string) returns (against: map<string, Pair>)
    ensures against == Against(pairs, base)
  {
    hide Flip;
    against := map[];
    for i := 0 to |pairs|
      invariant against == Against(pairs[..i], base)
    {
      assert pairs[..i + 1][..i] == pairs[..i];
      var pair := pairs[i];
      if pair.baseline == base {
        against := against[pair.challenger := pair];
      } else if pair.challenger == base {
        against := against[pair.baseline := Flip(pair)];
      }
    }
    assert pairs[..|pairs|] == pairs;
  }

  /** The loop over the ranked cells: a verdict for each but the baseline. */
  method JudgeRanked(against: map<string, Pair>, base: string, ranked: seq<Cell>) returns (verdicts: seq<Judged>)
    ensures verdicts == JudgedAllFrom(against, base, ranked)
  {
    hide JudgedFrom;
    verdicts := [];
    for i := 0 to |ranked|
      invariant verdicts == JudgedAllFrom(against, base, ranked[..i])
    {
      assert ranked[..i + 1][..i] == ranked[..i];
      if ranked[i].name != base {
        verdicts := verdicts + [JudgedFrom(against, ranked[i].name)];
      }
    }
    assert ranked[..|ranked|] == ranked;
  }

  /** The pair compares `name` with the baseline, one way round or the other. */
  predicate Concerns(p: Pair, base: string, name: string) {
    if p.baseline == base then p.challenger == name else p.challenger == base && p.baseline == name
  }

  ghost predicate LastOf(pairs: seq<Pair>, base: string, name: string, k: int) {
    0 <= k < |pairs| && Concerns(pairs[k], base, name) && forall l :: k < l < |pairs| ==> !Concerns(pairs[l], base, name)
  }

  /** The pair with the baseline on the baseline's side. */
  function Turned(p: Pair, base: string): Pair {
    if p.baseline == base then p else Flip(p)
  }

  /** What is kept for a label is the last pair that compares it with the baseline, turned the right way. */
  lemma {:induction false} AgainstLast(pairs: seq<Pair>, base: string, name: string)
    ensures name in Against(pairs, base) <==> exists p <- pairs :: Concerns(p, base, name)
    ensures name in Against(pairs, base) ==>
              exists k :: LastOf(pairs, base, name, k) && Against(pairs, base)[name] == Turned(pairs[k], base)
  {
    hide Flip;
    if pairs != [] {
      var n := |pairs| - 1;
      var init, last := pairs[..n], pairs[n];
      assert pairs == init + [last];
      AgainstLast(init, base, name);
      if Concerns(last, base, name) {
        assert LastOf(pairs, base, name, n);
      } else if name in Against(init, base) {
        var k :| LastOf(init, base, name, k) && Against(init, base)[name] == Turned(init[k], base);
        assert LastOf(pairs, base, name, k);
      }
    }
  }

  /** A verdict rests on the last comparison of its cell with the baseline, or says that there is none. */
  ghost predicate RestsOn(pairs: seq<Pair>, base: string, v: Judged) {
    if exists p <- pairs :: Concerns(p, base, v.name) then
      exists k :: LastOf(pairs, base, v.name, k) && v.pair == Some(Turned(pairs[k], base))
                  && v.verdict == Judge(Turned(pairs[k], base))
    else
      v.pair == None && v.verdict == Unpaired
  }

  function OtherNames(ranked: seq<Cell>, base: string): seq<string> {
    if ranked == [] then []
    else
      var n := |ranked| - 1;
      OtherNames(ranked[..n], base) + if ranked[n].name == base then [] else [ranked[n].name]
  }

  lemma {:induction false} VerdictsRest(pairs: seq<Pair>, base: string, ranked: seq<Cell>)
    ensures var vs := JudgedAllFrom(Against(pairs, base), base, ranked);
            && |vs| == |OtherNames(ranked, base)|
            && forall k :: 0 <= k < |vs| ==> vs[k].name == OtherNames(ranked, base)[k] && RestsOn(pairs, base, vs[k])
  {
    hide Against, Judge, Turned, Concerns, LastOf;
    if ranked != [] {
      var n := |ranked| - 1;
      VerdictsRest(pairs, base, ranked[..n]);
      AgainstLast(pairs, base, ranked[n].name);
      assert RestsOn(pairs, base, JudgedFrom(Against(pairs, base), ranked[n].name));
      hide RestsOn, JudgedFrom;
      assert JudgedFrom(Against(pairs, base), ranked[n].name).name == ranked[n].name by {
        JudgedName(Against(pairs, base), ranked[n].name);
      }
    }
  }

  lemma JudgedName(against: map<string, Pair>, name: string)
    ensures JudgedFrom(against, name).name == name
  {
  }

  /** A decision as a reader may take it: a ranking of the cells, its first as the best, and for every other
      cell in that order a verdict that rests on its last comparison with the baseline. */
  ghost predicate Decided(cells: seq<Cell>, pairs: seq<Pair>, base: string, d: Decision) {
    && d.baseline == base && Ranked(d.ranking) && multiset(d.ranking) == multiset(cells)
    && d.ranking != [] && d.best == d.ranking[0]
    && |d.verdicts| == |OtherNames(d.ranking, base)|
    && forall k :: 0 <= k < |d.verdicts| ==>
         d.verdicts[k].name == OtherNames(d.ranking, base)[k] && RestsOn(pairs, base, d.verdicts[k])
  }

  /** No cell has more right than the best, none with as many right fewer refusals, none of those less low mass,
      and none of those an earlier label. */
  ghost predicate BestOf(cells: seq<Cell>, best: Cell) {
    && best in cells
    && forall c <- cells ::
         && c.correct <= best.correct
         && (c.correct == best.correct ==> c.refusals >= best.refusals)
         && (c.correct == best.correct && c.refusals == best.refusals ==> c.lowMass >= best.lowMass)
         && (c.correct == best.correct && c.refusals == best.refusals && c.lowMass == best.lowMass && c != best ==>
             TextLess(best.name, c.name))
  }

  /** Along the ranking the right answers never rise, among equals refusals never fall, then low mass, and then
      the labels rise. */
  ghost predicate Falling(ranking: seq<Cell>) {
    forall i, j :: 0 <= i < j < |ranking| ==>
      && ranking[i].correct >= ranking[j].correct
      && (ranking[i].correct == ranking[j].correct ==> ranking[i].refusals <= ranking[j].refusals)
      && (ranking[i].correct == ranking[j].correct && ranking[i].refusals == ranking[j].refusals ==>
          ranking[i].lowMass <= ranking[j].lowMass)
      && (ranking[i] == ranking[j].(name := ranking[i].name, items := ranking[i].items) ==>
          TextLess(ranking[i].name, ranking[j].name))
  }

  lemma RankedFalls(ranking: seq<Cell>, cells: seq<Cell>)
    requires Ranked(ranking) && multiset(ranking) == multiset(cells) && ranking != []
    ensures Falling(ranking) && BestOf(cells, ranking[0])
  {
    hide TextLess;
    assert Falling(ranking);
    assert ranking[0] in multiset(cells);
    forall c | c in cells ensures c == ranking[0] || exists j :: 0 < j < |ranking| && ranking[j] == c {
      assert c in multiset(ranking);
      var j :| 0 <= j < |ranking| && ranking[j] == c;
    }
  }

  /** `decide`: refused exactly for no cells, for a repeated label or for a baseline that is none of them. */
  method Decide(cells: seq<Cell>, pairs: seq<Pair>, baseline: Option<string>) returns (r: Result<Decision, Problem>)
    ensures r == DecideOf(cells, pairs, baseline)
    ensures r.Success? <==> cells != [] && Names(cells) && exists c <- cells :: c.name == BaseOf(cells, baseline)
    ensures r.Failure? ==> r.error == if cells == [] then NoCells else if !Names(cells) then RepeatedLabel else UnknownBaseline
    ensures r.Success? ==> Decided(cells, pairs, BaseOf(cells, baseline), r.value)
    ensures r.Success? ==> BestOf(cells, r.value.best) && Falling(r.value.ranking)
  {
    hide Against, JudgedAllFrom, Rank, RestsOn, Ranked, OtherNames, BestOf, Falling;
    if cells == [] {
      return Failure(NoCells);
    }
    if exists i, j :: 0 <= i < j < |cells| && cells[i].name == cells[j].name {
      return Failure(RepeatedLabel);
    }
    var base := BaseOf(cells, baseline);
    if forall c <- cells :: c.name != base {
      return Failure(UnknownBaseline);
    }
    var ranked := Rank(cells);
    var against := CollectAgainst(pairs, base);
    var verdicts := JudgeRanked(against, base, ranked);
    RankSorts(cells);
    RankedFalls(ranked, cells);
    VerdictsRest(pairs, base, ranked);
    return Success(Decision(base, ranked[0], verdicts, ranked));
  }

  // ---------------------------------------------------------------- flipping stands in for recomputing

  /** The pair compares report i with a later one before report j. */
  ghost predicate FromOne(root: real -> real, reports: seq<Report>, i: nat, j: nat, p: Pair)
    requires AllShare(root, reports) && i < |reports| && j <= |reports|
  {
    exists l :: i < l < j && p == PairOf(root, reports[i], reports[l])
  }

  lemma {:induction false} InOne(root: real -> real, reports: seq<Report>, i: nat, j: nat, p: Pair)
    requires AllShare(root, reports) && i < |reports| && j <= |reports|
    ensures p in PairsOfOne(root, reports, i, j) <==> FromOne(root, reports, i, j, p)
    decreases j
  {
    hide PairStats;
    if j > i + 1 {
      InOne(root, reports, i, j - 1, p);
      var last := PairOf(root, reports[i], reports[j - 1]);
      var before := PairsOfOne(root, reports, i, j - 1);
      assert PairsOfOne(root, reports, i, j) == before + [last];
      assert p in before + [last] <==> p in before || p == last;
    }
  }

  /** The pair compares one of the first i reports with a later one. */
  ghost predicate FromBefore(root: real -> real, reports: seq<Report>, i: nat, p: Pair)
    requires AllShare(root, reports) && i <= |reports|
  {
    exists k, l :: 0 <= k < i && k < l < |reports| && p == PairOf(root, reports[k], reports[l])
  }

  lemma {:induction false} InBefore(root: real -> real, reports: seq<Report>, i: nat, p: Pair)
    requires AllShare(root, reports) && i <= |reports|
    ensures p in PairsBefore(root, reports, i) <==> FromBefore(root, reports, i, p)
  {
    hide *;
    if i == 0 {
      NothingBefore(root, reports, p);
    } else {
      BeforeStep(root, reports, i, p);
      InBefore(root, reports, i - 1, p);
      InOne(root, reports, i - 1, |reports|, p);
      FromBeforeStep(root, reports, i, p);
    }
  }

  lemma NothingBefore(root: real -> real, reports: seq<Report>, p: Pair)
    requires AllShare(root, reports)
    ensures p !in PairsBefore(root, reports, 0) && !FromBefore(root, reports, 0, p)
  {
    hide PairStats, PairOf;
  }

  lemma FromBeforeStep(root: real -> real, reports: seq<Report>, i: nat, p: Pair)
    requires AllShare(root, reports) && 0 < i <= |reports|
    ensures FromBefore(root, reports, i, p) <==>
      FromBefore(root, reports, i - 1, p) || FromOne(root, reports, i - 1, |reports|, p)
  {
    hide PairStats, PairOf;
  }

  lemma BeforeStep(root: real -> real, reports: seq<Report>, i: nat, p: Pair)
    requires AllShare(root, reports) && 0 < i <= |reports|
    ensures p in PairsBefore(root, reports, i) <==>
            p in PairsBefore(root, reports, i - 1) || p in PairsOfOne(root, reports, i - 1, |reports|)
  {
    hide PairStats, PairOf, PairsOfOne;
    var before, one := PairsBefore(root, reports, i - 1), PairsOfOne(root, reports, i - 1, |reports|);
    assert PairsBefore(root, reports, i) == before + one;
  }

  /** Whatever the order of the pairs, the map holds what comparing the baseline with each label gives. */
  lemma {:induction false} AgainstIs(pairs: seq<Pair>, baseline: string, meant: map<string, Pair>)
    requires forall p <- pairs :: p.baseline == baseline ==> p.challenger in meant && meant[p.challenger] == p
    requires forall p <- pairs :: p.baseline != baseline && p.challenger == baseline ==>
               p.baseline in meant && meant[p.baseline] == Flip(p)
    ensures forall x :: x in Against(pairs, baseline) ==> x in meant && Against(pairs, baseline)[x] == meant[x]
    ensures forall p <- pairs :: p.baseline == baseline ==> p.challenger in Against(pairs, baseline)
    ensures forall p <- pairs :: p.baseline != baseline && p.challenger == baseline ==> p.baseline in Against(pairs, baseline)
  {
    hide Flip;
    if pairs != [] {
      var init, last := pairs[..|pairs| - 1], pairs[|pairs| - 1];
      assert pairs == init + [last];
      AgainstIs(init, baseline, meant);
    }
  }

  /** The comparisons of the baseline's report with every other one. */
  function Meant(root: real -> real, reports: seq<Report>, i: nat): map<string, Pair>
    requires i < |reports| && Labelled(reports) && AllShare(root, reports)
  {
    map name | name in Others(reports, i) :: MeantFor(root, reports, i, name)
  }

  function Others(reports: seq<Report>, i: nat): set<string> {
    set j | 0 <= j < |reports| && j != i :: reports[j].name
  }

  function MeantFor(root: real -> real, reports: seq<Report>, i: nat, name: string): Pair
    requires i < |reports| && Labelled(reports) && AllShare(root, reports) && name in Others(reports, i)
  {
    var j := Find(reports, name);
    assert j < |reports| && j != i;
    Shared(root, reports, i, j);
    PairOf(root, reports[i], reports[j])
  }

  lemma {:induction false} Shared(root: real -> real, reports: seq<Report>, i: nat, j: nat)
    requires AllShare(root, reports) && i < |reports| && j < |reports| && i != j
    ensures PairStats(root, reports[i], reports[j]).Some?
    ensures PairOf(root, reports[i], reports[j]) == Flip(PairOf(root, reports[j], reports[i]))
  {
    FlipIsSwap(root, reports[j], reports[i]);
    FlipIsSwap(root, reports[i], reports[j]);
    hide PairStats, Flip;
  }

  lemma {:induction false} PairNames(root: real -> real, left: Report, right: Report)
    requires PairStats(root, left, right).Some?
    ensures PairOf(root, left, right).baseline == left.name && PairOf(root, left, right).challenger == right.name
  {
    hide Outcomes, Where;
  }

  lemma {:induction false} FindAt(reports: seq<Report>, j: nat)
    requires Labelled(reports) && j < |reports|
    ensures Find(reports, reports[j].name) == j
  {
    hide Find;
  }

  lemma MeantAt(root: real -> real, reports: seq<Report>, i: nat, j: nat)
    requires i < |reports| && Labelled(reports) && AllShare(root, reports) && j < |reports| && j != i
    ensures PairStats(root, reports[i], reports[j]).Some?
    ensures reports[j].name != reports[i].name
    ensures reports[j].name in Meant(root, reports, i)
    ensures Meant(root, reports, i)[reports[j].name] == PairOf(root, reports[i], reports[j])
  {
    Shared(root, reports, i, j);
    FindAt(reports, j);
    hide PairStats, PairOf, Find, AllShare;
    assert reports[j].name in Others(reports, i);
  }

  /** A pair of the analysis, with the baseline on either side, is what is meant for its other label. */
  lemma PairIsMeant(root: real -> real, reports: seq<Report>, i: nat, p: Pair)
    requires i < |reports| && Labelled(reports) && AllShare(root, reports)
    requires p in PairsBefore(root, reports, |reports|)
    ensures var base, meant := reports[i].name, Meant(root, reports, i);
            && (p.baseline == base ==> p.challenger in meant && meant[p.challenger] == p)
            && (p.baseline != base && p.challenger == base ==> p.baseline in meant && meant[p.baseline] == Flip(p))
  {
    var k, l := PlacesOf(root, reports, p);
    hide *;
    PairNames(root, reports[k], reports[l]);
    if k != i {
      MeantAt(root, reports, i, k);
      Shared(root, reports, i, k);
    }
    if l != i {
      MeantAt(root, reports, i, l);
    }
  }

  lemma PlacesOf(root: real -> real, reports: seq<Report>, p: Pair) returns (k: nat, l: nat)
    requires AllShare(root, reports) && p in PairsBefore(root, reports, |reports|)
    ensures k < l < |reports| && PairStats(root, reports[k], reports[l]).Some? && p == PairOf(root, reports[k], reports[l])
  {
    hide PairStats, PairOf, PairsBefore;
    InBefore(root, reports, |reports|, p);
    k, l :| 0 <= k < |reports| && k < l < |reports| && p == PairOf(root, reports[k], reports[l]);
  }

  /** ... and every label has such a pair. */
  lemma MeantHasPair(root: real -> real, reports: seq<Report>, i: nat, name: string) returns (p: Pair)
    requires i < |reports| && Labelled(reports) && AllShare(root, reports) && name in Others(reports, i)
    ensures p in PairsBefore(root, reports, |reports|)
    ensures (p.baseline == reports[i].name && p.challenger == name)
         || (p.baseline == name && p.challenger == reports[i].name && p.baseline != reports[i].name)
  {
    hide PairStats, PairOf, PairsBefore, Flip, Find;
    var j :| 0 <= j < |reports| && j != i && reports[j].name == name;
    var k, l := if i < j then i else j, if i < j then j else i;
    p := PairOf(root, reports[k], reports[l]);
    PairNames(root, reports[k], reports[l]);
    InBefore(root, reports, |reports|, p);
  }

  lemma MeantKeys(root: real -> real, reports: seq<Report>, i: nat)
    requires i < |reports| && Labelled(reports) && AllShare(root, reports)
    ensures Meant(root, reports, i).Keys == Others(reports, i)
  {
    hide Others, Labelled, AllShare;
  }

  /** For the pairs of all reports the flipped map is the map of direct comparisons. */
  lemma {:induction false} AgainstIsDirect(root: real -> real, reports: seq<Report>, i: nat)
    requires i < |reports| && Labelled(reports) && AllShare(root, reports)
    ensures Against(PairsBefore(root, reports, |reports|), reports[i].name) == Meant(root, reports, i)
  {
    hide *;
    var pairs, base, meant := PairsBefore(root, reports, |reports|), reports[i].name, Meant(root, reports, i);
    forall p | p in pairs
      ensures p.baseline == base ==> p.challenger in meant && meant[p.challenger] == p
      ensures p.baseline != base && p.challenger == base ==> p.baseline in meant && meant[p.baseline] == Flip(p)
    {
      PairIsMeant(root, reports, i, p);
    }
    AgainstIs(pairs, base, meant);
    MeantKeys(root, reports, i);
    forall name | name in meant ensures name in Against(pairs, base) {
      var p := MeantHasPair(root, reports, i, name);
    }
  }

  lemma {:induction false} JudgedDirectly(root: real -> real, reports: seq<Report>, i: nat, name: string)
    requires i < |reports| && Labelled(reports) && AllShare(root, reports)
    requires name != reports[i].name && Find(reports, name) < |reports|
    ensures JudgedFrom(Meant(root, reports, i), name) == JudgedCell(root, reports, reports[i].name, name)
    ensures JudgedCell(root, reports, reports[i].name, name).verdict != Unpaired
  {
    FindAt(reports, i);
    var j := Find(reports, name);
    hide Find, PairStats, Judge;
    Shared(root, reports, i, j);
    assert name in Others(reports, i);
  }

  lemma {:induction false} JudgedAllDirectly(root: real -> real, reports: seq<Report>, i: nat, ranked: seq<Cell>)
    requires i < |reports| && Labelled(reports) && AllShare(root, reports)
    requires forall c <- ranked :: Find(reports, c.name) < |reports|
    ensures JudgedAllFrom(Meant(root, reports, i), reports[i].name, ranked) == JudgedAll(root, reports, reports[i].name, ranked)
  {
    hide Meant, JudgedFrom, JudgedCell, Find, AllShare, Labelled;
    if ranked != [] {
      var n := |ranked| - 1;
      JudgedAllDirectly(root, reports, i, ranked[..n]);
      if ranked[n].name != reports[i].name {
        JudgedDirectly(root, reports, i, ranked[n].name);
      }
    }
  }

  lemma {:induction false} CellNames(reports: seq<Report>)
    requires Labelled(reports)
    ensures Names(CellsOf(reports))
    ensures Ranked(Rank(CellsOf(reports))) && multiset(Rank(CellsOf(reports))) == multiset(CellsOf(reports))
    ensures forall c <- Rank(CellsOf(reports)) :: Find(reports, c.name) < |reports|
    ensures |Rank(CellsOf(reports))| == |reports|
  {
    hide CellOf, Rank, Before, Count, Find;
    var cells := CellsOf(reports);
    assert forall i :: 0 <= i < |reports| ==> cells[i].name == reports[i].name by {
      forall i | 0 <= i < |reports| ensures cells[i].name == reports[i].name {
        CellName(reports[i]);
      }
    }
    RankSorts(cells);
    var ranked := Rank(cells);
    assert |ranked| == |multiset(ranked)| == |multiset(cells)| == |cells|;
    forall c | c in ranked ensures Find(reports, c.name) < |reports| {
      assert c in multiset(cells);
      assert c in cells;
    }
  }

  lemma {:induction false} CellName(r: Report)
    ensures CellOf(r).name == r.name
  {
    hide Count;
  }

  /** What the loops compute from the pairs is what direct comparison gives. */
  lemma {:induction false} DecideIsDirect(root: real -> real, reports: seq<Report>, baseline: Option<string>)
    requires AllShare(root, reports)
    ensures DecideOf(CellsOf(reports), PairsBefore(root, reports, |reports|), baseline) == DecisionOf(root, reports, baseline)
  {
    hide PairsBefore, Against, Meant, JudgedAllFrom, JudgedAll, Rank, CellOf, AllShare, Ranked;
    var cells := CellsOf(reports);
    forall i | 0 <= i < |reports| ensures cells[i].name == reports[i].name {
      CellName(reports[i]);
    }
    if reports != [] && Labelled(reports) {
      var base := if baseline.Some? && baseline.value != "" then baseline.value else reports[0].name;
      var i := Find(reports, base);
      CellNames(reports);
      hide Find;
      if i < |reports| {
        assert cells[i] in cells;
        AgainstIsDirect(root, reports, i);
        JudgedAllDirectly(root, reports, i, Rank(cells));
      }
    }
  }

  /** `analyses`: the cells, all pairs, the decision. */
  method Analyses(root: real -> real, reports: seq<Report>, baseline: Option<string>) returns (r: Result<Decision, Problem>)
    ensures r == DecisionOf(root, reports, baseline)
  {
    hide DecideOf, CellsOf, PairsBefore, AllShare;
    var cells := CellsOf(reports);
    var pairs := PairAll(root, reports);
    if pairs.None? {
      return Failure(NoSharedItems);
    }
    DecideIsDirect(root, reports, baseline);
    r := Decide(cells, pairs.value, baseline);
  }

  // ---------------------------------------------------------------- the order of the reports

  lemma {:induction false} SharePermuted(root: real -> real, s: seq<Report>, t: seq<Report>)
    requires multiset(s) == multiset(t) && AllShare(root, s)
    ensures AllShare(root, t)
  {
    hide PairStats;
    forall i, j | 0 <= i < j < |t| ensures PairStats(root, t[i], t[j]).Some? {
      var k, l := Origins(s, t, i, j);
      Shared(root, s, k, l);
    }
  }

  lemma {:induction false} LabelsPermuted(s: seq<Report>, t: seq<Report>)
    requires multiset(s) == multiset(t) && Labelled(s)
    ensures Labelled(t)
  {
    forall i, j | 0 <= i < j < |t| ensures t[i].name != t[j].name {
      var k, l := Origins(s, t, i, j);
    }
  }

  lemma {:induction false} CellsPermuted(s: seq<Report>, t: seq<Report>)
    requires multiset(s) == multiset(t)
    ensures multiset(CellsOf(s)) == multiset(CellsOf(t))
  {
    hide CellOf;
    SameLength(s, t);
    if s != [] {
      assert s[0] in multiset(t);
      var k :| 0 <= k < |t| && t[k] == s[0];
      var rest := t[..k] + t[k + 1..];
      Removed(s, t, k);
      CellsPermuted(s[1..], rest);
      assert CellsOf(s) == [CellOf(s[0])] + CellsOf(s[1..]);
      assert CellsOf(rest) == CellsOf(t[..k]) + CellsOf(t[k + 1..]);
      assert CellsOf(t) == CellsOf(t[..k]) + [CellOf(t[k])] + CellsOf(t[k + 1..]);
      hide CellsOf;
    }
  }

  lemma {:induction false} FoundPermuted(s: seq<Report>, t: seq<Report>, name: string)
    requires multiset(s) == multiset(t) && Labelled(s) && Labelled(t)
    ensures Find(s, name) < |s| <==> Find(t, name) < |t|
    ensures Find(s, name) < |s| ==> s[Find(s, name)] == t[Find(t, name)]
  {
    var i, j := Find(s, name), Find(t, name);
    hide Find;
    if i < |s| {
      assert s[i] in multiset(t);
      var k :| 0 <= k < |t| && t[k] == s[i];
    }
    if j < |t| {
      assert t[j] in multiset(s);
      var k :| 0 <= k < |s| && s[k] == t[j];
    }
  }

  lemma {:induction false} JudgedPermuted(root: real -> real, s: seq<Report>, t: seq<Report>, baseline: string, ranked: seq<Cell>)
    requires multiset(s) == multiset(t) && Labelled(s) && Labelled(t)
    ensures JudgedAll(root, s, baseline, ranked) == JudgedAll(root, t, baseline, ranked)
  {
    hide PairStats, Judge, Find, Labelled;
    if ranked != [] {
      var n := |ranked| - 1;
      JudgedPermuted(root, s, t, baseline, ranked[..n]);
      FoundPermuted(s, t, baseline);
      FoundPermuted(s, t, ranked[n].name);
    }
  }

  /** With the baseline named, the decision does not depend on the order the reports are given in. */
  lemma {:induction false} OrderIndependent(root: real -> real, s: seq<Report>, t: seq<Report>, baseline: string)
    requires multiset(s) == multiset(t) && baseline != ""
    ensures DecisionOf(root, s, Some(baseline)) == DecisionOf(root, t, Some(baseline))
  {
    SameLength(s, t);
    if AllShare(root, s) {
      SharePermuted(root, s, t);
    } else if AllShare(root, t) {
      SharePermuted(root, t, s);
    }
    if Labelled(s) {
      LabelsPermuted(s, t);
    } else if Labelled(t) {
      LabelsPermuted(t, s);
    }
    hide AllShare, Find, Rank, CellsOf, JudgedAll, Ranked;
    if Labelled(s) {
      hide Labelled;
      FoundPermuted(s, t, baseline);
      CellNames(s);
      CellNames(t);
      CellsPermuted(s, t);
      RankedUnique(Rank(CellsOf(s)), Rank(CellsOf(t)));
      JudgedPermuted(root, s, t, baseline, Rank(CellsOf(s)));
    }
  }

  /** In a decision every other cell is compared with the baseline: none is left unpaired. */
  lemma {:induction false} NobodyUnpaired(root: real -> real, reports: seq<Report>, baseline: string, ranked: seq<Cell>)
    requires Labelled(reports) && AllShare(root, reports) && Find(reports, baseline) < |reports|
    requires forall c <- ranked :: Find(reports, c.name) < |reports|
    ensures forall v <- JudgedAll(root, reports, baseline, ranked) :: v.verdict != Unpaired && v.name != baseline
  {
    hide Labelled, AllShare, Find, JudgedCell;
    if ranked != [] {
      var n := |ranked| - 1;
      NobodyUnpaired(root, reports, baseline, ranked[..n]);
      if ranked[n].name != baseline {
        JudgedDirectly(root, reports, Find(reports, baseline), ranked[n].name);
      }
    }
  }

}
