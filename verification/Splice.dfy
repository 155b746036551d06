/** Generated regions of a document, written and checked. */
module Splice {
  import opened Text
  import opened Wrappers

  // ---------------------------------------------------------------- finding a marker

  predicate Occurs(text: string, m: string, i: int) {
    0 <= i && i + |m| <= |text| && text[i..i + |m|] == m
  }

  /** `text.find(m)` from `from` on: the first occurrence, -1 without one. */
  function FindFrom(text: string, m: string, from: nat): (i: int)
    requires from <= |text|
    ensures i == -1 || (from <= i && Occurs(text, m, i))
    ensures forall j :: from <= j && Occurs(text, m, j) ==> 0 <= i <= j
    decreases |text| - from
  {
    if Occurs(text, m, from) then from else if from == |text| then -1 else FindFrom(text, m, from + 1)
  }

  function Find(text: string, m: string): int {
    FindFrom(text, m, 0)
  }

  /** `text.count(m)` from `from` on: occurrences that do not overlap, the leftmost first. */
  function CountFrom(text: string, m: string, from: nat): nat
    requires from <= |text|
    decreases |text| - from
  {
    if m == "" then |text| - from + 1
    else
      var i := FindFrom(text, m, from);
      if i == -1 then 0 else 1 + CountFrom(text, m, i + |m|)
  }

  function Count(text: string, m: string): nat {
    CountFrom(text, m, 0)
  }

  /** An empty marker stands before every character and at the end. */
  lemma EmptyCount(text: string)
    ensures Count(text, "") == |text| + 1
  {
  }

  /** The marker stands at `i`, and every other place it could be read from overlaps that one. */
  ghost predicate OnceAt(text: string, m: string, i: int) {
    Occurs(text, m, i) && forall j :: Occurs(text, m, j) ==> i <= j < i + |m|
  }

  lemma {:induction false} CountIsOne(text: string, m: string)
    requires m != ""
    ensures Count(text, m) == 1 <==> Find(text, m) >= 0 && OnceAt(text, m, Find(text, m))
  {
    var i := Find(text, m);
    if i >= 0 {
      var k := FindFrom(text, m, i + |m|);
      assert CountFrom(text, m, i + |m|) == 0 <==> k == -1;
    }
  }

  lemma OnceIsFound(text: string, m: string, i: int)
    requires OnceAt(text, m, i)
    ensures Find(text, m) == i
    ensures m != "" ==> Count(text, m) == 1
  {
    if m != "" {
      CountIsOne(text, m);
    }
  }

  predicate OneLine(m: string) {
    m != "" && forall k :: 0 <= k < |m| ==> m[k] != '\n'
  }

  /** A marker without a newline never straddles one. */
  lemma {:induction false} Pieces(p: string, r: string, m: string, i: int)
    requires OneLine(m)
    ensures Occurs(p + "\n" + r, m, i) <==> Occurs(p, m, i) || (i > |p| && Occurs(r, m, i - |p| - 1))
  {
    var t := p + "\n" + r;
    if 0 <= i && i + |m| <= |t| {
      if i + |m| <= |p| {
        assert t[i..i + |m|] == p[i..i + |m|];
      } else if i > |p| {
        assert t[i..i + |m|] == r[i - |p| - 1..i - |p| - 1 + |m|];
      } else {
        assert t[i..i + |m|][|p| - i] == '\n';
      }
    }
  }

  lemma {:induction false} InPrefix(text: string, k: nat, m: string, i: int)
    requires k <= |text|
    ensures Occurs(text[..k], m, i) <==> Occurs(text, m, i) && i + |m| <= k
  {
    if 0 <= i && i + |m| <= k {
      assert text[i..i + |m|] == text[..k][i..i + |m|];
    }
  }

  lemma {:induction false} InSuffix(text: string, k: nat, m: string, i: int)
    requires k <= |text|
    ensures Occurs(text[k..], m, i) <==> i >= 0 && Occurs(text, m, i + k)
  {
    if 0 <= i && i + k + |m| <= |text| {
      assert text[k..][i..i + |m|] == text[i + k..i + k + |m|];
    }
  }

  // ---------------------------------------------------------------- splicing

  datatype Problem = MarkerCount | EndFirst | OwnMarker

  datatype Region = Region(begin: string, end: string, body: string)

  /** The text with `body` put between `start` and `stop`, on lines of its own. */
  function Put(text: string, start: nat, stop: nat, body: string): string
    requires start <= stop <= |text|
  {
    text[..start] + "\n" + (RStrip(body) + "\n" + text[stop..])
  }

  /** `splice`. */
  function Spliced(text: string, r: Region): Result<string, Problem> {
    if Count(text, r.begin) != 1 || Count(text, r.end) != 1 then Failure(MarkerCount)
    else
      var at, stop := Find(text, r.begin), Find(text, r.end);
      if at < 0 || stop < 0 then Failure(MarkerCount)
      else
        var start := at + |r.begin|;
        if stop < start then Failure(EndFirst)
        else if Find(r.body, r.begin) >= 0 || Find(r.body, r.end) >= 0 then Failure(OwnMarker)
        else Success(Put(text, start, stop, r.body))
  }

  /** Both markers stand once, the begin marker first and ended before the end marker starts. */
  ghost predicate Marked(text: string, r: Region, at: int, stop: int) {
    && OneLine(r.begin) && OneLine(r.end)
    && OnceAt(text, r.begin, at) && OnceAt(text, r.end, stop)
    && at + |r.begin| <= stop
  }

  ghost predicate Free(body: string, m: string) {
    forall i :: !Occurs(body, m, i)
  }

  ghost predicate Clean(r: Region) {
    Free(r.body, r.begin) && Free(r.body, r.end)
  }

  /** A splice of one-line markers succeeds exactly on a marked text and a clean body. */
  lemma {:induction false} SplicedIff(text: string, r: Region)
    requires OneLine(r.begin) && OneLine(r.end)
    ensures Spliced(text, r).Success? <==> Clean(r) && Marked(text, r, Find(text, r.begin), Find(text, r.end))
  {
    CountIsOne(text, r.begin);
    CountIsOne(text, r.end);
    hide Count, Put;
  }

  /** How a splice is refused: a marker that does not stand once, an end before the begin, a body with a marker. */
  lemma {:induction false} SpliceRefused(text: string, r: Region)
    requires OneLine(r.begin) && OneLine(r.end)
    ensures Spliced(text, r) == Failure(MarkerCount) <==>
            !((exists i :: OnceAt(text, r.begin, i)) && exists j :: OnceAt(text, r.end, j))
    ensures Spliced(text, r) == Failure(EndFirst) <==>
            exists i, j :: OnceAt(text, r.begin, i) && OnceAt(text, r.end, j) && j < i + |r.begin|
    ensures Spliced(text, r) == Failure(OwnMarker) <==>
            !Clean(r) && exists i, j :: OnceAt(text, r.begin, i) && OnceAt(text, r.end, j) && i + |r.begin| <= j
  {
    CountIsOne(text, r.begin);
    CountIsOne(text, r.end);
    forall i | OnceAt(text, r.begin, i) ensures i == Find(text, r.begin) {
      OnceIsFound(text, r.begin, i);
    }
    forall j | OnceAt(text, r.end, j) ensures j == Find(text, r.end) {
      OnceIsFound(text, r.end, j);
    }
    hide Count, Put, OnceAt;
  }

  /** Between the markers stands the body alone, on lines of its own and without the white space at its end. */
  lemma {:induction false} SplicedText(before: string, inner: string, after: string, r: Region)
    requires Clean(r)
    requires Marked(before + r.begin + inner + r.end + after, r, |before|, |before + r.begin + inner|)
    ensures Spliced(before + r.begin + inner + r.end + after, r)
         == Success(before + r.begin + "\n" + RStrip(r.body) + "\n" + r.end + after)
  {
    var text := before + r.begin + inner + r.end + after;
    SplicedAt(text, r, |before|, |before + r.begin + inner|);
    hide *;
    PutBetween(before + r.begin, inner, r.end + after, r.body);
    assert before + r.begin + inner + r.end + after == (before + r.begin) + inner + (r.end + after);
    assert before + r.begin + "\n" + RStrip(r.body) + "\n" + r.end + after
        == (before + r.begin) + "\n" + RStrip(r.body) + "\n" + (r.end + after);
  }

  lemma PutBetween(a: string, inner: string, z: string, body: string)
    ensures Put(a + inner + z, |a|, |a + inner|, body) == a + "\n" + RStrip(body) + "\n" + z
  {
    var text := a + inner + z;
    assert text[..|a|] == a && text[|a + inner|..] == z;
    assert a + "\n" + (RStrip(body) + "\n" + z) == a + "\n" + RStrip(body) + "\n" + z;
  }

  lemma {:induction false} SplicedAt(text: string, r: Region, at: int, stop: int)
    requires Marked(text, r, at, stop) && Clean(r)
    ensures Spliced(text, r) == Success(Put(text, at + |r.begin|, stop, r.body))
  {
    OnceIsFound(text, r.begin, at);
    OnceIsFound(text, r.end, stop);
    hide Count, Put;
  }

  lemma {:induction false} TrimmedFree(body: string, m: string)
    requires Free(body, m)
    ensures Free(RStrip(body), m)
  {
    RStripSplits(body);
    forall i ensures !Occurs(RStrip(body), m, i) {
      InPrefix(body, |RStrip(body)|, m, i);
    }
  }

  /** Where a one-line marker can stand after a splice: before it, in the body, or after it. */
  lemma {:induction false} AfterPut(text: string, start: nat, stop: nat, body: string, m: string, i: int)
    requires OneLine(m) && start <= stop <= |text| && Free(body, m)
    ensures var shift := start + 2 + |RStrip(body)| - stop;
            Occurs(Put(text, start, stop, body), m, i) <==>
            (Occurs(text, m, i) && i + |m| <= start) || (i - shift >= stop && Occurs(text, m, i - shift))
  {
    var p, b, s := text[..start], RStrip(body), text[stop..];
    assert Put(text, start, stop, body) == p + "\n" + (b + "\n" + s);
    TrimmedFree(body, m);
    hide Occurs, OneLine, Put, RStrip;
    assert !Occurs(b, m, i - start - 1);
    hide Free;
    ThreePieces(p, b, s, m, i);
    InPrefix(text, start, m, i);
    InSuffix(text, stop, m, i - start - 2 - |b|);
  }

  lemma {:induction false} ThreePieces(p: string, b: string, s: string, m: string, i: int)
    requires OneLine(m) && !Occurs(b, m, i - |p| - 1)
    ensures Occurs(p + "\n" + (b + "\n" + s), m, i) <==>
            Occurs(p, m, i) || (i - |p| - |b| - 2 >= 0 && Occurs(s, m, i - |p| - |b| - 2))
  {
    Pieces(p, b + "\n" + s, m, i);
    Pieces(b, s, m, i - |p| - 1);
    hide OneLine;
  }

  /** A marker before the region stays where it is; one after it moves with the text. */
  lemma {:induction false} OnceKept(text: string, start: nat, stop: nat, body: string, m: string, i: int)
    requires OneLine(m) && start <= stop <= |text| && Free(body, m) && OnceAt(text, m, i)
    requires i + |m| <= start || i >= stop
    ensures OnceAt(Put(text, start, stop, body), m, Moved(start, stop, body, |m|, i))
  {
    var next := Put(text, start, stop, body);
    var k := Moved(start, stop, body, |m|, i);
    hide Put, Free;
    AfterPut(text, start, stop, body, m, k);
    forall j | Occurs(next, m, j) ensures k <= j < k + |m| {
      AfterPut(text, start, stop, body, m, j);
    }
  }

  function Moved(start: nat, stop: nat, body: string, width: nat, i: int): int {
    if i + width <= start then i else i + start + 2 + |RStrip(body)| - stop
  }

  /** After a splice the region's own markers still stand once each, around the new body. */
  lemma {:induction false} StaysMarked(text: string, r: Region, at: int, stop: int)
    requires Marked(text, r, at, stop) && Clean(r)
    ensures Marked(Put(text, at + |r.begin|, stop, r.body), r, at, at + |r.begin| + 2 + |RStrip(r.body)|)
  {
    OnceKept(text, at + |r.begin|, stop, r.body, r.begin, at);
    OnceKept(text, at + |r.begin|, stop, r.body, r.end, stop);
    hide Put;
  }

  lemma {:induction false} PutTwice(text: string, start: nat, stop: nat, body: string, body': string)
    requires start <= stop <= |text|
    ensures var next := Put(text, start, stop, body);
            && start + 2 + |RStrip(body)| <= |next|
            && Put(next, start, start + 2 + |RStrip(body)|, body') == Put(text, start, stop, body')
  {
    var next, k := Put(text, start, stop, body), start + 2 + |RStrip(body)|;
    assert next[..start] == text[..start];
    assert next[k..] == text[stop..];
  }

  /** A later body replaces an earlier one completely: nothing of it remains. */
  lemma {:induction false} LaterBodyWins(text: string, r: Region, body: string)
    requires OneLine(r.begin) && OneLine(r.end)
    requires Spliced(text, r).Success? && Clean(r.(body := body))
    ensures Spliced(Spliced(text, r).value, r.(body := body)) == Spliced(text, r.(body := body))
  {
    hide *;
    var s, at, stop := r.(body := body), Find(text, r.begin), Find(text, r.end);
    SplicedIff(text, r);
    MarkersAlone(text, r, body, at, stop);
    var start, newStop := at + |r.begin|, at + |r.begin| + 2 + |RStrip(r.body)|;
    var next := Put(text, start, stop, r.body);
    StaysMarked(text, r, at, stop);
    MarkersAlone(next, r, body, at, newStop);
    SplicedAt(text, r, at, stop);
    SplicedAt(text, s, at, stop);
    SplicedAt(next, s, at, newStop);
    PutTwice(text, start, stop, r.body, body);
  }

  lemma {:induction false} MarkersAlone(text: string, r: Region, body: string, at: int, stop: int)
    requires Marked(text, r, at, stop)
    ensures Marked(text, r.(body := body), at, stop)
    ensures 0 <= at + |r.begin| <= stop <= |text|
  {
  }

  /** Splicing the same body twice is splicing it once; outside the markers the text is untouched. */
  lemma {:induction false} SpliceIdempotent(text: string, r: Region)
    requires OneLine(r.begin) && OneLine(r.end) && Spliced(text, r).Success?
    ensures Spliced(Spliced(text, r).value, r) == Spliced(text, r)
    ensures var start, stop, next := Find(text, r.begin) + |r.begin|, Find(text, r.end), Spliced(text, r).value;
            && 0 <= start <= stop <= |text|
            && text[..start] <= next && |text[stop..]| <= |next| && next[|next| - |text[stop..]|..] == text[stop..]
  {
    SplicedIff(text, r);
    LaterBodyWins(text, r, r.body);
    assert r.(body := r.body) == r;
    SplicedAt(text, r, Find(text, r.begin), Find(text, r.end));
  }

  // ---------------------------------------------------------------- several regions of one file

  function At(text: string, r: Region): int {
    Find(text, r.begin)
  }

  function Stop(text: string, r: Region): int {
    Find(text, r.end)
  }

  ghost predicate Placed(text: string, r: Region) {
    Marked(text, r, At(text, r), Stop(text, r)) && Clean(r)
  }

  /** One region ends before the other begins. */
  predicate Apart(text: string, r: Region, s: Region) {
    Stop(text, r) + |r.end| <= At(text, s) || Stop(text, s) + |s.end| <= At(text, r)
  }

  /** Neither body holds a marker of the other. */
  ghost predicate Foreign(r: Region, s: Region) {
    Free(r.body, s.begin) && Free(r.body, s.end) && Free(s.body, r.begin) && Free(s.body, r.end)
  }

  /** What stands between the markers of a region. */
  function Inner(text: string, r: Region): string {
    var start, stop := At(text, r) + |r.begin|, Stop(text, r);
    if 0 <= start <= stop <= |text| then text[start..stop] else ""
  }

  lemma {:induction false} PlacedWithin(text: string, r: Region)
    requires Placed(text, r)
    ensures 0 <= At(text, r) && At(text, r) + |r.begin| <= Stop(text, r) && Stop(text, r) + |r.end| <= |text|
    ensures OnceAt(text, r.begin, At(text, r)) && OnceAt(text, r.end, Stop(text, r))
    ensures OneLine(r.begin) && OneLine(r.end) && Clean(r) && r.begin != "" && r.end != ""
    ensures Spliced(text, r) == Success(Put(text, At(text, r) + |r.begin|, Stop(text, r), r.body))
  {
    SplicedAt(text, r, At(text, r), Stop(text, r));
    hide Spliced, Put;
  }

  lemma {:induction false} PlacedAt(text: string, r: Region, at: int, stop: int)
    requires Marked(text, r, at, stop) && Clean(r)
    ensures Placed(text, r) && At(text, r) == at && Stop(text, r) == stop
  {
    OnceIsFound(text, r.begin, at);
    OnceIsFound(text, r.end, stop);
  }

  /** The region's text is the generated body already. */
  ghost predicate Current(text: string, r: Region) {
    Spliced(text, r) == Success(text)
  }

  lemma {:induction false} CurrentIff(text: string, r: Region)
    requires Placed(text, r)
    ensures Current(text, r) <==> Inner(text, r) == "\n" + RStrip(r.body) + "\n"
  {
    PlacedWithin(text, r);
    var start, stop := At(text, r) + |r.begin|, Stop(text, r);
    hide *;
    InnerIff(text, start, stop, r.body);
    assert Current(text, r) <==> Spliced(text, r) == Success(text) by {
      CurrentMeans(text, r);
    }
    InnerMeans(text, r);
  }

  lemma CurrentMeans(text: string, r: Region)
    ensures Current(text, r) <==> Spliced(text, r) == Success(text)
  {
    hide Spliced;
  }

  lemma InnerMeans(text: string, r: Region)
    requires 0 <= At(text, r) + |r.begin| <= Stop(text, r) <= |text|
    ensures Inner(text, r) == text[At(text, r) + |r.begin|..Stop(text, r)]
  {
    hide At, Stop;
  }

  lemma {:induction false} InnerIff(text: string, start: nat, stop: nat, body: string)
    requires start <= stop <= |text|
    ensures Put(text, start, stop, body) == text <==> text[start..stop] == "\n" + RStrip(body) + "\n"
  {
    hide RStrip;
    var p, x, s := text[..start], text[start..stop], text[stop..];
    var b := "\n" + RStrip(body) + "\n";
    assert text == p + (x + s);
    assert Put(text, start, stop, body) == p + (b + s);
    hide Put;
    if p + (b + s) == text {
      assert |b| == |x|;
      assert (p + (b + s))[|p|..] == b + s && text[|p|..] == x + s;
      assert (b + s)[..|b|] == b && (x + s)[..|b|] == x;
    }
  }

  lemma PlacedMarked(text: string, r: Region)
    requires Placed(text, r)
    ensures Marked(text, r, At(text, r), Stop(text, r)) && Clean(r)
  {
    hide Marked, Clean, At, Stop;
  }

  lemma MovedEnd(start: nat, stop: nat, body: string, width: nat)
    requires start <= stop && width > 0
    ensures Moved(start, stop, body, width, stop) == start + 2 + |RStrip(body)|
  {
    hide RStrip;
  }

  /** A splice makes its own region current. */
  lemma {:induction false} SplicedIsCurrent(text: string, r: Region)
    requires Placed(text, r)
    ensures Spliced(text, r).Success?
    ensures Placed(Spliced(text, r).value, r) && Current(Spliced(text, r).value, r)
    ensures At(Spliced(text, r).value, r) == At(text, r)
    ensures Stop(Spliced(text, r).value, r) == Moved(At(text, r) + |r.begin|, Stop(text, r), r.body, |r.end|, Stop(text, r))
  {
    hide *;
    var at, stop := At(text, r), Stop(text, r);
    PlacedWithin(text, r);
    PlacedMarked(text, r);
    StaysMarked(text, r, at, stop);
    var next := Put(text, at + |r.begin|, stop, r.body);
    PlacedAt(next, r, at, at + |r.begin| + 2 + |RStrip(r.body)|);
    SpliceIdempotent(text, r);
    CurrentMeans(next, r);
    MovedEnd(at + |r.begin|, stop, r.body, |r.end|);
  }

  lemma {:induction false} MovesWith(text: string, start: nat, stop: nat, body: string, s: Region)
    requires start <= stop <= |text| && Placed(text, s) && Free(body, s.begin) && Free(body, s.end)
    requires Stop(text, s) + |s.end| <= start || At(text, s) >= stop
    ensures var next := Put(text, start, stop, body);
            && Placed(next, s)
            && At(next, s) == Moved(start, stop, body, |s.begin|, At(text, s))
            && Stop(next, s) == Moved(start, stop, body, |s.end|, Stop(text, s))
            && Inner(next, s) == Inner(text, s)
  {
    hide *;
    PlacedWithin(text, s);
    var at, end, next := At(text, s), Stop(text, s), Put(text, start, stop, body);
    var at', end' := Moved(start, stop, body, |s.begin|, at), Moved(start, stop, body, |s.end|, end);
    OnceKept(text, start, stop, body, s.begin, at);
    OnceKept(text, start, stop, body, s.end, end);
    MovedTogether(start, stop, body, s, at, end);
    MarkedFrom(next, s, at', end');
    PlacedAt(next, s, at', end');
    PlacedWithin(next, s);
    InnerMoves(text, start, stop, body, at + |s.begin|, end);
    InnerMeans(text, s);
    InnerMeans(next, s);
  }

  lemma ApartMeans(text: string, r: Region, s: Region)
    requires Apart(text, r, s) && Foreign(r, s)
    ensures Free(r.body, s.begin) && Free(r.body, s.end)
    ensures Stop(text, r) + |r.end| <= At(text, s) || Stop(text, s) + |s.end| <= At(text, r)
  {
    hide Free, At, Stop;
  }

  /** A splice leaves every region apart from it marked, as it was inside, and in the same order. */
  lemma {:induction false} OtherRegionMoves(text: string, r: Region, s: Region)
    requires Placed(text, r) && Placed(text, s) && Apart(text, r, s) && Foreign(r, s)
    ensures 0 <= At(text, r) + |r.begin| <= Stop(text, r) && Spliced(text, r).Success?
    ensures Placed(Spliced(text, r).value, s)
    ensures At(Spliced(text, r).value, s) == Moved(At(text, r) + |r.begin|, Stop(text, r), r.body, |s.begin|, At(text, s))
    ensures Stop(Spliced(text, r).value, s) == Moved(At(text, r) + |r.begin|, Stop(text, r), r.body, |s.end|, Stop(text, s))
    ensures Inner(Spliced(text, r).value, s) == Inner(text, s)
  {
    hide *;
    ApartMeans(text, r, s);
    PlacedWithin(text, r);
    MovesWith(text, At(text, r) + |r.begin|, Stop(text, r), r.body, s);
  }

  lemma MarkedFrom(text: string, r: Region, at: int, stop: int)
    requires OneLine(r.begin) && OneLine(r.end) && OnceAt(text, r.begin, at) && OnceAt(text, r.end, stop) && at + |r.begin| <= stop
    ensures Marked(text, r, at, stop)
  {
  }

  lemma {:induction false} MovedTogether(start: nat, stop: nat, body: string, s: Region, at: int, end: int)
    requires start <= stop && at + |s.begin| <= end && s.begin != "" && s.end != ""
    requires end + |s.end| <= start || at >= stop
    ensures var shift := if end + |s.end| <= start then 0 else start + 2 + |RStrip(body)| - stop;
            Moved(start, stop, body, |s.begin|, at) == at + shift && Moved(start, stop, body, |s.end|, end) == end + shift
  {
    hide RStrip;
  }

  /** The text between two places on the same side of a splice moves with them. */
  lemma {:induction false} InnerMoves(text: string, start: nat, stop: nat, body: string, from: int, to: int)
    requires start <= stop <= |text| && 0 <= from <= to <= |text|
    requires to <= start || from >= stop
    ensures var shift, next := if to <= start then 0 else start + 2 + |RStrip(body)| - stop, Put(text, start, stop, body);
            0 <= from + shift <= to + shift <= |next| && next[from + shift..to + shift] == text[from..to]
  {
    hide RStrip;
  }

  /** Every region is placed, and no two touch or mention each other. */
  ghost predicate Independent(text: string, regions: seq<Region>) {
    && (forall i :: 0 <= i < |regions| ==> Placed(text, regions[i]))
    && (forall i, j :: 0 <= i < |regions| && 0 <= j < |regions| && i != j ==>
          Apart(text, regions[i], regions[j]) && Foreign(regions[i], regions[j]))
  }

  /** Two regions apart from a third stay apart when it is spliced. */
  lemma {:induction false} ApartKept(text: string, r: Region, s: Region, u: Region)
    requires Placed(text, r) && Placed(text, s) && Placed(text, u)
    requires Apart(text, r, s) && Apart(text, r, u) && Apart(text, s, u) && Foreign(r, s) && Foreign(r, u)
    ensures Spliced(text, r).Success? && Apart(Spliced(text, r).value, s, u)
  {
    OtherRegionMoves(text, r, s);
    OtherRegionMoves(text, r, u);
    PlacedWithin(text, r);
    PlacedWithin(text, s);
    PlacedWithin(text, u);
    hide Placed, Spliced, At, Stop, Inner, RStrip, Foreign, Put, OneLine, OnceAt, Clean;
  }

  lemma {:induction false} SelfApart(text: string, r: Region, s: Region)
    requires Placed(text, r) && Placed(text, s) && Apart(text, r, s) && Foreign(r, s)
    ensures Spliced(text, r).Success? && Apart(Spliced(text, r).value, r, s) && Apart(Spliced(text, r).value, s, r)
  {
    OtherRegionMoves(text, r, s);
    SplicedIsCurrent(text, r);
    PlacedWithin(text, r);
    PlacedWithin(text, s);
    hide Placed, Spliced, At, Stop, Inner, RStrip, Foreign, Put, OneLine, OnceAt, Clean, Current;
  }

  /** One splice keeps the regions independent, makes its own current and leaves the current ones current. */
  lemma {:induction false} OneStep(text: string, regions: seq<Region>, k: nat)
    requires Independent(text, regions) && k < |regions|
    ensures Spliced(text, regions[k]).Success?
    ensures Independent(Spliced(text, regions[k]).value, regions)
    ensures Current(Spliced(text, regions[k]).value, regions[k])
    ensures forall j :: 0 <= j < |regions| && Current(text, regions[j]) ==> Current(Spliced(text, regions[k]).value, regions[j])
  {
    hide Placed, Apart, Foreign, Current, Spliced, At, Stop, Inner;
    var r := regions[k];
    SplicedIsCurrent(text, r);
    var next := Spliced(text, r).value;
    forall j | 0 <= j < |regions| ensures Placed(next, regions[j]) {
      if j != k {
        OtherRegionMoves(text, r, regions[j]);
      }
    }
    forall i, j | 0 <= i < |regions| && 0 <= j < |regions| && i != j ensures Apart(next, regions[i], regions[j]) {
      if i == k {
        SelfApart(text, r, regions[j]);
      } else if j == k {
        SelfApart(text, r, regions[i]);
      } else {
        ApartKept(text, r, regions[i], regions[j]);
      }
    }
    forall j | 0 <= j < |regions| && Current(text, regions[j]) ensures Current(next, regions[j]) {
      if j != k {
        OtherRegionMoves(text, r, regions[j]);
        CurrentIff(text, regions[j]);
        CurrentIff(next, regions[j]);
      }
    }
  }

  /** The regions spliced one after the other, up to the first that fails. */
  function All(text: string, regions: seq<Region>): Result<string, Problem> {
    if regions == [] then Success(text)
    else
      var n := |regions| - 1;
      var before := All(text, regions[..n]);
      if before.Failure? then before else Spliced(before.value, regions[n])
  }

  lemma {:induction false} FirstRegions(text: string, regions: seq<Region>, k: nat)
    requires Independent(text, regions) && k <= |regions|
    ensures All(text, regions[..k]).Success?
    ensures Independent(All(text, regions[..k]).value, regions)
    ensures forall j :: 0 <= j < k ==> Current(All(text, regions[..k]).value, regions[j])
  {
    hide Independent, Current, Spliced;
    if k > 0 {
      FirstRegions(text, regions, k - 1);
      assert regions[..k][..k - 1] == regions[..k - 1];
      OneStep(All(text, regions[..k - 1]).value, regions, k - 1);
    }
  }

  lemma {:induction false} CurrentStays(text: string, regions: seq<Region>)
    requires forall j :: 0 <= j < |regions| ==> Current(text, regions[j])
    ensures All(text, regions) == Success(text)
  {
    hide Spliced;
    if regions != [] {
      CurrentStays(text, regions[..|regions| - 1]);
      CurrentMeans(text, regions[|regions| - 1]);
    }
  }

  /** A successful write of independent regions is always followed by a passing check. */
  lemma {:induction false} WrittenIsCurrent(text: string, regions: seq<Region>)
    requires Independent(text, regions)
    ensures All(text, regions).Success?
    ensures Independent(All(text, regions).value, regions)
    ensures All(All(text, regions).value, regions) == All(text, regions)
  {
    hide *;
    FirstRegions(text, regions, |regions|);
    assert regions[..|regions|] == regions;
    CurrentStays(All(text, regions).value, regions);
  }

  // ---------------------------------------------------------------- order

  /** Text before, between and after two regions that are apart. */
  lemma {:induction false} PutTwo(text: string, a: nat, b: nat, body: string, c: nat, d: nat, body': string)
    requires a <= b <= c <= d <= |text|
    ensures var shift := a + 2 + |RStrip(body)| - b;
            && 0 <= c + shift <= d + shift <= |Put(text, a, b, body)| && a <= b <= |Put(text, c, d, body')|
            && Put(Put(text, a, b, body), c + shift, d + shift, body') == Put(Put(text, c, d, body'), a, b, body)
  {
    hide RStrip;
    var first, second := Put(text, a, b, body), Put(text, c, d, body');
    var shift := a + 2 + |RStrip(body)| - b;
    var x, y := RStrip(body), RStrip(body');
    var left, middle, right := text[..a], text[b..c], text[d..];
    assert first[..c + shift] == left + "\n" + x + "\n" + middle;
    assert first[d + shift..] == right;
    assert second[..a] == left;
    assert second[b..] == middle + "\n" + y + "\n" + right;
  }

  /** Regions that are apart can be spliced in either order. */
  lemma {:induction false} SplicesCommute(text: string, r: Region, s: Region)
    requires Placed(text, r) && Placed(text, s) && Apart(text, r, s) && Foreign(r, s)
    ensures Spliced(text, r).Success? && Spliced(text, s).Success?
    ensures Spliced(Spliced(text, r).value, s) == Spliced(Spliced(text, s).value, r)
  {
    hide *;
    ApartMeans(text, r, s);
    ForeignSymmetric(text, r, s);
    if Stop(text, r) + |r.end| <= At(text, s) {
      InOrderCommute(text, r, s);
    } else {
      InOrderCommute(text, s, r);
    }
  }

  lemma ForeignSymmetric(text: string, r: Region, s: Region)
    ensures Foreign(r, s) <==> Foreign(s, r)
    ensures Apart(text, r, s) <==> Apart(text, s, r)
  {
    hide Free, At, Stop;
  }

  lemma ApartFrom(text: string, r: Region, s: Region)
    requires Stop(text, r) + |r.end| <= At(text, s)
    ensures Apart(text, r, s)
  {
    hide At, Stop;
  }

  lemma {:induction false} InOrderCommute(text: string, r: Region, s: Region)
    requires Placed(text, r) && Placed(text, s) && Stop(text, r) + |r.end| <= At(text, s) && Foreign(r, s)
    ensures Spliced(text, r).Success? && Spliced(text, s).Success?
    ensures Spliced(Spliced(text, r).value, s) == Spliced(Spliced(text, s).value, r)
  {
    hide *;
    ApartFrom(text, r, s);
    ForeignSymmetric(text, r, s);
    PlacedWithin(text, r);
    PlacedWithin(text, s);
    OtherRegionMoves(text, r, s);
    OtherRegionMoves(text, s, r);
    PlacedWithin(Spliced(text, r).value, s);
    PlacedWithin(Spliced(text, s).value, r);
    var a, b, c, d := At(text, r) + |r.begin|, Stop(text, r), At(text, s) + |s.begin|, Stop(text, s);
    MovedTogether(a, b, r.body, s, At(text, s), d);
    MovedTogether(c, d, s.body, r, At(text, r), b);
    PutTwo(text, a, b, r.body, c, d, s.body);
  }

  lemma {:induction false} AllOfTwo(text: string, r: Region, s: Region)
    ensures All(text, [r, s]) ==
            if Spliced(text, r).Failure? then Spliced(text, r) else Spliced(Spliced(text, r).value, s)
  {
    hide Spliced;
    assert [r, s][..1] == [r];
    assert [r][..0] == [];
    assert All(text, []) == Success(text);
    assert All(text, [r]) == Spliced(text, r);
  }

  // ---------------------------------------------------------------- the file

  class Document {
    var text: string

    constructor (text: string)
      ensures this.text == text
    {
      this.text := text;
    }

    /** `apply`: the file is written only when something changed and nothing is merely checked. */
    method Apply(regions: seq<Region>, check: bool) returns (r: Result<bool, Problem>)
      modifies this
      ensures All(old(text), regions).Failure? ==> r == Failure(All(old(text), regions).error) && text == old(text)
      ensures All(old(text), regions).Success? ==>
                var wanted := All(old(text), regions).value;
                && r == Success(wanted == old(text) || !check)
                && text == if check then old(text) else wanted
    {
      hide Spliced;
      var wanted := text;
      for i := 0 to |regions|
        invariant text == old(text)
        invariant All(text, regions[..i]) == Success(wanted)
      {
        assert regions[..i + 1][..i] == regions[..i];
        var next := Spliced(wanted, regions[i]);
        if next.Failure? {
          FailsAtOnce(text, regions, i + 1);
          return Failure(next.error);
        }
        wanted := next.value;
      }
      assert regions[..|regions|] == regions;
      if wanted == text {
        return Success(true);
      }
      if check {
        return Success(false);
      }
      text := wanted;
      return Success(true);
    }
  }

  lemma {:induction false} FailsAtOnce(text: string, regions: seq<Region>, k: nat)
    requires k <= |regions| && All(text, regions[..k]).Failure?
    ensures All(text, regions) == All(text, regions[..k])
    decreases |regions| - k
  {
    hide Spliced;
    if k == |regions| {
      assert regions[..k] == regions;
    } else {
      assert regions[..k + 1][..k] == regions[..k];
      FailsAtOnce(text, regions, k + 1);
    }
  }

  /** Writing the generated regions and checking them afterwards: the check passes exactly when another pass
      over the written text changes nothing, which independent regions guarantee. */
  method WriteThenCheck(document: Document, regions: seq<Region>) returns (ok: bool)
    requires All(document.text, regions).Success?
    modifies document
    ensures All(old(document.text), regions) == Success(document.text)
    ensures ok <==> All(document.text, regions) == Success(document.text)
    ensures Independent(old(document.text), regions) ==> ok
  {
    hide Independent, All;
    if Independent(document.text, regions) {
      WrittenIsCurrent(document.text, regions);
    }
    var written := document.Apply(regions, false);
    var checked := document.Apply(regions, true);
    ok := checked == Success(true);
  }
}
