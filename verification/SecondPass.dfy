/** Two regions of one file in any layout: when the check passes. */
module SecondPass {
  import opened Splice
  import opened Text
  import opened Wrappers

  // ---------------------------------------------------------------- one marker, one splice

  /** The marker stands once in the text. */
  ghost predicate Once(text: string, m: string) {
    OnceAt(text, m, Find(text, m))
  }

  /** A marker is clear of the region's own two markers: before the region, inside it or after it. */
  ghost predicate Clear(text: string, r: Region, m: string) {
    Before(text, r, m) || Within(text, r, m) || After(text, r, m)
  }

  predicate Before(text: string, r: Region, m: string) {
    Find(text, m) + |m| <= At(text, r)
  }

  predicate Within(text: string, r: Region, m: string) {
    At(text, r) + |r.begin| <= Find(text, m) && Find(text, m) + |m| <= Stop(text, r)
  }

  predicate After(text: string, r: Region, m: string) {
    Stop(text, r) + |r.end| <= Find(text, m)
  }

  /** What a splice puts between the newlines. */
  function Printed(r: Region): string {
    RStrip(r.body)
  }

  /** The place of a marker after the splice of `r`. */
  function Landed(text: string, r: Region, m: string): int {
    if Before(text, r, m) then Find(text, m)
    else if Within(text, r, m) then At(text, r) + |r.begin| + 1 + Find(Printed(r), m)
    else Find(text, m) + At(text, r) + |r.begin| + 2 + |Printed(r)| - Stop(text, r)
  }

  /** Where a one-line marker stands after a splice: in what was kept before, in the print, or behind it. */
  lemma AnyPlace(text: string, start: nat, stop: nat, body: string, m: string, i: int)
    requires OneLine(m) && start <= stop <= |text|
    ensures var b := RStrip(body);
            Occurs(Put(text, start, stop, body), m, i) <==>
            || (Occurs(text, m, i) && i + |m| <= start)
            || Occurs(b, m, i - start - 1)
            || (i - (start + 2 + |b|) >= 0 && Occurs(text, m, i - (start + 2 + |b|) + stop))
  {
    hide *;
    var p, b, s := text[..start], RStrip(body), text[stop..];
    PutParts(text, start, stop, body);
    Pieces(p, b + "\n" + s, m, i);
    Pieces(b, s, m, i - start - 1);
    InPrefix(text, start, m, i);
    InSuffix(text, stop, m, i - start - 2 - |b|);
    OccursInside(b, m, i - start - 1);
  }

  lemma PutParts(text: string, start: nat, stop: nat, body: string)
    requires start <= stop <= |text|
    ensures Put(text, start, stop, body) == text[..start] + "\n" + (RStrip(body) + "\n" + text[stop..])
  {
    hide RStrip;
  }

  lemma OccursInside(text: string, m: string, i: int)
    ensures Occurs(text, m, i) ==> 0 <= i <= i + |m| <= |text|
  {
  }

  lemma FoundOnce(text: string, m: string, i: int)
    requires OnceAt(text, m, i)
    ensures Find(text, m) == i && Once(text, m)
  {
    OnceIsFound(text, m, i);
  }

  lemma NeverOnce(text: string, m: string, i: int, j: int)
    requires Occurs(text, m, i) && Occurs(text, m, j) && i + |m| <= j
    ensures forall k :: !OnceAt(text, m, k)
  {
    hide Occurs;
  }

  function Kept(start: nat, stop: nat, body: string, m: string, i: int): int {
    if i + |m| <= start then i else i + start + 2 + |RStrip(body)| - stop
  }

  /** A marker outside what a splice replaces survives it, alone if the body does not print it too. */
  lemma KeptAlone(text: string, start: nat, stop: nat, body: string, m: string, i: int)
    requires OneLine(m) && start <= stop <= |text| && OnceAt(text, m, i) && (i + |m| <= start || i >= stop)
    requires Free(RStrip(body), m)
    ensures OnceAt(Put(text, start, stop, body), m, Kept(start, stop, body, m, i))
  {
    FreeEverywhere(RStrip(body), m);
    NotEmpty(m);
    var next, k := Put(text, start, stop, body), Kept(start, stop, body, m, i);
    hide Occurs, OneLine, Put, RStrip, Free;
    AnyPlace(text, start, stop, body, m, k);
    forall j | Occurs(next, m, j) ensures k <= j < k + |m| {
      AnyPlace(text, start, stop, body, m, j);
    }
  }

  /** ... and not alone if it does. */
  lemma KeptTwice(text: string, start: nat, stop: nat, body: string, m: string, i: int)
    requires OneLine(m) && start <= stop <= |text| && Occurs(text, m, i) && (i + |m| <= start || i >= stop)
    requires !Free(RStrip(body), m)
    ensures forall k :: !OnceAt(Put(text, start, stop, body), m, k)
  {
    var next, k := Put(text, start, stop, body), Kept(start, stop, body, m, i);
    var j := SomewhereIn(RStrip(body), m);
    OccursInside(text, m, i);
    hide Occurs, OneLine, Put, RStrip, Free, OnceAt;
    AnyPlace(text, start, stop, body, m, k);
    AnyPlace(text, start, stop, body, m, start + 1 + j);
    if k < start + 1 + j {
      NeverOnce(next, m, k, start + 1 + j);
    } else {
      NeverOnce(next, m, start + 1 + j, k);
    }
  }

  lemma OutsideAfter(text: string, r: Region, m: string)
    requires Placed(text, r) && OneLine(m) && Once(text, m) && (Before(text, r, m) || After(text, r, m))
    ensures Spliced(text, r).Success?
    ensures Once(Spliced(text, r).value, m) <==> Free(Printed(r), m)
    ensures Once(Spliced(text, r).value, m) ==> Find(Spliced(text, r).value, m) == Landed(text, r, m)
  {
    PlacedOnce(text, r);
    PlacedWithin(text, r);
    var start, stop, i := At(text, r) + |r.begin|, Stop(text, r), Find(text, m);
    OutsideLanded(text, r, m);
    hide Before, Within, After, Landed, Placed, Spliced, At, Stop, Find, Clean, OneLine, Occurs, Put, RStrip, Free;
    if Free(Printed(r), m) {
      KeptAlone(text, start, stop, r.body, m, i);
      FoundOnce(Put(text, start, stop, r.body), m, Landed(text, r, m));
    } else {
      KeptTwice(text, start, stop, r.body, m, i);
    }
  }

  lemma OutsideLanded(text: string, r: Region, m: string)
    requires Placed(text, r) && OneLine(m) && (Before(text, r, m) || After(text, r, m))
    ensures Find(text, m) + |m| <= At(text, r) + |r.begin| || Find(text, m) >= Stop(text, r)
    ensures 0 <= At(text, r) + |r.begin| <= Stop(text, r)
    ensures Landed(text, r, m) == Kept(At(text, r) + |r.begin|, Stop(text, r), r.body, m, Find(text, m))
  {
    PlacedOnce(text, r);
    NotEmpty(m);
    hide Find, Placed, Once, RStrip, OneLine, Clean;
  }

  lemma FreeEverywhere(b: string, m: string)
    requires Free(b, m)
    ensures forall i :: !Occurs(b, m, i)
  {
  }

  lemma SomewhereIn(b: string, m: string) returns (j: int)
    requires !Free(b, m)
    ensures Occurs(b, m, j) && 0 <= j <= j + |m| <= |b|
  {
    j :| Occurs(b, m, j);
  }

  /** A marker inside the region is gone after its splice unless the body prints it again. */
  lemma WithinAfter(text: string, r: Region, m: string)
    requires Placed(text, r) && OneLine(m) && Once(text, m) && Within(text, r, m)
    ensures Spliced(text, r).Success?
    ensures Once(Spliced(text, r).value, m) <==> Once(Printed(r), m)
    ensures Once(Spliced(text, r).value, m) ==> Find(Spliced(text, r).value, m) == Landed(text, r, m)
  {
    hide *;
    PlacedWithin(text, r);
    WithinMeans(text, r, m);
    var start, stop := At(text, r) + |r.begin|, Stop(text, r);
    OnlyPrinted(text, start, stop, r.body, m, Find(text, m));
    SameShifted(Put(text, start, stop, r.body), Printed(r), m, start + 1);
  }

  lemma WithinMeans(text: string, r: Region, m: string)
    requires Placed(text, r) && OneLine(m) && Once(text, m) && Within(text, r, m)
    ensures OnceAt(text, m, Find(text, m)) && Printed(r) == RStrip(r.body)
    ensures At(text, r) + |r.begin| <= Find(text, m) && Find(text, m) + |m| <= Stop(text, r)
    ensures Landed(text, r, m) == At(text, r) + |r.begin| + 1 + Find(Printed(r), m)
  {
    PlacedWithin(text, r);
    NotEmpty(m);
    hide RStrip, Find, OnceAt, Placed, OneLine, Spliced;
  }

  /** A marker that stood only in what a splice replaces stands where the print has it and nowhere else. */
  lemma OnlyPrinted(text: string, start: nat, stop: nat, body: string, m: string, i: int)
    requires OneLine(m) && start <= stop <= |text| && OnceAt(text, m, i) && start <= i && i + |m| <= stop
    ensures forall j :: Occurs(Put(text, start, stop, body), m, j) <==> Occurs(RStrip(body), m, j - (start + 1))
  {
    NotEmpty(m);
    hide Occurs, OneLine, Put, RStrip;
    forall j ensures Occurs(Put(text, start, stop, body), m, j) <==> Occurs(RStrip(body), m, j - (start + 1)) {
      AnyPlace(text, start, stop, body, m, j);
    }
  }

  /** Two texts that hold a marker at the same places, but for a shift, hold it once together. */
  lemma SameShifted(text: string, b: string, m: string, d: int)
    requires OneLine(m) && forall j :: Occurs(text, m, j) <==> Occurs(b, m, j - d)
    ensures Once(text, m) <==> Once(b, m)
    ensures Once(text, m) ==> Find(text, m) == d + Find(b, m)
  {
    hide Occurs, OneLine;
    if Once(text, m) {
      var i := Find(text, m);
      forall j | Occurs(b, m, j) ensures i - d <= j < i - d + |m| {
        assert Occurs(text, m, j + d);
      }
      FoundOnce(b, m, i - d);
    }
    if Once(b, m) {
      var i := Find(b, m);
      assert Occurs(text, m, i + d);
      forall j | Occurs(text, m, j) ensures i + d <= j < i + d + |m| {
        assert Occurs(b, m, j - d);
      }
      FoundOnce(text, m, i + d);
    }
  }

  /** What the splice of a region needs of another region's marker for it to stand once afterwards. */
  ghost predicate Stands(text: string, r: Region, m: string) {
    if Within(text, r, m) then Once(Printed(r), m) else Free(Printed(r), m)
  }

  /** One splice and one marker clear of it: when it stands afterwards, and on which side. */
  lemma MarkerAfter(text: string, r: Region, m: string)
    requires Placed(text, r) && OneLine(m) && Once(text, m) && Clear(text, r, m)
    ensures Spliced(text, r).Success?
    ensures Once(Spliced(text, r).value, m) <==> Stands(text, r, m)
    ensures Once(Spliced(text, r).value, m) ==> SameSide(text, Spliced(text, r).value, r, m)
    ensures Once(Spliced(text, r).value, m) ==> Find(Spliced(text, r).value, m) == Landed(text, r, m)
  {
    PlacedWithin(text, r);
    SplicedIsCurrent(text, r);
    hide Occurs, OneLine, Put, RStrip, Spliced, Placed, Clean, Find, OnceAt, Free, Current;
    assert 0 < |m| && 0 < |r.end| by {
      NotEmpty(m);
      NotEmpty(r.end);
    }
    if Within(text, r, m) {
      WithinAfter(text, r, m);
      if Once(Printed(r), m) {
        OnceInside(Printed(r), m);
      }
    } else {
      OutsideAfter(text, r, m);
    }
    MovedEnd(At(text, r) + |r.begin|, Stop(text, r), r.body, |r.end|);
  }

  lemma NotEmpty(m: string)
    requires OneLine(m)
    ensures |m| > 0
  {
  }

  lemma OnceInside(text: string, m: string)
    requires Once(text, m)
    ensures 0 <= Find(text, m) <= Find(text, m) + |m| <= |text|
  {
  }

  ghost predicate SameSide(text: string, next: string, r: Region, m: string) {
    && (Before(text, r, m) <==> Before(next, r, m))
    && (Within(text, r, m) <==> Within(next, r, m))
    && (After(text, r, m) <==> After(next, r, m))
  }

  // ---------------------------------------------------------------- two regions

  /** No marker of one region overlaps a marker of the other; the regions may otherwise lie as they like. */
  ghost predicate Separate(text: string, r: Region, s: Region) {
    Clear(text, r, s.begin) && Clear(text, r, s.end)
  }

  /** The layout of two regions: which marker stands before which. */
  ghost predicate SameLayout(text: string, next: string, r: Region, s: Region) {
    SameSide(text, next, r, s.begin) && SameSide(text, next, r, s.end)
  }

  predicate InOrder(b: string, r: Region) {
    Find(b, r.begin) + |r.begin| <= Find(b, r.end)
  }

  lemma PlacedOnce(text: string, r: Region)
    requires Placed(text, r)
    ensures Once(text, r.begin) && Once(text, r.end) && OneLine(r.begin) && OneLine(r.end) && Clean(r)
    ensures 0 <= At(text, r) && At(text, r) + |r.begin| <= Stop(text, r) && Stop(text, r) + |r.end| <= |text|
    ensures |r.begin| > 0 && |r.end| > 0
  {
    PlacedWithin(text, r);
    hide OnceAt, Spliced, OneLine, Clean;
    NotEmpty(r.begin);
    NotEmpty(r.end);
  }

  lemma OncePlaced(text: string, r: Region)
    requires OneLine(r.begin) && OneLine(r.end) && Clean(r)
    ensures Placed(text, r) <==> Once(text, r.begin) && Once(text, r.end) && At(text, r) + |r.begin| <= Stop(text, r)
  {
    hide OnceAt, OneLine, Clean;
  }

  lemma SplicesPlaced(text: string, r: Region)
    requires OneLine(r.begin) && OneLine(r.end)
    ensures Spliced(text, r).Success? <==> Placed(text, r)
  {
    SplicedIff(text, r);
    hide Spliced, Marked, Clean, Find;
  }

  /** A layout read from either region is the same layout. */
  lemma Dual(text: string, next: string, r: Region, s: Region)
    requires Placed(text, r) && Placed(text, s) && Separate(text, r, s)
    requires Placed(next, r) && Placed(next, s) && SameLayout(text, next, s, r)
    ensures Separate(text, s, r)
    ensures Separate(next, r, s) && SameLayout(text, next, r, s)
  {
    PlacedOnce(text, r);
    PlacedOnce(text, s);
    PlacedOnce(next, r);
    PlacedOnce(next, s);
    hide Find, Placed, Once, OneLine, Clean;
  }

  lemma LayoutSeparate(text: string, next: string, r: Region, s: Region)
    requires Separate(text, r, s) && SameLayout(text, next, r, s)
    ensures Separate(next, r, s)
  {
    hide Find, At, Stop;
  }

  /** The order of a region's markers is kept by the splice of another one unless both were printed anew. */
  lemma OrderAfter(text: string, r: Region, s: Region)
    requires Placed(text, r) && Placed(text, s) && Separate(text, r, s)
    ensures Spliced(text, r).Success?
    ensures var next := Spliced(text, r).value;
            Once(next, s.begin) && Once(next, s.end) ==>
              (At(next, s) + |s.begin| <= Stop(next, s) <==>
               (Within(text, r, s.begin) && Within(text, r, s.end) ==> InOrder(Printed(r), s)))
  {
    PlacedOnce(text, r);
    PlacedOnce(text, s);
    MarkerAfter(text, r, s.begin);
    MarkerAfter(text, r, s.end);
    var b := Printed(r);
    hide Find, Placed, Once, OneLine, Clean, Spliced, SameSide, Stands, RStrip, Printed;
    if Within(text, r, s.begin) && Once(Spliced(text, r).value, s.begin) {
      PrintedInside(text, r, s.begin);
    }
    if Within(text, r, s.end) && Once(Spliced(text, r).value, s.end) {
      PrintedInside(text, r, s.end);
    }
  }

  lemma PrintedInside(text: string, r: Region, m: string)
    requires Stands(text, r, m) && Within(text, r, m)
    ensures 0 <= Find(Printed(r), m) <= Find(Printed(r), m) + |m| <= |Printed(r)|
  {
    hide Once, Within, Printed;
    OnceInside(Printed(r), m);
  }

  /** What the splice of `r` needs of region `s` for it to be placed afterwards. */
  ghost predicate Survives(text: string, r: Region, s: Region) {
    && Stands(text, r, s.begin) && Stands(text, r, s.end)
    && (Within(text, r, s.begin) && Within(text, r, s.end) ==> InOrder(Printed(r), s))
  }

  /** One splice and another region: it is placed afterwards exactly when it survives, in the same layout. */
  lemma RegionAfter(text: string, r: Region, s: Region)
    requires Placed(text, r) && Placed(text, s) && Separate(text, r, s)
    ensures Spliced(text, r).Success? && Placed(Spliced(text, r).value, r) && Current(Spliced(text, r).value, r)
    ensures Placed(Spliced(text, r).value, s) <==> Survives(text, r, s)
    ensures Placed(Spliced(text, r).value, s) ==>
              SameLayout(text, Spliced(text, r).value, r, s) && Separate(Spliced(text, r).value, r, s)
    ensures Placed(Spliced(text, r).value, s) ==>
              && At(Spliced(text, r).value, s) == Landed(text, r, s.begin)
              && Stop(Spliced(text, r).value, s) == Landed(text, r, s.end)
  {
    hide *;
    PlacedOnce(text, s);
    SplicedIsCurrent(text, r);
    SeparateParts(text, r, s);
    MarkerAfter(text, r, s.begin);
    MarkerAfter(text, r, s.end);
    OrderAfter(text, r, s);
    var next := Spliced(text, r).value;
    OncePlaced(next, s);
    SurvivesParts(text, r, s);
    if Placed(next, s) {
      LayoutFrom(text, next, r, s);
      LayoutSeparate(text, next, r, s);
      AtStop(next, s);
    }
  }

  lemma SeparateParts(text: string, r: Region, s: Region)
    requires Separate(text, r, s)
    ensures Clear(text, r, s.begin) && Clear(text, r, s.end)
  {
  }

  lemma SurvivesParts(text: string, r: Region, s: Region)
    ensures Survives(text, r, s) <==>
      && Stands(text, r, s.begin) && Stands(text, r, s.end)
      && (Within(text, r, s.begin) && Within(text, r, s.end) ==> InOrder(Printed(r), s))
  {
  }

  lemma LayoutFrom(text: string, next: string, r: Region, s: Region)
    requires SameSide(text, next, r, s.begin) && SameSide(text, next, r, s.end)
    ensures SameLayout(text, next, r, s)
  {
  }

  lemma AtStop(text: string, r: Region)
    ensures At(text, r) == Find(text, r.begin) && Stop(text, r) == Find(text, r.end)
  {
  }

  /** Whether a region survives a splice depends on the layout alone. */
  lemma SurvivesByLayout(text: string, next: string, r: Region, s: Region)
    requires SameLayout(text, next, r, s)
    ensures Survives(text, r, s) <==> Survives(next, r, s)
  {
    hide Before, Within, After, Once, Free, InOrder, Printed;
  }

  // ---------------------------------------------------------------- the second pass

  function Front(text: string, r: Region): string {
    var start := At(text, r) + |r.begin|;
    if 0 <= start <= |text| then text[..start] else ""
  }

  function Back(text: string, r: Region): string {
    if 0 <= Stop(text, r) <= |text| then text[Stop(text, r)..] else ""
  }

  lemma SplicedText(text: string, r: Region)
    requires Placed(text, r)
    ensures Spliced(text, r) == Success(Front(text, r) + "\n" + (Printed(r) + "\n" + Back(text, r)))
  {
    PlacedWithin(text, r);
    hide Placed, Spliced, At, Stop, RStrip;
  }

  /** The text up to a marker before the region, and behind one after it, is not touched. */
  lemma OutsideKept(text: string, r: Region, m: string)
    requires Placed(text, r) && Once(text, m)
    ensures Spliced(text, r).Success?
    ensures var next, i := Spliced(text, r).value, Find(text, m);
            && (Before(text, r, m) ==> 0 <= i + |m| <= |text| && i + |m| <= |next| && next[..i + |m|] == text[..i + |m|])
            && (After(text, r, m) ==>
                  0 <= i <= |text| && 0 <= Landed(text, r, m) <= |next| && next[Landed(text, r, m)..] == text[i..])
  {
    PlacedOnce(text, r);
    SplicedText(text, r);
    OnceInside(text, m);
    hide Placed, Spliced, At, Stop, RStrip, Once, OneLine, Clean;
    var f, b, s := Front(text, r), Printed(r), Back(text, r);
    var next := f + "\n" + (b + "\n" + s);
    assert next == Spliced(text, r).value;
    if Before(text, r, m) {
      assert next[..|f|] == f;
    } else if After(text, r, m) {
      assert next[|f| + 2 + |b|..] == s;
    }
  }

  /** The text up to a printed marker, and behind it, is the print and what the region leaves alone. */
  lemma WithinPrinted(text: string, r: Region, m: string)
    requires Placed(text, r) && Within(text, r, m) && Stands(text, r, m)
    ensures Spliced(text, r).Success?
    ensures var next, k := Spliced(text, r).value, Find(Printed(r), m);
            && 0 <= k <= k + |m| <= |Printed(r)|
            && |Front(text, r)| + 1 + k + |m| <= |next|
            && Landed(text, r, m) == |Front(text, r)| + 1 + k
            && next[..|Front(text, r)| + 1 + k + |m|] == Front(text, r) + "\n" + Printed(r)[..k + |m|]
            && next[|Front(text, r)| + 1 + k..] == Printed(r)[k..] + "\n" + Back(text, r)
  {
    PlacedOnce(text, r);
    SplicedText(text, r);
    PrintedInside(text, r, m);
    hide Placed, Spliced, At, Stop, RStrip, Once, OneLine, Clean, Printed, Before;
  }

  lemma FrontIs(text: string, r: Region)
    requires Placed(text, r)
    ensures 0 <= At(text, r) + |r.begin| <= |text| && 0 <= Stop(text, r) <= |text|
    ensures Front(text, r) == text[..At(text, r) + |r.begin|] && Back(text, r) == text[Stop(text, r)..]
  {
    PlacedOnce(text, r);
    hide Placed, At, Stop, Once, OneLine, Clean;
  }

  /** A splice leaves its own front and back. */
  lemma OwnFront(text: string, r: Region)
    requires Placed(text, r)
    ensures Spliced(text, r).Success? && Placed(Spliced(text, r).value, r)
    ensures Front(Spliced(text, r).value, r) == Front(text, r) && Back(Spliced(text, r).value, r) == Back(text, r)
  {
    hide *;
    SplicedIsCurrent(text, r);
    SplicedText(text, r);
    PlacedOnce(text, r);
    FrontIs(text, r);
    var next := Spliced(text, r).value;
    FrontIs(next, r);
    PlacedOnce(next, r);
    var f, b, s := Front(text, r), Printed(r), Back(text, r);
    PrintedSize(r);
    MovedEnd(At(text, r) + |r.begin|, Stop(text, r), r.body, |r.end|);
    assert (f + "\n" + (b + "\n" + s))[..|f|] == f;
    assert (f + "\n" + (b + "\n" + s))[|f| + 2 + |b|..] == s;
  }

  lemma PrintedSize(r: Region)
    ensures |Printed(r)| == |RStrip(r.body)|
  {
  }

  /** Regions wholly before or behind one another: the other splice leaves a current one current. */
  lemma ApartStaysCurrent(text: string, r: Region, s: Region)
    requires Placed(text, r) && Placed(text, s) && Current(text, r) && Separate(text, s, r)
    requires Before(text, s, r.end) || After(text, s, r.begin)
    requires Spliced(text, s).Success? && Placed(Spliced(text, s).value, r)
    ensures Current(Spliced(text, s).value, r)
  {
    hide *;
    var next := Spliced(text, s).value;
    PlacedOnce(text, r);
    PlacedOnce(text, s);
    PlacedWithin(text, s);
    PlacedOnce(next, r);
    RegionAfter(text, s, r);
    var start, stop := At(text, s) + |s.begin|, Stop(text, s);
    ApartLanded(text, r, s);
    InnerMoves(text, start, stop, s.body, At(text, r) + |r.begin|, Stop(text, r));
    InnerMeans(text, r);
    InnerMeans(next, r);
    CurrentIff(text, r);
    CurrentIff(next, r);
  }

  lemma ApartLanded(text: string, r: Region, s: Region)
    requires Placed(text, r) && Placed(text, s)
    requires Before(text, s, r.end) || After(text, s, r.begin)
    ensures var start, stop, from, to := At(text, s) + |s.begin|, Stop(text, s), At(text, r) + |r.begin|, Stop(text, r);
            var shift := if to <= start then 0 else start + 2 + |RStrip(s.body)| - stop;
            && (to <= start || from >= stop)
            && Landed(text, s, r.begin) + |r.begin| == from + shift && Landed(text, s, r.end) == to + shift
  {
    PlacedOnce(text, r);
    PlacedOnce(text, s);
    hide Find, Placed, Once, RStrip, OneLine, Clean;
  }

  /** The state of the two regions between the passes: both written, both standing, the first one current
      before the second was written over it. */
  ghost predicate Between(before: string, text: string, r: Region, s: Region) {
    && Placed(before, r) && Placed(before, s) && Current(before, r) && Separate(before, r, s)
    && Spliced(before, s) == Success(text)
    && Placed(text, r) && Placed(text, s) && SameLayout(before, text, r, s)
  }

  lemma BetweenParts(before: string, text: string, r: Region, s: Region)
    requires Between(before, text, r, s)
    ensures Placed(before, r) && Placed(before, s) && Current(before, r) && Separate(before, r, s)
    ensures Spliced(before, s) == Success(text)
    ensures Placed(text, r) && Placed(text, s) && Separate(text, r, s)
    ensures Within(before, r, s.begin) <==> Within(text, r, s.begin)
    ensures Within(before, r, s.end) <==> Within(text, r, s.end)
    ensures Before(before, r, s.begin) <==> Before(text, r, s.begin)
    ensures After(before, r, s.end) <==> After(text, r, s.end)
    ensures Before(before, r, s.end) <==> Before(text, r, s.end)
    ensures After(before, r, s.begin) <==> After(text, r, s.begin)
    ensures Survives(text, r, s) && Survives(before, r, s)
    ensures Clear(text, r, s.begin) && Clear(text, r, s.end)
    ensures Stands(text, r, s.begin) && Stands(text, r, s.end) && Stands(before, r, s.begin) && Stands(before, r, s.end)
  {
    hide Placed, Current, Before, Within, After, Spliced, Stands;
    RegionAfter(before, r, s);
    CurrentMeans(before, r);
    SurvivesByLayout(before, text, r, s);
  }

  /** A region's front is kept by a splice behind it, and its back by a splice before it. */
  lemma FrontKept(text: string, s: Region, r: Region)
    requires Placed(text, s) && Placed(text, r) && Separate(text, s, r) && Before(text, s, r.begin)
    requires Spliced(text, s).Success? && Placed(Spliced(text, s).value, r)
    ensures Front(Spliced(text, s).value, r) == Front(text, r)
  {
    hide *;
    RegionAfter(text, s, r);
    PlacedOnce(text, r);
    OutsideKept(text, s, r.begin);
    LandedBefore(text, s, r.begin);
    AtStop(text, r);
    FrontIs(text, r);
    FrontIs(Spliced(text, s).value, r);
  }

  lemma BackKept(text: string, s: Region, r: Region)
    requires Placed(text, s) && Placed(text, r) && Separate(text, s, r) && After(text, s, r.end)
    requires Spliced(text, s).Success? && Placed(Spliced(text, s).value, r)
    ensures Back(Spliced(text, s).value, r) == Back(text, r)
  {
    hide *;
    RegionAfter(text, s, r);
    PlacedOnce(text, r);
    OutsideKept(text, s, r.end);
    AtStop(text, r);
    FrontIs(text, r);
    FrontIs(Spliced(text, s).value, r);
  }

  lemma LandedBefore(text: string, r: Region, m: string)
    requires Before(text, r, m)
    ensures Landed(text, r, m) == Find(text, m)
  {
  }

  /** A marker printed by the body of `r`: the front of its region is the front of `r` and the print up to it. */
  lemma FrontPrinted(text: string, r: Region, s: Region)
    requires Placed(text, r) && Placed(text, s) && Separate(text, r, s) && Within(text, r, s.begin)
    requires Spliced(text, r).Success? && Placed(Spliced(text, r).value, s)
    ensures var k := Find(Printed(r), s.begin);
            && 0 <= k <= k + |s.begin| <= |Printed(r)|
            && Front(Spliced(text, r).value, s) == Front(text, r) + "\n" + Printed(r)[..k + |s.begin|]
  {
    hide *;
    RegionAfter(text, r, s);
    SurvivesParts(text, r, s);
    WithinPrinted(text, r, s.begin);
    FrontIs(Spliced(text, r).value, s);
  }

  lemma BackPrinted(text: string, r: Region, s: Region)
    requires Placed(text, r) && Placed(text, s) && Separate(text, r, s) && Within(text, r, s.end)
    requires Spliced(text, r).Success? && Placed(Spliced(text, r).value, s)
    ensures var k := Find(Printed(r), s.end);
            && 0 <= k <= |Printed(r)|
            && Back(Spliced(text, r).value, s) == Printed(r)[k..] + "\n" + Back(text, r)
  {
    hide *;
    RegionAfter(text, r, s);
    SurvivesParts(text, r, s);
    WithinPrinted(text, r, s.end);
    FrontIs(Spliced(text, r).value, s);
  }

  /** Which of two separate markers comes first, read from either region. */
  lemma Turned(text: string, r: Region, s: Region)
    requires Placed(text, r) && Placed(text, s) && Separate(text, r, s)
    ensures Separate(text, s, r)
    ensures Within(text, r, s.begin) ==> Before(text, s, r.begin)
    ensures Within(text, r, s.end) ==> After(text, s, r.end)
    ensures After(text, r, s.begin) ==> Before(text, s, r.end)
    ensures Before(text, r, s.end) ==> After(text, s, r.begin)
  {
    PlacedOnce(text, r);
    PlacedOnce(text, s);
    hide Find, Placed, Once, OneLine, Clean;
  }

  lemma BeforeParts(before: string, r: Region)
    requires Current(before, r)
    ensures Spliced(before, r) == Success(before)
  {
    hide Spliced;
  }

  /** Writing the first region again leaves everything up to the second one's print as it is ... */
  lemma FrontReturns(before: string, text: string, r: Region, s: Region)
    requires Between(before, text, r, s) && !After(text, r, s.begin)
    requires Spliced(text, r).Success? && Placed(Spliced(text, r).value, s)
    ensures Front(Spliced(text, r).value, s) == Front(text, s)
  {
    hide *;
    BetweenParts(before, text, r, s);
    ClearSides(text, r, s.begin);
    if Before(text, r, s.begin) {
      FrontKept(text, r, s);
    } else {
      BeforeParts(before, r);
      FrontPrinted(text, r, s);
      FrontPrinted(before, r, s);
      Turned(before, r, s);
      FrontKept(before, s, r);
      OwnFront(before, s);
    }
  }

  /** ... and everything behind it. */
  lemma BackReturns(before: string, text: string, r: Region, s: Region)
    requires Between(before, text, r, s) && !Before(text, r, s.end)
    requires Spliced(text, r).Success? && Placed(Spliced(text, r).value, s)
    ensures Back(Spliced(text, r).value, s) == Back(text, s)
  {
    hide *;
    BetweenParts(before, text, r, s);
    ClearSides(text, r, s.end);
    if After(text, r, s.end) {
      BackKept(text, r, s);
    } else {
      BeforeParts(before, r);
      BackPrinted(text, r, s);
      BackPrinted(before, r, s);
      Turned(before, r, s);
      BackKept(before, s, r);
      OwnFront(before, s);
    }
  }

  lemma ClearSides(text: string, r: Region, m: string)
    requires Clear(text, r, m)
    ensures Before(text, r, m) || Within(text, r, m) || After(text, r, m)
  {
    hide Before, Within, After;
  }

  /** Whatever the layout, a second pass that gets through gives the text of the first. */
  lemma SecondPassReturns(before: string, text: string, r: Region, s: Region)
    requires Between(before, text, r, s)
    ensures Spliced(text, r).Success? && Spliced(Spliced(text, r).value, s) == Success(text)
  {
    hide *;
    BetweenParts(before, text, r, s);
    RegionAfter(text, r, s);
    var next := Spliced(text, r).value;
    OwnFront(before, s);
    SplicedText(before, s);
    SplicedText(text, s);
    SplicedText(next, s);
    Turned(before, r, s);
    if After(text, r, s.begin) || Before(text, r, s.end) {
      ApartStaysCurrent(before, r, s);
      BeforeParts(text, r);
    } else {
      FrontReturns(before, text, r, s);
      BackReturns(before, text, r, s);
    }
  }

  // ---------------------------------------------------------------- write and check

  /** For any two regions and any layout: after a successful write the check passes exactly when the second
      splice leaves the first region standing, which is when each of the first region's markers is either
      outside the second region and not printed by its body, or inside it and printed once, in order. If it
      does not pass, the check raises, and this says what; it never reports the file as stale. The second
      region may stand in the file from the start or be printed by the first body. */
  lemma CheckAfterWrite(text: string, r: Region, s: Region)
    requires OneLine(r.begin) && OneLine(r.end) && OneLine(s.begin) && OneLine(s.end)
    requires Spliced(text, r).Success? && Separate(Spliced(text, r).value, r, s) && All(text, [r, s]).Success?
    ensures var before, written := Spliced(text, r).value, All(text, [r, s]).value;
            All(written, [r, s])
            == if Survives(before, s, r) then Success(written)
               else Failure(if Stands(before, s, r.begin) && Stands(before, s, r.end) then EndFirst else MarkerCount)
  {
    hide *;
    AllOfTwo(text, r, s);
    SplicesPlaced(text, r);
    SplicedIsCurrent(text, r);
    var before := Spliced(text, r).value;
    SplicesPlaced(before, s);
    PlacedOnce(before, r);
    Turned(before, r, s);
    RegionAfter(before, s, r);
    var written := Spliced(before, s).value;
    SplicesPlaced(written, r);
    AllOfTwo(written, r, s);
    if Placed(written, r) {
      Dual(before, written, r, s);
      BetweenFrom(before, written, r, s);
      SecondPassReturns(before, written, r, s);
    } else {
      SeparateParts(before, s, r);
      MarkerAfter(before, s, r.begin);
      MarkerAfter(before, s, r.end);
      SurvivesParts(before, s, r);
      OncePlaced(written, r);
      SplicedError(written, r);
    }
  }

  /** Regions that both stand from the start: the first splice changes nothing about that condition, so it can
      be read off the file before the write. */
  lemma ReadBefore(text: string, r: Region, s: Region)
    requires Placed(text, r) && Placed(text, s) && Separate(text, r, s) && All(text, [r, s]).Success?
    ensures Spliced(text, r).Success? && Separate(Spliced(text, r).value, r, s)
    ensures Survives(Spliced(text, r).value, s, r) <==> Survives(text, s, r)
    ensures Stands(Spliced(text, r).value, s, r.begin) <==> Stands(text, s, r.begin)
    ensures Stands(Spliced(text, r).value, s, r.end) <==> Stands(text, s, r.end)
  {
    hide *;
    AllOfTwo(text, r, s);
    RegionAfter(text, r, s);
    PlacedOnce(text, r);
    PlacedOnce(text, s);
    var before := Spliced(text, r).value;
    SplicesPlaced(before, s);
    Turned(text, r, s);
    Dual(text, before, s, r);
    SurvivesByLayout(text, before, s, r);
    StandsByLayout(text, before, s, r);
  }

  lemma StandsByLayout(text: string, next: string, r: Region, s: Region)
    requires SameLayout(text, next, r, s)
    ensures Stands(text, r, s.begin) <==> Stands(next, r, s.begin)
    ensures Stands(text, r, s.end) <==> Stands(next, r, s.end)
  {
    hide Before, Within, After, Once, Free, Printed;
  }

  /** What a splice that finds its markers missing, doubled or out of order says. */
  lemma SplicedError(text: string, r: Region)
    requires OneLine(r.begin) && OneLine(r.end)
    ensures !Once(text, r.begin) || !Once(text, r.end) ==> Spliced(text, r) == Failure(MarkerCount)
    ensures Once(text, r.begin) && Once(text, r.end) && At(text, r) + |r.begin| > Stop(text, r) ==>
              Spliced(text, r) == Failure(EndFirst)
  {
    CountIsOne(text, r.begin);
    CountIsOne(text, r.end);
    OnceFound(text, r.begin);
    OnceFound(text, r.end);
    hide Count, Put, OnceAt, Find;
  }

  lemma OnceFound(text: string, m: string)
    requires OneLine(m)
    ensures Once(text, m) ==> Find(text, m) >= 0
    ensures m != ""
  {
  }

  lemma BetweenFrom(before: string, text: string, r: Region, s: Region)
    requires Placed(before, r) && Placed(before, s) && Current(before, r) && Separate(before, r, s)
    requires Spliced(before, s) == Success(text)
    requires Placed(text, r) && Placed(text, s) && SameLayout(before, text, r, s)
    ensures Between(before, text, r, s)
  {
  }

  /** Plain layouts: regions apart, or the second inside the first, pass when the second body prints no marker
      of the first; the first inside the second passes only when the second body prints it again. */
  lemma PlainLayouts(text: string, r: Region, s: Region)
    requires Placed(text, r) && Placed(text, s) && Separate(text, r, s)
    ensures Before(text, r, s.end) || After(text, r, s.begin) || (Within(text, r, s.begin) && Within(text, r, s.end)) ==>
              (Survives(text, s, r) <==> Free(Printed(s), r.begin) && Free(Printed(s), r.end))
    ensures Before(text, r, s.begin) && After(text, r, s.end) ==>
              (Survives(text, s, r) <==>
               Once(Printed(s), r.begin) && Once(Printed(s), r.end) && InOrder(Printed(s), r))
  {
    PlacedOnce(text, r);
    PlacedOnce(text, s);
    hide Find, Placed, Once, OneLine, Clean, Free, InOrder, Printed;
  }

  lemma ForeignPrints(r: Region, s: Region)
    requires Foreign(r, s)
    ensures Free(Printed(r), s.begin) && Free(Printed(r), s.end) && Free(Printed(s), r.begin) && Free(Printed(s), r.end)
  {
    TrimmedFree(r.body, s.begin);
    TrimmedFree(r.body, s.end);
    TrimmedFree(s.body, r.begin);
    TrimmedFree(s.body, r.end);
    hide Free, RStrip;
  }

  lemma FreeNotOnce(text: string, m: string)
    requires Free(text, m)
    ensures !Once(text, m)
  {
  }

  /** A region inside a later one whose body does not mention it: the write succeeds and every check raises. */
  lemma NestedNeverCurrent(text: string, r: Region, s: Region)
    requires Placed(text, r) && Placed(text, s) && Foreign(r, s)
    requires At(text, s) + |s.begin| <= At(text, r) && Stop(text, r) + |r.end| <= Stop(text, s)
    ensures All(text, [r, s]).Success?
    ensures All(All(text, [r, s]).value, [r, s]) == Failure(MarkerCount)
  {
    PlacedOnce(text, r);
    PlacedOnce(text, s);
    assert Before(text, r, s.begin) && After(text, r, s.end) && Within(text, s, r.begin) && Within(text, s, r.end);
    assert Clear(text, r, s.begin) && Clear(text, r, s.end) && Separate(text, r, s);
    ForeignPrints(r, s);
    FreeNotOnce(Printed(s), r.begin);
    hide Find, At, Stop, Placed, OneLine, Clean, Free, Printed, Once, Spliced, All, RStrip, Foreign, Clear, Separate;
    assert Survives(text, r, s) && !Stands(text, s, r.begin);
    AllOfTwo(text, r, s);
    RegionAfter(text, r, s);
    SplicesPlaced(Spliced(text, r).value, s);
    ReadBefore(text, r, s);
    CheckAfterWrite(text, r, s);
  }
}
