/** Sequences as arrangements of a multiset: distinct elements, sorting by insertion, and rearranged sequences. */
module Sequences {

  ghost predicate AllDistinct<T>(s: seq<T>) {
    forall i, j :: 0 <= i < j < |s| ==> s[i] != s[j]
  }

  lemma Headed<T>(s: seq<T>)
    requires s != []
    ensures multiset(s) == multiset{s[0]} + multiset(s[1..])
  {
    assert s == [s[0]] + s[1..];
  }

  lemma {:induction false} Twice<T>(s: seq<T>, i: nat, j: nat)
    requires i < j < |s| && s[i] == s[j]
    ensures multiset(s)[s[i]] >= 2
  {
    assert s == s[..j] + [s[j]] + s[j + 1..];
    assert s[..j][i] in multiset(s[..j]);
  }

  /** Elements are distinct exactly when none is counted twice. */
  lemma {:induction false} DistinctCounts<T>(s: seq<T>, x: T)
    requires AllDistinct(s)
    ensures multiset(s)[x] <= 1
  {
    if s != [] {
      assert s == [s[0]] + s[1..];
      DistinctCounts(s[1..], x);
      if x == s[0] {
        assert x !in s[1..];
      }
    }
  }

  lemma {:induction false} CountsDistinct<T>(s: seq<T>)
    requires forall x :: multiset(s)[x] <= 1
    ensures AllDistinct(s)
  {
    forall i, j | 0 <= i < j < |s| ensures s[i] != s[j] {
      if s[i] == s[j] {
        Twice(s, i, j);
        assert false;
      }
    }
  }

  lemma {:induction false} AnotherPlace<T>(s: seq<T>, k: nat) returns (l: nat)
    requires k < |s| && multiset(s)[s[k]] >= 2
    ensures l < |s| && l != k && s[l] == s[k]
  {
    var rest := s[..k] + s[k + 1..];
    assert s == s[..k] + [s[k]] + s[k + 1..];
    assert multiset(rest) == multiset(s) - multiset{s[k]};
    assert s[k] in multiset(rest);
    var m :| 0 <= m < |rest| && rest[m] == s[k];
    l := if m < k then m else m + 1;
  }

  /** Two places of a permuted sequence come from two places of the original. */
  lemma {:induction false} Origins<T>(s: seq<T>, t: seq<T>, i: nat, j: nat) returns (k: nat, l: nat)
    requires multiset(s) == multiset(t) && i < j < |t|
    ensures k < |s| && l < |s| && k != l && s[k] == t[i] && s[l] == t[j]
  {
    assert t[i] in multiset(s) && t[j] in multiset(s);
    k :| 0 <= k < |s| && s[k] == t[i];
    if t[i] != t[j] {
      l :| 0 <= l < |s| && s[l] == t[j];
    } else {
      Twice(t, i, j);
      l := AnotherPlace(s, k);
    }
  }

  /** Taking one element out of two arrangements of the same elements. */
  lemma {:induction false} Removed<T>(s: seq<T>, t: seq<T>, k: nat)
    requires multiset(s) == multiset(t) && s != [] && k < |t| && t[k] == s[0]
    ensures multiset(s[1..]) == multiset(t[..k] + t[k + 1..])
  {
    assert s == [s[0]] + s[1..];
    assert t == t[..k] + [t[k]] + t[k + 1..];
    assert multiset(s) == multiset{s[0]} + multiset(s[1..]);
    assert multiset(t) == multiset(t[..k]) + multiset{t[k]} + multiset(t[k + 1..]);
    assert multiset(s[1..]) == multiset(s) - multiset{s[0]};
    assert multiset(t[..k] + t[k + 1..]) == multiset(t) - multiset{t[k]};
  }

  // ---------------------------------------------------------------- sorting

  /** `sorted` with an order `before`. Of two elements that are each before the other the first stays first. */
  function Sort<T>(before: (T, T) -> bool, s: seq<T>): (r: seq<T>)
    ensures |r| == |s|
  {
    if s == [] then [] else Insert(before, s[0], Sort(before, s[1..]))
  }

  function Insert<T>(before: (T, T) -> bool, x: T, s: seq<T>): (r: seq<T>)
    ensures |r| == |s| + 1
  {
    if s == [] || before(x, s[0]) then [x] + s else [s[0]] + Insert(before, x, s[1..])
  }

  ghost predicate Ordered<T>(before: (T, T) -> bool, s: seq<T>) {
    forall i, j :: 0 <= i < j < |s| ==> before(s[i], s[j])
  }

  ghost predicate Transitive<T(!new)>(before: (T, T) -> bool) {
    forall x, y, z :: before(x, y) && before(y, z) ==> before(x, z)
  }

  /** Any two of the elements, at different places, are ordered one way or the other. */
  ghost predicate Comparable<T>(before: (T, T) -> bool, s: seq<T>) {
    forall i, j :: 0 <= i < j < |s| ==> before(s[i], s[j]) || before(s[j], s[i])
  }

  lemma {:induction false} PrependOrdered<T(!new)>(before: (T, T) -> bool, x: T, s: seq<T>)
    requires Transitive(before) && Ordered(before, s) && (s != [] ==> before(x, s[0]))
    ensures Ordered(before, [x] + s)
  {
    var all := [x] + s;
    forall i, j | 0 <= i < j < |all| ensures before(all[i], all[j]) {
      if i > 0 {
        assert all[i] == s[i - 1] && all[j] == s[j - 1];
      } else if j > 1 {
        assert before(x, s[0]) && before(s[0], s[j - 1]);
      }
    }
  }

  lemma {:induction false} InsertOrdered<T(!new)>(before: (T, T) -> bool, x: T, s: seq<T>)
    requires Transitive(before) && Ordered(before, s)
    requires forall i :: 0 <= i < |s| ==> before(x, s[i]) || before(s[i], x)
    ensures Ordered(before, Insert(before, x, s))
    ensures multiset(Insert(before, x, s)) == multiset{x} + multiset(s)
  {
    if s == [] || before(x, s[0]) {
      PrependOrdered(before, x, s);
    } else {
      var rest := s[1..];
      assert Ordered(before, rest) && forall i :: 0 <= i < |rest| ==> rest[i] == s[i + 1];
      assert s == [s[0]] + rest;
      assert rest != [] ==> before(s[0], rest[0]);
      InsertOrdered(before, x, rest);
      hide Transitive, Ordered;
      PrependOrdered(before, s[0], Insert(before, x, rest));
    }
  }

  /** What is comparable with every element is comparable with every element of a rearrangement. */
  lemma AgainstAll<T(!new)>(before: (T, T) -> bool, x: T, s: seq<T>, t: seq<T>)
    requires multiset(s) == multiset(t) && forall i :: 0 <= i < |s| ==> before(x, s[i]) || before(s[i], x)
    ensures forall i :: 0 <= i < |t| ==> before(x, t[i]) || before(t[i], x)
  {
    forall i | 0 <= i < |t| ensures before(x, t[i]) || before(t[i], x) {
      assert t[i] in multiset(s);
      var j :| 0 <= j < |s| && s[j] == t[i];
    }
  }

  lemma {:induction false} SortOrdered<T(!new)>(before: (T, T) -> bool, s: seq<T>)
    requires Transitive(before) && Comparable(before, s)
    ensures Ordered(before, Sort(before, s)) && multiset(Sort(before, s)) == multiset(s)
  {
    if s != [] {
      var rest := s[1..];
      assert forall i :: 0 <= i < |rest| ==> rest[i] == s[i + 1];
      assert Comparable(before, rest);
      hide Transitive, Ordered;
      SortOrdered(before, rest);
      var sorted := Sort(before, rest);
      assert forall j :: 0 <= j < |rest| ==> before(s[0], rest[j]) || before(rest[j], s[0]);
      AgainstAll(before, s[0], rest, sorted);
      hide Comparable;
      InsertOrdered(before, s[0], sorted);
      assert s == [s[0]] + rest;
    }
  }
}
