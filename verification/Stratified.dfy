/** The shortened run: the items of every question type in turn, until enough are picked. */
module Stratified {
  import opened Text

  datatype Item = Item(id: string, kind: string)

  // ---------------------------------------------------------------- buckets

  /** The items of one type, in order. */
  function OfType(items: seq<Item>, kind: string): seq<Item> {
    if items == [] then []
    else
      var n := |items| - 1;
      OfType(items[..n], kind) + if items[n].kind == kind then [items[n]] else []
  }

  lemma {:induction false} OfTypeJoins(a: seq<Item>, b: seq<Item>, kind: string)
    ensures OfType(a + b, kind) == OfType(a, kind) + OfType(b, kind)
  {
    if b == [] {
      assert a + b == a;
    } else {
      var n := |b| - 1;
      OfTypeJoins(a, b[..n], kind);
      assert (a + b)[..|a| + n] == a + b[..n];
    }
  }

  predicate Sorted(names: seq<string>) {
    forall i, j :: 0 <= i < j < |names| ==> TextLess(names[i], names[j])
  }

  /** `sorted` of the keys of a dictionary: a name already there is there once. */
  function Insert(name: string, names: seq<string>): seq<string> {
    if names == [] || TextLess(name, names[0]) then [name] + names
    else if name == names[0] then names
    else [names[0]] + Insert(name, names[1..])
  }

  function Types(items: seq<Item>): seq<string> {
    if items == [] then [] else Insert(items[|items| - 1].kind, Types(items[..|items| - 1]))
  }

  lemma {:induction false} InsertSorts(name: string, names: seq<string>)
    requires Sorted(names)
    ensures Sorted(Insert(name, names))
    ensures forall n :: n in Insert(name, names) <==> n == name || n in names
  {
    if names != [] && !TextLess(name, names[0]) && name != names[0] {
      TextTotal(name, names[0]);
      var rest := names[1..];
      assert names == [names[0]] + rest;
      InsertSorts(name, rest);
      forall n | n in Insert(name, rest) ensures TextLess(names[0], n) {
        if n != name {
          var k :| 0 <= k < |rest| && rest[k] == n;
          assert names[k + 1] == n;
        }
      }
      hide TextLess;
    } else if names == [] || TextLess(name, names[0]) {
      forall n | n in names ensures TextLess(name, n) {
        if n != names[0] {
          TextTransitive(name, names[0], n);
        }
      }
      hide TextLess;
    }
  }

  lemma {:induction false} TypesSorted(items: seq<Item>)
    ensures Sorted(Types(items))
    ensures forall kind :: kind in Types(items) <==> exists i :: 0 <= i < |items| && items[i].kind == kind
  {
    if items != [] {
      var n := |items| - 1;
      TypesSorted(items[..n]);
      InsertSorts(items[n].kind, Types(items[..n]));
      hide Insert, Sorted;
    }
  }

  /** The bucket of every type, in the order of the types. */
  function Buckets(items: seq<Item>): (buckets: seq<seq<Item>>)
    ensures |buckets| == |Types(items)|
  {
    seq(|Types(items)|, i requires 0 <= i < |Types(items)| => OfType(items, Types(items)[i]))
  }

  // ---------------------------------------------------------------- taking turns

  /** What the first `j` buckets give in round `r`. */
  function Turn(buckets: seq<seq<Item>>, r: nat, j: nat): seq<Item>
    requires j <= |buckets|
  {
    if j == 0 then [] else Turn(buckets, r, j - 1) + if r < |buckets[j - 1]| then [buckets[j - 1][r]] else []
  }

  function Rounds(buckets: seq<seq<Item>>, r: nat): seq<Item> {
    if r == 0 then [] else Rounds(buckets, r - 1) + Turn(buckets, r - 1, |buckets|)
  }

  /** Everything picked when round `r` has come to bucket `j`. */
  function Picked(buckets: seq<seq<Item>>, r: nat, j: nat): seq<Item>
    requires j <= |buckets|
  {
    Rounds(buckets, r) + Turn(buckets, r, j)
  }

  /** How many a bucket has given by then. */
  function Share(size: nat, r: nat, given: bool): nat {
    var turns := if given then r + 1 else r;
    if turns < size then turns else size
  }

  lemma {:induction false} Alone(items: seq<Item>, kind: string)
    requires forall i :: 0 <= i < |items| ==> items[i].kind == kind
    ensures OfType(items, kind) == items
    ensures forall other :: other != kind ==> OfType(items, other) == []
  {
    if items != [] {
      Alone(items[..|items| - 1], kind);
      assert items == items[..|items| - 1] + [items[|items| - 1]];
    }
  }

  lemma {:induction false} OnlyType(items: seq<Item>, kind: string)
    ensures forall i :: 0 <= i < |OfType(items, kind)| ==> OfType(items, kind)[i].kind == kind
  {
    if items != [] {
      OnlyType(items[..|items| - 1], kind);
    }
  }

  lemma {:induction false} BucketAt(items: seq<Item>, i: nat)
    requires i < |Buckets(items)|
    ensures Buckets(items)[i] == OfType(items, Types(items)[i])
    ensures forall k :: 0 <= k < |Buckets(items)[i]| ==> Buckets(items)[i][k].kind == Types(items)[i]
  {
    OnlyType(items, Types(items)[i]);
  }

  lemma {:induction false} TypesDiffer(items: seq<Item>, i: nat, j: nat)
    requires i < |Types(items)| && j < |Types(items)| && i != j
    ensures Types(items)[i] != Types(items)[j]
  {
    TypesSorted(items);
    TextTotal(Types(items)[i], Types(items)[j]);
    hide TextLess;
  }

  function Given(bucket: seq<Item>, r: nat): seq<Item> {
    if r < |bucket| then [bucket[r]] else []
  }

  /** What one bucket gives belongs to its own type alone. */
  lemma {:induction false} GivenOfType(items: seq<Item>, r: nat, k: nat, i: nat)
    requires k < |Buckets(items)| && i < |Buckets(items)|
    ensures OfType(Given(Buckets(items)[k], r), Types(items)[i]) == if i == k then Given(Buckets(items)[k], r) else []
  {
    hide Types, Buckets, OfType;
    BucketAt(items, k);
    Alone(Given(Buckets(items)[k], r), Types(items)[k]);
    if i != k {
      TypesDiffer(items, i, k);
    }
  }

  /** In one round each bucket gives its next item, and only its own. */
  lemma {:induction false} TurnGives(items: seq<Item>, r: nat, j: nat, i: nat)
    requires j <= |Buckets(items)| && i < |Buckets(items)|
    ensures OfType(Turn(Buckets(items), r, j), Types(items)[i]) == if i < j then Given(Buckets(items)[i], r) else []
  {
    hide Types, Buckets, OfType, Given;
    if j == 0 {
      NothingOfType(Types(items)[i]);
    } else {
      TurnGives(items, r, j - 1, i);
      GivenOfType(items, r, j - 1, i);
      OfTypeJoins(Turn(Buckets(items), r, j - 1), Given(Buckets(items)[j - 1], r), Types(items)[i]);
      TurnStep(Buckets(items), r, j);
    }
  }

  lemma NothingOfType(kind: string)
    ensures OfType([], kind) == []
  {
  }

  lemma TurnStep(buckets: seq<seq<Item>>, r: nat, j: nat)
    requires 0 < j <= |buckets|
    ensures Turn(buckets, r, j) == Turn(buckets, r, j - 1) + Given(buckets[j - 1], r)
  {
  }

  lemma {:induction false} ShareGrows(bucket: seq<Item>, r: nat, given: bool)
    ensures bucket[..Share(|bucket|, r, false)] + (if given then Given(bucket, r) else []) == bucket[..Share(|bucket|, r, given)]
    ensures Share(|bucket|, r, true) == Share(|bucket|, r + 1, false)
  {
  }

  lemma {:induction false} RoundsOfType(items: seq<Item>, r: nat, i: nat)
    requires i < |Buckets(items)|
    ensures OfType(Rounds(Buckets(items), r), Types(items)[i]) == Buckets(items)[i][..Share(|Buckets(items)[i]|, r, false)]
  {
    hide Types, Buckets, Turn, Given, Share, OfType;
    if r == 0 {
      NothingOfType(Types(items)[i]);
      assert Share(|Buckets(items)[i]|, 0, false) == 0 by {
        NoShare(|Buckets(items)[i]|);
      }
    } else {
      RoundsOfType(items, r - 1, i);
      TurnGives(items, r - 1, |Buckets(items)|, i);
      OfTypeJoins(Rounds(Buckets(items), r - 1), Turn(Buckets(items), r - 1, |Buckets(items)|), Types(items)[i]);
      ShareGrows(Buckets(items)[i], r - 1, true);
    }
  }

  lemma NoShare(size: nat)
    ensures Share(size, 0, false) == 0
  {
  }

  /** What is picked of a type is always the beginning of its bucket. */
  lemma {:induction false} PickedOfType(items: seq<Item>, r: nat, j: nat, i: nat)
    requires j <= |Buckets(items)| && i < |Buckets(items)|
    ensures OfType(Picked(Buckets(items), r, j), Types(items)[i]) == Buckets(items)[i][..Share(|Buckets(items)[i]|, r, i < j)]
  {
    hide Types, Buckets, Rounds, Turn, OfType, Given, Share;
    RoundsOfType(items, r, i);
    TurnGives(items, r, j, i);
    OfTypeJoins(Rounds(Buckets(items), r), Turn(Buckets(items), r, j), Types(items)[i]);
    ShareGrows(Buckets(items)[i], r, i < j);
  }

  /** No type is more than one ahead of another, unless the other has nothing left. */
  lemma {:induction false} Fair(items: seq<Item>, r: nat, j: nat, s: nat, t: nat)
    requires j <= |Buckets(items)| && s < |Buckets(items)| && t < |Buckets(items)|
    ensures var picked, types := Picked(Buckets(items), r, j), Types(items);
            |OfType(picked, types[s])| > |OfType(picked, types[t])| + 1 ==>
              OfType(picked, types[t]) == OfType(items, types[t])
  {
    PickedOfType(items, r, j, s);
    PickedOfType(items, r, j, t);
    BucketAt(items, t);
    hide Types, Buckets, Picked, OfType;
    var bucket := Buckets(items)[t];
    assert bucket[..|bucket|] == bucket;
  }

  // ---------------------------------------------------------------- nothing twice, nothing lost

  lemma {:induction false} CountByType(items: seq<Item>, x: Item)
    ensures multiset(items)[x] == multiset(OfType(items, x.kind))[x]
  {
    if items != [] {
      var n := |items| - 1;
      CountByType(items[..n], x);
      assert items == items[..n] + [items[n]];
    }
  }

  lemma {:induction false} TypeIndex(items: seq<Item>, kind: string) returns (i: nat)
    requires kind in Types(items)
    ensures i < |Types(items)| && Types(items)[i] == kind
  {
    i :| 0 <= i < |Types(items)| && Types(items)[i] == kind;
  }

  lemma {:induction false} GivenOfUnknown(items: seq<Item>, r: nat, k: nat, kind: string)
    requires k < |Buckets(items)| && kind !in Types(items)
    ensures OfType(Given(Buckets(items)[k], r), kind) == []
  {
    hide Types, Buckets, OfType;
    BucketAt(items, k);
    Alone(Given(Buckets(items)[k], r), Types(items)[k]);
  }

  lemma {:induction false} PickedOfUnknown(items: seq<Item>, r: nat, j: nat, kind: string)
    requires j <= |Buckets(items)| && kind !in Types(items)
    ensures OfType(Picked(Buckets(items), r, j), kind) == []
    decreases r, j
  {
    hide Types, Buckets, OfType, Given, Rounds, Turn, Picked;
    var buckets := Buckets(items);
    if j > 0 {
      PickedOfUnknown(items, r, j - 1, kind);
      GivenOfUnknown(items, r, j - 1, kind);
      NextTurn(buckets, r, j - 1);
      OfTypeJoins(Picked(buckets, r, j - 1), Given(buckets[j - 1], r), kind);
    } else if r > 0 {
      PickedOfUnknown(items, r - 1, |buckets|, kind);
      NextRound(buckets, r - 1);
    } else {
      StartsEmpty(buckets);
      NothingOfType(kind);
    }
  }

  /** No item is picked more often than it is there. */
  lemma {:induction false} PickedFrom(items: seq<Item>, r: nat, j: nat)
    requires j <= |Buckets(items)|
    ensures multiset(Picked(Buckets(items), r, j)) <= multiset(items)
  {
    hide Types, Buckets, Picked, OfType;
    var picked := Picked(Buckets(items), r, j);
    forall x ensures multiset(picked)[x] <= multiset(items)[x] {
      CountByType(picked, x);
      CountByType(items, x);
      if x.kind in Types(items) {
        var i := TypeIndex(items, x.kind);
        PickedOfType(items, r, j, i);
        BucketAt(items, i);
        var bucket, n := Buckets(items)[i], Share(|Buckets(items)[i]|, r, i < j);
        assert bucket == bucket[..n] + bucket[n..];
        assert multiset(bucket) == multiset(bucket[..n]) + multiset(bucket[n..]);
      } else {
        PickedOfUnknown(items, r, j, x.kind);
      }
    }
  }

  /** After as many rounds as there are items everything is picked. */
  lemma {:induction false} AllPicked(items: seq<Item>, r: nat)
    requires r >= |items|
    ensures |Rounds(Buckets(items), r)| == |items|
  {
    hide Types, Buckets, OfType, Rounds;
    var all := Rounds(Buckets(items), r);
    forall x ensures multiset(all)[x] == multiset(items)[x] {
      CountByType(all, x);
      CountByType(items, x);
      if x.kind in Types(items) {
        var i := TypeIndex(items, x.kind);
        RoundsOfType(items, r, i);
        BucketAt(items, i);
        ShorterThan(items, x.kind);
        var bucket := Buckets(items)[i];
        assert bucket[..|bucket|] == bucket;
      } else {
        Missing(items, x);
        PickedOfUnknown(items, r, 0, x.kind);
        assert Picked(Buckets(items), r, 0) == all;
      }
    }
    assert multiset(all) == multiset(items);
    assert |all| == |multiset(all)| == |multiset(items)| == |items|;
  }

  lemma {:induction false} Missing(items: seq<Item>, x: Item)
    requires x.kind !in Types(items)
    ensures multiset(items)[x] == 0
  {
    TypesSorted(items);
    hide Types;
    assert x !in items;
  }

  lemma {:induction false} ShorterThan(items: seq<Item>, kind: string)
    ensures |OfType(items, kind)| <= |items|
  {
    if items != [] {
      ShorterThan(items[..|items| - 1], kind);
    }
  }

  // ---------------------------------------------------------------- the loops

  /** Every type met so far has its items, in order, and nothing else is in the map. */
  ghost predicate Grouped(items: seq<Item>, byType: map<string, seq<Item>>) {
    && (forall k :: 0 <= k < |items| ==> items[k].kind in byType)
    && (forall kind <- byType :: byType[kind] == OfType(items, kind))
    && (forall kind <- byType :: exists k :: 0 <= k < |items| && items[k].kind == kind)
  }

  lemma GroupStep(items: seq<Item>, item: Item, byType: map<string, seq<Item>>)
    requires Grouped(items, byType)
    ensures Grouped(items + [item], byType[item.kind := (if item.kind in byType then byType[item.kind] else []) + [item]])
  {
    var after := byType[item.kind := (if item.kind in byType then byType[item.kind] else []) + [item]];
    if item.kind !in byType {
      Unseen(items, item.kind);
    }
    forall kind | kind in after ensures after[kind] == OfType(items + [item], kind) {
      assert (items + [item])[..|items|] == items;
    }
    hide OfType;
    forall kind | kind in after ensures exists k :: 0 <= k < |items + [item]| && (items + [item])[k].kind == kind {
      if kind == item.kind {
        assert (items + [item])[|items|].kind == kind;
      } else {
        var k :| 0 <= k < |items| && items[k].kind == kind;
        assert (items + [item])[k].kind == kind;
      }
    }
  }

  lemma GroupedTypes(items: seq<Item>, byType: map<string, seq<Item>>)
    requires Grouped(items, byType)
    ensures forall kind <- Types(items) :: kind in byType && byType[kind] == OfType(items, kind)
  {
    TypesSorted(items);
    hide Types, OfType;
  }

  /** Grouping the items by type. */
  method Group(items: seq<Item>) returns (byType: map<string, seq<Item>>)
    ensures forall kind <- Types(items) :: kind in byType && byType[kind] == OfType(items, kind)
  {
    byType := map[];
    assert Grouped(items[..0], byType);
    hide *;
    for i := 0 to |items|
      invariant Grouped(items[..i], byType)
    {
      GroupStep(items[..i], items[i], byType);
      assert items[..i + 1] == items[..i] + [items[i]];
      var kind := items[i].kind;
      if kind !in byType {
        byType := byType[kind := []];
      }
      byType := byType[kind := byType[kind] + [items[i]]];
    }
    assert items[..|items|] == items;
    GroupedTypes(items, byType);
  }

  lemma {:induction false} Unseen(items: seq<Item>, kind: string)
    requires forall i :: 0 <= i < |items| ==> items[i].kind != kind
    ensures OfType(items, kind) == []
  {
    if items != [] {
      Unseen(items[..|items| - 1], kind);
    }
  }

  /** One round over the types; a full selection takes nothing more. */
  method OneRound(items: seq<Item>, byType: map<string, seq<Item>>, before: seq<Item>, index: nat, count: nat)
    returns (picked: seq<Item>, ghost j: nat)
    requires forall kind <- Types(items) :: kind in byType && byType[kind] == OfType(items, kind)
    requires |before| < count && before == Picked(Buckets(items), index, 0)
    ensures j <= |Buckets(items)| && picked == Picked(Buckets(items), index, j)
    ensures |picked| <= count && (|picked| < count ==> j == |Buckets(items)|)
  {
    hide Types, OfType, Rounds, Turn, Picked, Buckets;
    var types := Types(items);
    ghost var buckets := Buckets(items);
    picked, j := before, 0;
    var k := 0;
    while k < |types|
      invariant 0 <= k <= |types|
      invariant |picked| <= count
      invariant j <= k && picked == Picked(buckets, index, j)
      invariant |picked| < count ==> j == k
    {
      var bucket := byType[types[k]];
      BucketAt(items, k);
      NextTurn(buckets, index, k);
      if |picked| < count {
        j := k + 1;
      }
      if index < |bucket| && |picked| < count {
        picked := picked + [bucket[index]];
      }
      k := k + 1;
    }
  }

  /** `stratified`: exactly `count` items, the types in turn, each from the beginning of its bucket. */
  method Stratify(items: seq<Item>, count: int) returns (picked: seq<Item>, ghost r: nat, ghost j: nat)
    ensures count >= |items| ==> picked == items
    ensures count < |items| ==> |picked| == if count < 0 then 0 else count
    ensures count < |items| ==> j <= |Buckets(items)| && picked == Picked(Buckets(items), r, j)
  {
    hide Types, OfType, Rounds, Turn, Picked, Buckets;
    picked, r, j := [], 0, 0;
    if count >= |items| {
      return items, r, j;
    }
    var byType := Group(items);
    var index := 0;
    StartsEmpty(Buckets(items));
    while |picked| < count
      invariant |picked| <= (if count < 0 then 0 else count)
      invariant j <= |Buckets(items)| && picked == Picked(Buckets(items), r, j)
      invariant |picked| < count ==> r == index && j == 0
      invariant 0 <= index <= |items|
      decreases |items| - index
    {
      if index >= |items| {
        AllPicked(items, index);
        NoTurn(Buckets(items), index);
        assert false;
      }
      picked, j := OneRound(items, byType, picked, index, count);
      r := index;
      index := index + 1;
      if |picked| < count {
        NextRound(Buckets(items), r);
        r, j := index, 0;
      }
    }
  }

  lemma StartsEmpty(buckets: seq<seq<Item>>)
    ensures Picked(buckets, 0, 0) == []
  {
  }

  lemma NoTurn(buckets: seq<seq<Item>>, r: nat)
    ensures Picked(buckets, r, 0) == Rounds(buckets, r)
  {
    hide Rounds;
  }

  lemma NextTurn(buckets: seq<seq<Item>>, r: nat, k: nat)
    requires k < |buckets|
    ensures Picked(buckets, r, k + 1) == Picked(buckets, r, k) + Given(buckets[k], r)
  {
    hide Rounds, Given;
    TurnStep(buckets, r, k + 1);
  }

  lemma NextRound(buckets: seq<seq<Item>>, r: nat)
    ensures Picked(buckets, r + 1, 0) == Picked(buckets, r, |buckets|)
  {
  }
}
