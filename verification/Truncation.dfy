/** Cut files that the reader takes for whole ones. */
module Truncation {
  import opened Gguf
  import opened Wrappers

  // ---------------------------------------------------------------- counts read from missing bytes

  lemma PartialStep(n: nat, m: nat)
    requires m > 0
    ensures n % 256 + 256 * ((n / 256) % m) == n % (256 * m)
  {
    var q, r := n / 256, n % 256;
    var a, b := q / m, q % m;
    assert n == (256 * m) * a + (256 * b + r) by {
      assert q == m * a + b;
      assert 256 * (m * a) == (256 * m) * a;
    }
    Remainder(n, 256 * m, a, 256 * b + r);
  }

  lemma Remainder(n: nat, d: nat, a: nat, r: nat)
    requires d > 0 && r < d && n == d * a + r
    ensures n % d == r
  {
    var q := n / d;
    assert n == d * q + n % d;
    Grows(d, a + 1, q);
    Grows(d, q + 1, a);
  }

  lemma Grows(d: nat, x: nat, y: nat)
    ensures x <= y ==> d * x <= d * y
  {
    if x <= y {
      assert d * y == d * x + d * (y - x);
    }
  }

  lemma {:induction false} PowPositive(k: nat)
    ensures Pow256(k) > 0
  {
    if k > 0 {
      PowPositive(k - 1);
    }
  }

  /** A number cut after `j` of its bytes is read modulo 256^j. */
  lemma {:induction false} PartialCount(n: nat, k: nat, j: nat)
    requires j <= k
    ensures Pow256(j) > 0 && FromLittleEndian(LittleEndian(n, k)[..j]) == n % Pow256(j)
  {
    PowPositive(j);
    if j > 0 {
      PartialCount(n / 256, k - 1, j - 1);
      var cut := LittleEndian(n, k)[..j];
      assert cut[1..] == LittleEndian(n / 256, k - 1)[..j - 1];
      PartialStep(n, Pow256(j - 1));
    }
  }

  // ---------------------------------------------------------------- reading nothing

  /** The types whose values are read even when no byte is left. */
  predicate ReadsNothing(t: int, depth: nat) {
    t == T_STRING || (t == T_ARRAY && depth < MAX_DEPTH)
  }

  lemma EmptyRead(t: int, depth: nat)
    requires depth <= MAX_DEPTH
    ensures ReadValue([], t, depth).Success? <==> ReadsNothing(t, depth)
    ensures ReadValue([], t, depth).Success? ==> ReadValue([], t, depth).value.1 == []
  {
  }

  lemma {:induction false} EmptyItems(t: int, n: nat, depth: nat)
    requires depth <= MAX_DEPTH
    ensures ReadItems([], t, n, depth).Success? <==> n == 0 || ReadsNothing(t, depth)
    ensures ReadItems([], t, n, depth).Success? ==> ReadItems([], t, n, depth).value.1 == []
  {
    hide ReadValue, ReadsNothing;
    if n > 0 {
      EmptyRead(t, depth);
      if ReadsNothing(t, depth) {
        EmptyItems(t, n - 1, depth);
      }
    }
  }

  // ---------------------------------------------------------------- cut values

  /** The reader does not notice that only `c` bytes of `v` are there: texts are never missed, an array is
      missed unless every item it is still asked for can be read from what is left. */
  ghost predicate Tolerates(v: Typed, c: nat, depth: nat) {
    match v
    case Text(_) => true
    case Items(element, items) =>
      depth < MAX_DEPTH &&
      if c < 12 then
        var n := Present(|items|, if c <= 4 then 0 else c - 4);
        n <= MAX_ITEMS && (n == 0 || ReadsNothing(element, depth + 1))
      else
        |items| <= MAX_ITEMS && ToleratesAll(items, c - 12, depth + 1)
    case _ => false
  }

  ghost predicate ToleratesAll(items: seq<Typed>, c: nat, depth: nat) {
    items != [] &&
    var n := |Print(items[0])|;
    if c >= n then
      WithinCaps(items[0], depth) && ToleratesAll(items[1..], c - n, depth)
    else
      Tolerates(items[0], c, depth) && (|items| == 1 || ReadsNothing(TypeId(items[0]), depth))
  }

  /** What a count says when only its first `j` bytes are there. */
  function Present(n: nat, j: nat): nat {
    PowPositive(j);
    n % Pow256(j)
  }

  lemma NonePresent(n: nat)
    ensures Present(n, 0) == 0
  {
  }

  lemma CutBefore(a: Bytes, b: Bytes, c: nat)
    requires c <= |a|
    ensures (a + b)[..c] == a[..c]
  {
  }

  lemma CutAfter(a: Bytes, b: Bytes, c: nat)
    requires |a| <= c <= |a| + |b|
    ensures (a + b)[..c] == a + b[..c - |a|]
  {
  }

  /** A cut value is read exactly when it is tolerated, and then to the end of the file. */
  lemma {:induction false} TornValue(v: Typed, c: nat, depth: nat)
    requires Writable(v) && depth <= MAX_DEPTH && c < |Print(v)|
    ensures var r := ReadValue(Print(v)[..c], TypeId(v), depth);
            (r.Success? <==> Tolerates(v, c, depth)) && (r.Success? ==> r.value.1 == [])
    decreases v, 1, 0
  {
    hide LittleEndian, FromLittleEndian, Pow256, Unpack, ReadItems, PrintAll, ToleratesAll;
    match v
    case Text(_) =>
      TornText(v.s, c);
    case Items(_, _) =>
      TornArray(v, c, depth);
    case _ =>
      TornFixed(v, c);
  }

  lemma TornFixed(v: Typed, c: nat)
    requires Writable(v) && !v.Text? && !v.Items? && c < |Print(v)|
    ensures ReadFixed(Print(v)[..c], TypeId(v)).Failure?
    ensures TypeId(v) != T_STRING && TypeId(v) != T_ARRAY
  {
    if v.Int? {
      UnpackPack(v.t, v.n);
    }
  }

  /** A text cut anywhere is read to the end of the file. */
  lemma TornText(s: Bytes, c: nat)
    requires |s| < Pow256(8) && c < |Gstr(s)|
    ensures ReadStr(Gstr(s)[..c]).1 == []
  {
    assert Gstr(s) + [] == Gstr(s);
    TornKey(s, [], c);
  }

  lemma {:induction false} TornArray(v: Typed, c: nat, depth: nat)
    requires v.Items? && Writable(v) && depth <= MAX_DEPTH && c < |Print(v)|
    ensures var r := ReadValue(Print(v)[..c], T_ARRAY, depth);
            (r.Success? <==> Tolerates(v, c, depth)) && (r.Success? ==> r.value.1 == [])
    decreases v, 0, |v.items| + 1
  {
    hide LittleEndian, FromLittleEndian, Pow256, ReadItems, PrintAll, ToleratesAll, ReadsNothing, WithinCaps;
    var element, items := v.element, v.items;
    var e, count, body := LittleEndian(element, 4), LittleEndian(|items|, 8), PrintAll(items);
    assert Print(v) == e + (count + body);
    if c < 12 {
      var j := if c <= 4 then 0 else c - 4;
      PartialCount(|items|, 8, j);
      NonePresent(|items|);
      TornCount(element, count, body, c);
      if depth < MAX_DEPTH {
        EmptyItems(FromLittleEndian(Take(Print(v)[..c], 4)), Present(|items|, j), depth + 1);
      }
    } else {
      CutAfter(e, count + body, c);
      CutAfter(count, body, c - 4);
      var rest := body[..c - 12];
      TaggedRead(element, 4, count + rest);
      TaggedRead(|items|, 8, rest);
      if depth < MAX_DEPTH && |items| <= MAX_ITEMS {
        TornItems(v, items, c - 12, element, depth + 1);
      }
    }
  }

  /** An array cut inside its count: the element type is whole if any byte of the count is there. */
  lemma TornCount(element: nat, count: Bytes, body: Bytes, c: nat)
    requires c < 12 && |count| == 8 && element < Pow256(4)
    ensures var b := (LittleEndian(element, 4) + (count + body))[..c];
            && Take(Drop(b, 4), 8) == count[..if c <= 4 then 0 else c - 4] && Drop(Drop(b, 4), 8) == []
            && (c > 4 ==> FromLittleEndian(Take(b, 4)) == element)
  {
    hide LittleEndian, FromLittleEndian, Pow256;
    var e := LittleEndian(element, 4);
    if c > 4 {
      CutAfter(e, count + body, c);
      CutBefore(count, body, c - 4);
      TaggedRead(element, 4, count[..c - 4]);
    }
  }

  lemma {:induction false} TornItems(whole: Typed, items: seq<Typed>, c: nat, element: int, depth: nat)
    requires whole.Items? && depth <= MAX_DEPTH && c < |PrintAll(items)|
    requires forall i :: 0 <= i < |items| ==> items[i] < whole && TypeId(items[i]) == element && Writable(items[i])
    ensures var r := ReadItems(PrintAll(items)[..c], element, |items|, depth);
            (r.Success? <==> ToleratesAll(items, c, depth)) && (r.Success? ==> r.value.1 == [])
    decreases whole, 0, |items|
  {
    hide Print, ReadValue, Meaning, WithinCaps, Writable, TypeId, Tolerates, ReadsNothing;
    var first, rest := Print(items[0]), items[1..];
    var n := |first|;
    if c >= n {
      CutAfter(first, PrintAll(rest), c);
      ValueRoundTrip(items[0], depth, PrintAll(rest)[..c - n]);
      if WithinCaps(items[0], depth) {
        TornItems(whole, rest, c - n, element, depth);
      }
    } else {
      CutBefore(first, PrintAll(rest), c);
      TornValue(items[0], c, depth);
      EmptyItems(element, |rest|, depth);
    }
  }

  // ---------------------------------------------------------------- cut pairs

  /** The reader does not notice that only `c` bytes of the pairs are there: everything before the last
      pair is whole, the last key is whole, its type has a byte, and its value tolerates the cut. */
  ghost predicate ToleratesPairs(ps: seq<Pair>, c: nat) {
    ps != [] &&
    var n := |KvEntry(ps[0])|;
    if c >= n then
      WithinCaps(ps[0].value, 0) && ToleratesPairs(ps[1..], c - n)
    else
      |ps| == 1 && ToleratesEntry(ps[0], c)
  }

  ghost predicate ToleratesEntry(p: Pair, c: nat) {
    var key := 8 + |p.key|;
    c > key && Tolerates(p.value, if c <= key + 4 then 0 else c - key - 4, 0)
  }

  lemma EmptyPairs(n: nat, kv: map<Bytes, Read>)
    ensures ReadPairs([], n, kv).Success? <==> n == 0
  {
    if n > 0 {
      var rest := ReadStr([]).1;
      assert rest == [] && FromLittleEndian(Take(rest, 4)) == 0;
      EmptyRead(0, 0);
    }
  }

  /** A key cut anywhere leaves nothing for the type, and type 0 needs a byte. */
  lemma TornKey(key: Bytes, more: Bytes, c: nat)
    requires |key| < Pow256(8) && c <= 8 + |key|
    ensures ReadStr((Gstr(key) + more)[..c]).1 == []
  {
    hide FromLittleEndian, Pow256;
    var g := Gstr(key);
    CutBefore(g, more, c);
    if c >= 8 {
      var size := LittleEndian(|key|, 8);
      hide LittleEndian;
      CutAfter(size, key, c);
      TaggedRead(|key|, 8, key[..c - 8]);
    }
  }

  /** One byte of a type id is all of it. */
  lemma TornTag(t: nat, more: Bytes, c: nat)
    requires t < 256 && 0 < c
    requires c <= 4 + |more|
    ensures var b := (LittleEndian(t, 4) + more)[..c];
            FromLittleEndian(Take(b, 4)) == t && Drop(b, 4) == more[..if c <= 4 then 0 else c - 4]
  {
    var tag := LittleEndian(t, 4);
    var j := if c <= 4 then c else 4;
    PartialCount(t, 4, j);
    Widths();
    SmallModulo(t, j);
    hide LittleEndian, FromLittleEndian, Pow256;
    if c <= 4 {
      CutBefore(tag, more, c);
    } else {
      CutAfter(tag, more, c);
      assert tag[..4] == tag;
    }
  }

  lemma {:induction false} SmallModulo(t: nat, j: nat)
    requires t < 256 && j > 0
    ensures Pow256(j) > 0 && t % Pow256(j) == t
  {
    PowPositive(j);
    PowPositive(j - 1);
    assert Pow256(j) == 256 * Pow256(j - 1) >= 256;
    Remainder(t, Pow256(j), 0, t);
  }

  /** What follows the key of an entry. */
  function Tagged(v: Typed): Bytes
    requires TypeId(v) >= 0
  {
    LittleEndian(TypeId(v), 4) + Print(v)
  }

  lemma TornTagged(v: Typed, c: nat)
    requires Writable(v) && TypeId(v) >= 0 && c < |Tagged(v)|
    ensures var b := Tagged(v)[..c];
            var r := ReadValue(Drop(b, 4), FromLittleEndian(Take(b, 4)), 0);
            && (r.Success? <==> c > 0 && Tolerates(v, if c <= 4 then 0 else c - 4, 0))
            && (r.Success? ==> r.value.1 == [])
  {
    TypeIdRange(v);
    assert |Tagged(v)| == 4 + |Print(v)|;
    hide LittleEndian, FromLittleEndian, Pow256, ReadValue, Print, Writable, Tolerates;
    if c == 0 {
      assert Tagged(v)[..c] == [];
      TypeZero();
      EmptyRead(0, 0);
    } else {
      TornTag(TypeId(v), Print(v), c);
      hide Take, Drop, Tagged, TypeId;
      TornValue(v, if c <= 4 then 0 else c - 4, 0);
    }
  }

  /** What is left of an entry after its key is read as a value, to the last byte, exactly if `ok`. */
  ghost predicate EntryRead(b: Bytes, ok: bool) {
    var rest := ReadStr(b).1;
    var r := ReadValue(Drop(rest, 4), FromLittleEndian(Take(rest, 4)), 0);
    (r.Success? <==> ok) && (r.Success? ==> r.value.1 == [])
  }

  lemma EntryParts(p: Pair)
    requires WritablePair(p)
    ensures TypeId(p.value) >= 0 && KvEntry(p) == Gstr(p.key) + Tagged(p.value) && |Gstr(p.key)| == 8 + |p.key|
    ensures Writable(p.value) && |p.key| < Pow256(8)
  {
    TypeIdRange(p.value);
    hide LittleEndian, Print, Writable, Pow256;
  }

  lemma TolerantEntry(p: Pair, c: nat)
    requires c > 8 + |p.key|
    ensures ToleratesEntry(p, c) <==> Tolerates(p.value, if c <= 12 + |p.key| then 0 else c - |p.key| - 12, 0)
  {
    hide Tolerates;
  }

  /** A cut in the key: nothing is left, and type 0 needs a byte. */
  lemma TornBeforeValue(p: Pair, c: nat)
    requires WritablePair(p) && c <= 8 + |p.key| && c < |KvEntry(p)|
    ensures EntryRead(KvEntry(p)[..c], false) && !ToleratesEntry(p, c)
  {
    EntryParts(p);
    hide LittleEndian, FromLittleEndian, Pow256, ReadValue, Print, Writable, Tolerates, ReadStr, KvEntry, Tagged, TypeId,
      Gstr, Take, Drop;
    TornKey(p.key, Tagged(p.value), c);
    TypeZero();
    EmptyRead(0, 0);
  }

  /** A cut behind it: the key is read, and the rest is what remains of the value. */
  lemma TornInValue(p: Pair, c: nat)
    requires WritablePair(p) && 8 + |p.key| < c < |KvEntry(p)|
    ensures EntryRead(KvEntry(p)[..c], ToleratesEntry(p, c))
  {
    hide *;
    EntryParts(p);
    TolerantEntry(p, c);
    var key, more := 8 + |p.key|, Tagged(p.value);
    CutAfter(Gstr(p.key), more, c);
    ReadStrRoundTrip(p.key, more[..c - key]);
    TornTagged(p.value, c - key);
    EntryReadFrom(KvEntry(p)[..c], more[..c - key], ToleratesEntry(p, c));
  }

  lemma EntryReadFrom(b: Bytes, rest: Bytes, ok: bool)
    requires ReadStr(b).1 == rest
    requires var r := ReadValue(Drop(rest, 4), FromLittleEndian(Take(rest, 4)), 0);
             (r.Success? <==> ok) && (r.Success? ==> r.value.1 == [])
    ensures EntryRead(b, ok)
  {
    hide ReadStr, ReadValue, Drop, Take, FromLittleEndian;
  }

  /** One cut entry: the key, the type and the value are read exactly when the cut is tolerated. */
  lemma TornEntry(p: Pair, c: nat)
    requires WritablePair(p) && c < |KvEntry(p)|
    ensures EntryRead(KvEntry(p)[..c], ToleratesEntry(p, c))
  {
    hide *;
    if c <= 8 + |p.key| {
      TornBeforeValue(p, c);
    } else {
      TornInValue(p, c);
    }
  }

  lemma TypeZero()
    ensures FromLittleEndian(Take([], 4)) == 0 && Drop([], 4) == []
  {
  }

  lemma {:induction false} TornPairs(ps: seq<Pair>, c: nat, kv: map<Bytes, Read>)
    requires c < |PrintPairs(ps)| && forall i :: 0 <= i < |ps| ==> WritablePair(ps[i])
    ensures ReadPairs(PrintPairs(ps)[..c], |ps|, kv).Success? <==> ToleratesPairs(ps, c)
    decreases |ps|
  {
    hide LittleEndian, FromLittleEndian, Pow256, ReadValue, Print, Meaning, WithinCaps, KvEntry, ReadStr, ToleratesEntry,
      WritablePair;
    var p, rest := ps[0], ps[1..];
    var n := |KvEntry(p)|;
    if c >= n {
      var more := PrintPairs(rest)[..c - n];
      CutAfter(KvEntry(p), PrintPairs(rest), c);
      EntryRoundTrip(p, more);
      if WithinCaps(p.value, 0) {
        TornPairs(rest, c - n, kv[p.key := Meaning(p.value)]);
      }
    } else {
      CutBefore(KvEntry(p), PrintPairs(rest), c);
      TornEntry(p, c);
      var next := ReadStr(KvEntry(p)[..c]);
      var v := ReadValue(Drop(next.1, 4), FromLittleEndian(Take(next.1, 4)), 0);
      if v.Success? {
        EmptyPairs(|rest|, kv[next.0 := v.value.0]);
      }
    }
  }

  // ---------------------------------------------------------------- cut files

  /** Where a file can be cut without being refused. */
  ghost predicate Survives(ps: seq<Pair>, k: nat) {
    k >= 4 &&
    if k < 24 then Present(|ps|, if k <= 16 then 0 else k - 16) == 0 else ToleratesPairs(ps, k - 24)
  }

  /** The counts of a cut preamble. */
  lemma TornPreamble(version: nat, nTensors: nat, n: nat, body: Bytes, k: nat)
    requires k < 24
    ensures var b := (Preamble(version, nTensors, n) + body)[..k];
            && (Take(Take(b, 16), 4) == MAGIC <==> k >= 4)
            && FromLittleEndian(Take(Drop(b, 16), 8)) == Present(n, if k <= 16 then 0 else k - 16)
            && Drop(Drop(b, 16), 8) == []
  {
    var j := if k <= 16 then 0 else k - 16;
    PartialCount(n, 8, j);
    hide LittleEndian, FromLittleEndian, Pow256;
    var start, count := MAGIC + LittleEndian(version, 4) + LittleEndian(nTensors, 8), LittleEndian(n, 8);
    CutBefore(Preamble(version, nTensors, n), body, k);
    assert Preamble(version, nTensors, n) == start + count;
    assert start[..4] == MAGIC;
    if k <= 16 {
      CutBefore(start, count, k);
      assert k >= 4 ==> start[..k][..4] == start[..4];
    } else {
      CutAfter(start, count, k);
      assert (start + count[..k - 16])[..16] == start;
    }
  }

  /** For every written file and every cut position: the reader takes the cut file for a whole one exactly
      where the cut survives. */
  lemma CutAccepted(version: nat, nTensors: nat, ps: seq<Pair>, k: nat)
    requires version < Pow256(4) && nTensors < Pow256(8) && |ps| < Pow256(8)
    requires forall i :: 0 <= i < |ps| ==> WritablePair(ps[i])
    requires k < |Header(version, nTensors, ps)|
    ensures Parse(Header(version, nTensors, ps)[..k]).Success? <==> Survives(ps, k)
  {
    var pre := Preamble(version, nTensors, |ps|);
    assert Header(version, nTensors, ps) == pre + PrintPairs(ps) && |pre| == 24;
    hide LittleEndian, FromLittleEndian, Pow256, ReadPairs, PrintPairs, ToleratesPairs, Preamble, WritablePair, Header, Present;
    if k < 24 {
      TornPreamble(version, nTensors, |ps|, PrintPairs(ps), k);
      EmptyPairs(Present(|ps|, if k <= 16 then 0 else k - 16), map[]);
    } else {
      CutAfter(pre, PrintPairs(ps), k);
      PreambleRead(version, nTensors, |ps|, PrintPairs(ps)[..k - 24]);
      TornPairs(ps, k - 24, map[]);
    }
  }

  // ---------------------------------------------------------------- a cut text

  /** Pairs within the caps are read one after the other into the dictionary. */
  lemma {:induction false} PairsThen(ps: seq<Pair>, rest: Bytes, n: nat, kv: map<Bytes, Read>)
    requires forall i :: 0 <= i < |ps| ==> WritablePair(ps[i]) && WithinCaps(ps[i].value, 0)
    ensures ReadPairs(PrintPairs(ps) + rest, |ps| + n, kv) == ReadPairs(rest, n, Dictionary(ps, kv))
    decreases |ps|
  {
    hide LittleEndian, FromLittleEndian, Pow256, ReadValue, Print, Meaning, WithinCaps, KvEntry, ReadStr, WritablePair;
    if ps == [] {
      assert PrintPairs(ps) + rest == rest;
    } else {
      var p := ps[0];
      assert PrintPairs(ps) + rest == KvEntry(p) + (PrintPairs(ps[1..]) + rest);
      EntryRoundTrip(p, PrintPairs(ps[1..]) + rest);
      PairsThen(ps[1..], rest, n, kv[p.key := Meaning(p.value)]);
    }
  }

  lemma {:induction false} PrintedPairs(ps: seq<Pair>, p: Pair)
    ensures PrintPairs(ps + [p]) == PrintPairs(ps) + KvEntry(p)
    decreases |ps|
  {
    hide KvEntry;
    if ps == [] {
      assert [p][1..] == [] && [] + [p] == [p];
    } else {
      assert (ps + [p])[1..] == ps[1..] + [p];
      PrintedPairs(ps[1..], p);
    }
  }

  /** A key and the bytes of its text that are there. */
  function CutPair(key: Bytes, s: Bytes, m: nat): Bytes
    requires m <= |s|
  {
    Gstr(key) + (LittleEndian(T_STRING, 4) + (LittleEndian(|s|, 8) + s[..m]))
  }

  /** The pair a cut text leaves behind: the same key with the bytes that are there. */
  lemma CutTextEntry(key: Bytes, s: Bytes, m: nat, kv: map<Bytes, Read>)
    requires |key| < Pow256(8) && |s| < Pow256(8) && m <= |s|
    ensures ReadPairs(CutPair(key, s, m), 1, kv) == Success((kv[key := Str(s[..m])], []))
  {
    Widths();
    hide LittleEndian, FromLittleEndian, Pow256;
    var text := LittleEndian(|s|, 8) + s[..m];
    ReadStrRoundTrip(key, LittleEndian(T_STRING, 4) + text);
    TaggedRead(T_STRING, 4, text);
    TaggedRead(|s|, 8, s[..m]);
    hide Take, Drop, Gstr;
    CutTextRead(s, m);
  }

  lemma TakeAll(b: Bytes, k: nat)
    requires |b| <= k
    ensures Take(b, k) == b && Drop(b, k) == []
  {
  }

  lemma CutTextRead(s: Bytes, m: nat)
    requires |s| < Pow256(8) && m <= |s|
    ensures ReadValue(LittleEndian(|s|, 8) + s[..m], T_STRING, 0) == Success((Str(s[..m]), []))
  {
    hide LittleEndian, FromLittleEndian, Pow256, Take, Drop;
    TaggedRead(|s|, 8, s[..m]);
    TakeAll(s[..m], |s|);
  }

  lemma CutEntry(key: Bytes, s: Bytes, m: nat)
    requires m <= |s|
    ensures var entry := KvEntry(Pair(key, Text(s)));
            && |entry| >= |s| - m
            && entry[..|entry| - (|s| - m)] == Gstr(key) + (LittleEndian(T_STRING, 4) + (LittleEndian(|s|, 8) + s[..m]))
  {
    var g, tag, size := Gstr(key), LittleEndian(T_STRING, 4), LittleEndian(|s|, 8);
    assert KvEntry(Pair(key, Text(s))) == g + tag + (size + s);
    hide LittleEndian, Gstr, KvEntry;
    assert (g + tag + (size + s))[..|g| + |tag| + |size| + m] == g + (tag + (size + s[..m]));
  }

  lemma CutThrice(pre: Bytes, pairs: Bytes, entry: Bytes, d: nat)
    requires d <= |entry|
    ensures (pre + (pairs + entry))[..|pre| + |pairs| + |entry| - d] == pre + (pairs + entry[..|entry| - d])
  {
  }

  lemma CutHeader(version: nat, nTensors: nat, ps: seq<Pair>, key: Bytes, s: Bytes, m: nat)
    requires m <= |s|
    ensures var whole := Header(version, nTensors, ps + [Pair(key, Text(s))]);
            && |whole| >= |s| - m
            && whole[..|whole| - (|s| - m)] == Preamble(version, nTensors, |ps| + 1) + (PrintPairs(ps) + CutPair(key, s, m))
  {
    var entry := KvEntry(Pair(key, Text(s)));
    CutEntry(key, s, m);
    assert entry[..|entry| - (|s| - m)] == CutPair(key, s, m);
    hide *;
    HeaderSnoc(version, nTensors, ps, Pair(key, Text(s)));
    CutThrice(Preamble(version, nTensors, |ps| + 1), PrintPairs(ps), entry, |s| - m);
  }

  /** A file cut inside the text of its last pair is read with a shorter text in its place, whatever the
      other pairs are. */
  lemma CutTextIsShorter(version: nat, nTensors: nat, ps: seq<Pair>, key: Bytes, s: Bytes, m: nat)
    requires version < Pow256(4) && nTensors < Pow256(8) && |ps| + 1 < Pow256(8)
    requires forall i :: 0 <= i < |ps| ==> WritablePair(ps[i]) && WithinCaps(ps[i].value, 0)
    requires |key| < Pow256(8) && |s| < Pow256(8) && m <= |s|
    ensures var whole := Header(version, nTensors, ps + [Pair(key, Text(s))]);
            && |whole| >= |s| - m
            && Parse(whole[..|whole| - (|s| - m)])
            == Success((Metadata(version, nTensors, |ps| + 1, Dictionary(ps, map[])[key := Str(s[..m])]), []))
  {
    hide *;
    CutHeader(version, nTensors, ps, key, s, m);
    CutTextEntry(key, s, m, Dictionary(ps, map[]));
    PairsThen(ps, CutPair(key, s, m), 1, map[]);
    CountedParse(version, nTensors, |ps| + 1, PrintPairs(ps) + CutPair(key, s, m));
  }

  lemma HeaderSnoc(version: nat, nTensors: nat, ps: seq<Pair>, p: Pair)
    ensures Header(version, nTensors, ps + [p]) == Preamble(version, nTensors, |ps| + 1) + (PrintPairs(ps) + KvEntry(p))
  {
    hide LittleEndian, PrintPairs, KvEntry;
    PrintedPairs(ps, p);
  }

  lemma CountedParse(version: nat, nTensors: nat, n: nat, body: Bytes)
    requires version < Pow256(4) && nTensors < Pow256(8) && n < Pow256(8)
    ensures Parse(Preamble(version, nTensors, n) + body)
         == var r := ReadPairs(body, n, map[]);
            if r.Failure? then Failure(r.error) else Success((Metadata(version, nTensors, n, r.value.0), r.value.1))
  {
    hide LittleEndian, FromLittleEndian, Pow256, ReadPairs, Preamble, Take, Drop;
    PreambleRead(version, nTensors, n, body);
  }
}
