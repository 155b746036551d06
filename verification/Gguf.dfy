/** GGUF metadata, written and read back. */
module Gguf {
  // The printer of the synthetic header and the reader of the contract oracle (the GGUF specification, section
  // "File Structure": little-endian header, then the key/value pairs).

  import opened Wrappers

  type Byte = b: int | 0 <= b < 256
  type Bytes = seq<Byte>

  // ---------------------------------------------------------------- little-endian integers

  function Pow256(k: nat): nat {
    if k == 0 then 1 else 256 * Pow256(k - 1)
  }

  /** `n` in `k` bytes, least significant first. */
  function LittleEndian(n: nat, k: nat): (bs: Bytes)
    ensures |bs| == k
  {
    if k == 0 then [] else [n % 256] + LittleEndian(n / 256, k - 1)
  }

  /** `int.from_bytes(bs, "little")`. */
  function FromLittleEndian(bs: Bytes): nat {
    if bs == [] then 0 else bs[0] + 256 * FromLittleEndian(bs[1..])
  }

  lemma {:induction false} LittleEndianRoundTrip(n: nat, k: nat)
    requires n < Pow256(k)
    ensures FromLittleEndian(LittleEndian(n, k)) == n
  {
    if k > 0 {
      LittleEndianRoundTrip(n / 256, k - 1);
      assert LittleEndian(n, k)[1..] == LittleEndian(n / 256, k - 1);
    }
  }

  lemma Widths()
    ensures Pow256(1) == 256 && Pow256(2) == 65536 && Pow256(4) == 0x1_0000_0000 && Pow256(8) == 0x1_0000_0000_0000_0000
  {
    assert Pow256(3) == 256 * Pow256(2);
    assert Pow256(4) == 256 * Pow256(3);
    assert Pow256(5) == 256 * Pow256(4);
    assert Pow256(6) == 256 * Pow256(5);
    assert Pow256(7) == 256 * Pow256(6);
  }

  // ---------------------------------------------------------------- values

  const T_BOOL := 7
  const T_STRING := 8
  const T_ARRAY := 9
  const MAX_ITEMS := 1_000_000
  const MAX_DEPTH := 2

  /** The byte width of a fixed-size type id, 0 for anything else. */
  function Width(t: int): nat {
    if t == 0 || t == 1 || t == 7 then 1
    else if t == 2 || t == 3 then 2
    else if t == 4 || t == 5 || t == 6 then 4
    else if t == 10 || t == 11 || t == 12 then 8
    else 0
  }

  predicate Unsigned(t: int) {
    t == 0 || t == 2 || t == 4 || t == 10
  }

  predicate Signed(t: int) {
    t == 1 || t == 3 || t == 5 || t == 11
  }

  predicate Floating(t: int) {
    t == 6 || t == 12
  }

  /** A value as it is written: with its type id. Floats stay the bits they are stored as. */
  datatype Typed =
    | Int(t: int, n: int)
    | Flag(b: bool)
    | Float(t: int, bits: Bytes)
    | Text(s: Bytes)
    | Items(element: int, items: seq<Typed>)

  /** A value as it is read: without its type id. */
  datatype Read =
    | Number(n: int)
    | Truth(b: bool)
    | Bits(bits: Bytes)
    | Str(s: Bytes)
    | List(items: seq<Read>)

  function TypeId(v: Typed): int {
    match v
    case Int(t, _) => t
    case Flag(_) => T_BOOL
    case Float(t, _) => t
    case Text(_) => T_STRING
    case Items(_, _) => T_ARRAY
  }

  function Meaning(v: Typed): Read {
    match v
    case Int(_, n) => Number(n)
    case Flag(b) => Truth(b)
    case Float(_, bits) => Bits(bits)
    case Text(s) => Str(s)
    case Items(_, items) => List(seq(|items|, i requires 0 <= i < |items| => Meaning(items[i])))
  }

  /** What `struct.pack` and the format ask of a value: ranges, lengths and uniform element types. */
  ghost predicate Writable(v: Typed) {
    match v
    case Int(t, n) =>
      (Unsigned(t) && 0 <= n < Pow256(Width(t))) || (Signed(t) && 0 <= n + Pow256(Width(t)) / 2 < Pow256(Width(t)))
    case Flag(_) => true
    case Float(t, bits) => Floating(t) && |bits| == Width(t)
    case Text(s) => |s| < Pow256(8)
    case Items(element, items) =>
      && 0 <= element < Pow256(4) && |items| < Pow256(8)
      && forall i :: 0 <= i < |items| ==> TypeId(items[i]) == element && Writable(items[i])
  }

  /** The reader's own caps: arrays at most two deep, at most a million items each. */
  predicate WithinCaps(v: Typed, depth: nat) {
    match v
    case Items(_, items) =>
      && depth < MAX_DEPTH && |items| <= MAX_ITEMS
      && forall i :: 0 <= i < |items| ==> WithinCaps(items[i], depth + 1)
    case _ => true
  }

  // ---------------------------------------------------------------- printing

  function Gstr(s: Bytes): Bytes {
    LittleEndian(|s|, 8) + s
  }

  function Pack(t: int, n: int): Bytes {
    LittleEndian(if n >= 0 then n else if n + Pow256(Width(t)) >= 0 then n + Pow256(Width(t)) else 0, Width(t))
  }

  function Print(v: Typed): Bytes {
    match v
    case Int(t, n) => Pack(t, n)
    case Flag(b) => [if b then 1 else 0]
    case Float(_, bits) => bits
    case Text(s) => Gstr(s)
    case Items(element, items) =>
      LittleEndian(if element >= 0 then element else 0, 4) + LittleEndian(|items|, 8) + PrintAll(items)
  }

  function PrintAll(vs: seq<Typed>): Bytes {
    if vs == [] then [] else Print(vs[0]) + PrintAll(vs[1..])
  }

  datatype Pair = Pair(key: Bytes, value: Typed)

  function KvEntry(p: Pair): Bytes {
    Gstr(p.key) + LittleEndian(if TypeId(p.value) >= 0 then TypeId(p.value) else 0, 4) + Print(p.value)
  }

  function PrintPairs(ps: seq<Pair>): Bytes {
    if ps == [] then [] else KvEntry(ps[0]) + PrintPairs(ps[1..])
  }

  const MAGIC: Bytes := [0x47, 0x47, 0x55, 0x46]

  /** Magic, version, tensor count, pair count, pairs. */
  function Header(version: nat, nTensors: nat, ps: seq<Pair>): Bytes {
    MAGIC + LittleEndian(version, 4) + LittleEndian(nTensors, 8) + LittleEndian(|ps|, 8) + PrintPairs(ps)
  }

  // ---------------------------------------------------------------- reading

  datatype Refusal =
    | NotGguf       // wrong magic
    | OverCap       // array nesting or size cap
    | UnknownType   // no format for the type id
    | ShortValue    // fewer bytes than the fixed-size value needs

  /** `fh.read(k)` at the end of a file returns what is left. */
  function Take(b: Bytes, k: nat): Bytes {
    if k <= |b| then b[..k] else b
  }

  function Drop(b: Bytes, k: nat): Bytes {
    if k <= |b| then b[k..] else []
  }

  function Unpack(t: int, raw: Bytes): Read
    requires Width(t) > 0 && |raw| == Width(t)
  {
    var u := FromLittleEndian(raw);
    if t == T_BOOL then Truth(u != 0)
    else if Floating(t) then Bits(raw)
    else if Signed(t) && u >= Pow256(Width(t)) / 2 then Number(u - Pow256(Width(t)))
    else Number(u)
  }

  function ReadStr(b: Bytes): (Bytes, Bytes) {
    var n := FromLittleEndian(Take(b, 8));
    (Take(Drop(b, 8), n), Drop(Drop(b, 8), n))
  }

  function ReadFixed(b: Bytes, t: int): Result<(Read, Bytes), Refusal> {
    if Width(t) == 0 then Failure(UnknownType)
    else if |b| < Width(t) then Failure(ShortValue)
    else Success((Unpack(t, b[..Width(t)]), b[Width(t)..]))
  }

  function ReadValue(b: Bytes, t: int, depth: nat): Result<(Read, Bytes), Refusal>
    requires depth <= MAX_DEPTH
    decreases MAX_DEPTH + 1 - depth, 0
  {
    if t == T_STRING then
      var (s, rest) := ReadStr(b);
      Success((Str(s), rest))
    else if t == T_ARRAY then
      var element, n := FromLittleEndian(Take(b, 4)), FromLittleEndian(Take(Drop(b, 4), 8));
      if depth >= MAX_DEPTH || n > MAX_ITEMS then Failure(OverCap)
      else
        var r := ReadItems(Drop(Drop(b, 4), 8), element, n, depth + 1);
        if r.Failure? then Failure(r.error) else Success((List(r.value.0), r.value.1))
    else
      ReadFixed(b, t)
  }

  function ReadItems(b: Bytes, t: int, n: nat, depth: nat): (r: Result<(seq<Read>, Bytes), Refusal>)
    requires depth <= MAX_DEPTH
    decreases MAX_DEPTH + 1 - depth, n + 1
  {
    if n == 0 then Success(([], b))
    else
      var first := ReadValue(b, t, depth);
      if first.Failure? then Failure(first.error)
      else
        var rest := ReadItems(first.value.1, t, n - 1, depth);
        if rest.Failure? then Failure(rest.error)
        else Success(([first.value.0] + rest.value.0, rest.value.1))
  }

  datatype Metadata = Metadata(version: nat, nTensors: nat, nKv: nat, kv: map<Bytes, Read>)

  function ReadPairs(b: Bytes, n: nat, kv: map<Bytes, Read>): Result<(map<Bytes, Read>, Bytes), Refusal>
    decreases n
  {
    if n == 0 then Success((kv, b))
    else
      var (key, rest) := ReadStr(b);
      var v := ReadValue(Drop(rest, 4), FromLittleEndian(Take(rest, 4)), 0);
      if v.Failure? then Failure(v.error) else ReadPairs(v.value.1, n - 1, kv[key := v.value.0])
  }

  function Parse(b: Bytes): Result<(Metadata, Bytes), Refusal> {
    var buf := Take(b, 16);
    if Take(buf, 4) != MAGIC then Failure(NotGguf)
    else
      var version, nTensors := FromLittleEndian(Take(Drop(buf, 4), 4)), FromLittleEndian(Take(Drop(buf, 8), 8));
      var nKv := FromLittleEndian(Take(Drop(b, 16), 8));
      var r := ReadPairs(Drop(Drop(b, 16), 8), nKv, map[]);
      if r.Failure? then Failure(r.error) else Success((Metadata(version, nTensors, nKv, r.value.0), r.value.1))
  }

  // ---------------------------------------------------------------- what the bytes of a file mean

  /** The last byte weighs 256 to the power of its place. */
  lemma {:induction false} LastByteWeighs(bs: Bytes, b: Byte)
    ensures FromLittleEndian([]) == 0
    ensures FromLittleEndian(bs + [b]) == FromLittleEndian(bs) + b * Pow256(|bs|)
  {
    if bs == [] {
      assert FromLittleEndian([b][1..]) == 0;
    } else {
      LastByteWeighs(bs[1..], b);
      assert (bs + [b])[1..] == bs[1..] + [b];
      WeighNext(bs[0], FromLittleEndian(bs[1..]), b, Pow256(|bs| - 1));
    }
  }

  lemma WeighNext(first: nat, rest: nat, b: nat, power: nat)
    ensures first + 256 * (rest + b * power) == first + 256 * rest + b * (256 * power)
  {
  }

  lemma {:induction false} BytesBound(bs: Bytes)
    ensures FromLittleEndian(bs) < Pow256(|bs|)
  {
    if bs != [] {
      BytesBound(bs[1..]);
    }
  }

  /** The number that is `u` modulo the whole range and lies in the signed half around zero. */
  ghost predicate TwosComplement(v: Read, u: nat, half: nat) {
    v.Number? && 0 <= v.n + half < 2 * half && (v.n == u || v.n == u - 2 * half)
  }

  /** What a fixed-size value of each type id means: its width, and the number, truth or bits the bytes stand for. */
  ghost predicate Stored(t: int, raw: Bytes, v: Read) {
    match t
    case 0 => |raw| == 1 && v == Number(FromLittleEndian(raw))
    case 1 => |raw| == 1 && TwosComplement(v, FromLittleEndian(raw), 128)
    case 2 => |raw| == 2 && v == Number(FromLittleEndian(raw))
    case 3 => |raw| == 2 && TwosComplement(v, FromLittleEndian(raw), 32768)
    case 4 => |raw| == 4 && v == Number(FromLittleEndian(raw))
    case 5 => |raw| == 4 && TwosComplement(v, FromLittleEndian(raw), 0x8000_0000)
    case 6 => |raw| == 4 && v == Bits(raw)
    case 7 => |raw| == 1 && v == Truth(raw != [0])
    case 10 => |raw| == 8 && v == Number(FromLittleEndian(raw))
    case 11 => |raw| == 8 && TwosComplement(v, FromLittleEndian(raw), 0x8000_0000_0000_0000)
    case 12 => |raw| == 8 && v == Bits(raw)
    case _ => false
  }

  lemma UnpackStored(t: int, raw: Bytes)
    requires Width(t) > 0 && |raw| == Width(t)
    ensures Stored(t, raw, Unpack(t, raw))
  {
    Widths();
    BytesBound(raw);
    if t == 7 {
      assert raw == [raw[0]] && FromLittleEndian(raw) == raw[0] + 256 * FromLittleEndian(raw[1..]);
    }
    hide FromLittleEndian, Pow256;
  }

  /** A fixed-size value is what its bytes mean for its type id, one of the eleven there are, and only a file that
      ends before the last of them or another id stops the reader. */
  lemma {:induction false} FixedMeans(b: Bytes, t: int)
    ensures var r := ReadFixed(b, t);
            && (r.Success? ==>
                  exists w: nat :: w <= |b| && Stored(t, b[..w], r.value.0) && r.value.1 == b[w..])
            && (r == Failure(UnknownType) <==> t !in {0, 1, 2, 3, 4, 5, 6, 7, 10, 11, 12})
            && (r == Failure(ShortValue) <==>
                  || (t in {0, 1, 7} && |b| < 1) || (t in {2, 3} && |b| < 2) || (t in {4, 5, 6} && |b| < 4)
                  || (t in {10, 11, 12} && |b| < 8))
  {
    var w := Width(t);
    if 0 < w <= |b| {
      UnpackStored(t, b[..w]);
    }
    hide Unpack, Stored;
  }

  /** Text is its length in eight bytes and that many bytes. */
  lemma TextMeans(b: Bytes, depth: nat)
    requires depth <= 2 && |b| >= 8 && |b| >= 8 + FromLittleEndian(b[..8])
    ensures ReadValue(b, 8, depth)
         == Success((Str(b[8..8 + FromLittleEndian(b[..8])]), b[8 + FromLittleEndian(b[..8])..]))
  {
    hide FromLittleEndian, ReadItems, ReadFixed;
    var n := FromLittleEndian(b[..8]);
    assert b[8..][..n] == b[8..8 + n] && b[8..][n..] == b[8 + n..];
  }

  /** An array is its items' type id in four bytes, their number in eight, and the items one after another; the
      reader refuses more than a million of them and a third array inside two. */
  lemma ArrayMeans(b: Bytes, depth: nat)
    requires depth <= 2 && |b| >= 12
    ensures var t, n := FromLittleEndian(b[..4]), FromLittleEndian(b[4..12]);
            var r := ReadValue(b, 9, depth);
            && (depth == 2 || n > 1_000_000 ==> r == Failure(OverCap))
            && (depth < 2 && n <= 1_000_000 ==>
                  var items := ReadItems(b[12..], t, n, depth + 1);
                  r == if items.Failure? then Failure(items.error) else Success((List(items.value.0), items.value.1)))
  {
    hide FromLittleEndian, ReadItems, ReadFixed;
    assert b[4..][..8] == b[4..12] && b[4..][8..] == b[12..];
  }

  /** A file starts with the letters GGUF, its version in four bytes and its two counts in eight each; a pair is its
      key as text, its type id in four bytes and its value. */
  lemma FileMeans(b: Bytes)
    requires |b| >= 24
    ensures var version, nTensors, nKv := FromLittleEndian(b[4..8]), FromLittleEndian(b[8..16]), FromLittleEndian(b[16..24]);
            var pairs := ReadPairs(b[24..], nKv, map[]);
            Parse(b) == if b[..4] != [0x47, 0x47, 0x55, 0x46] then Failure(NotGguf)
                        else if pairs.Failure? then Failure(pairs.error)
                        else Success((Metadata(version, nTensors, nKv, pairs.value.0), pairs.value.1))
  {
    hide FromLittleEndian, ReadPairs;
    var buf := Take(b, 16);
    assert Take(buf, 4) == b[..4] && Take(Drop(buf, 4), 4) == b[4..8] && Take(Drop(buf, 8), 8) == b[8..16];
    assert Take(Drop(b, 16), 8) == b[16..24] && Drop(Drop(b, 16), 8) == b[24..];
  }

  lemma PairMeans(key: Bytes, b: Bytes, n: nat, kv: map<Bytes, Read>)
    requires |key| < Pow256(8) && |b| >= 4 && n > 0
    ensures var v := ReadValue(b[4..], FromLittleEndian(b[..4]), 0);
            ReadPairs(LittleEndian(|key|, 8) + key + b, n, kv)
            == if v.Failure? then Failure(v.error) else ReadPairs(v.value.1, n - 1, kv[key := v.value.0])
  {
    hide FromLittleEndian, ReadValue, LittleEndian, Pow256, ReadStr;
    ReadStrRoundTrip(key, b);
    assert LittleEndian(|key|, 8) + key + b == Gstr(key) + b;
  }

  // ---------------------------------------------------------------- the round trip

  /** A fixed-width count in front of other bytes is read back and leaves them. */
  lemma TaggedRead(n: nat, k: nat, rest: Bytes)
    requires n < Pow256(k)
    ensures FromLittleEndian(Take(LittleEndian(n, k) + rest, k)) == n && Drop(LittleEndian(n, k) + rest, k) == rest
  {
    LittleEndianRoundTrip(n, k);
  }

  lemma ReadStrRoundTrip(s: Bytes, tail: Bytes)
    requires |s| < Pow256(8)
    ensures ReadStr(Gstr(s) + tail) == (s, tail)
  {
    assert Gstr(s) + tail == LittleEndian(|s|, 8) + (s + tail);
    hide LittleEndian, FromLittleEndian, Pow256, Gstr, Take, Drop;
    TaggedRead(|s|, 8, s + tail);
  }

  lemma UnpackPack(t: int, n: int)
    requires Writable(Int(t, n))
    ensures |Pack(t, n)| == Width(t) > 0 && Unpack(t, Pack(t, n)) == Number(n)
  {
    Widths();
    LittleEndianRoundTrip(if n >= 0 then n else n + Pow256(Width(t)), Width(t));
  }

  lemma FlagRoundTrip(b: bool)
    ensures Unpack(T_BOOL, [if b then 1 else 0]) == Truth(b)
  {
    var raw: Bytes := [if b then 1 else 0];
    assert FromLittleEndian(raw) == raw[0] + 256 * FromLittleEndian(raw[1..]) == raw[0];
  }

  lemma FixedRoundTrip(v: Typed, tail: Bytes)
    requires Writable(v) && !v.Text? && !v.Items?
    ensures ReadFixed(Print(v) + tail, TypeId(v)) == Success((Meaning(v), tail))
    ensures TypeId(v) != T_STRING && TypeId(v) != T_ARRAY
  {
    if v.Int? {
      UnpackPack(v.t, v.n);
    }
    hide LittleEndian, FromLittleEndian, Pow256;
    if v.Flag? {
      FlagRoundTrip(v.b);
    }
    assert (Print(v) + tail)[..|Print(v)|] == Print(v) && (Print(v) + tail)[|Print(v)|..] == tail;
  }

  /** A written value is read back exactly when it is within the caps, whatever bytes follow it, and the
      reader stops at its last byte. */
  lemma {:induction false} ValueRoundTrip(v: Typed, depth: nat, tail: Bytes)
    requires Writable(v) && depth <= MAX_DEPTH
    ensures ReadValue(Print(v) + tail, TypeId(v), depth)
         == if WithinCaps(v, depth) then Success((Meaning(v), tail)) else Failure(OverCap)
    decreases v, 1, 0
  {
    hide LittleEndian, FromLittleEndian, Pow256, Unpack, Pack, ReadItems, PrintAll;
    match v
    case Int(_, _) => FixedRoundTrip(v, tail);
    case Flag(_) => FixedRoundTrip(v, tail);
    case Float(_, _) => FixedRoundTrip(v, tail);
    case Text(s) => ReadStrRoundTrip(s, tail);
    case Items(element, items) =>
      var count, body := LittleEndian(|items|, 8), PrintAll(items);
      TaggedRead(element, 4, count + (body + tail));
      TaggedRead(|items|, 8, body + tail);
      assert Print(v) + tail == LittleEndian(element, 4) + (count + (body + tail));
      if depth < MAX_DEPTH && |items| <= MAX_ITEMS {
        ItemsRoundTrip(v, items, element, depth + 1, tail);
      }
  }

  ghost predicate AllWithin(items: seq<Typed>, depth: nat) {
    forall i :: 0 <= i < |items| ==> WithinCaps(items[i], depth)
  }

  function Meanings(items: seq<Typed>): seq<Read> {
    seq(|items|, i requires 0 <= i < |items| => Meaning(items[i]))
  }

  lemma ItemsUnfold(items: seq<Typed>, depth: nat, tail: Bytes)
    requires items != []
    ensures PrintAll(items) + tail == Print(items[0]) + (PrintAll(items[1..]) + tail)
    ensures Meanings(items) == [Meaning(items[0])] + Meanings(items[1..])
    ensures AllWithin(items, depth) <==> WithinCaps(items[0], depth) && AllWithin(items[1..], depth)
  {
    hide Print, Meaning, WithinCaps;
    assert forall i :: 1 <= i < |items| ==> items[i] == items[1..][i - 1];
  }

  lemma {:induction false} ItemsRoundTrip(whole: Typed, items: seq<Typed>, element: int, depth: nat, tail: Bytes)
    requires whole.Items? && depth <= MAX_DEPTH
    requires forall i :: 0 <= i < |items| ==> items[i] < whole && TypeId(items[i]) == element && Writable(items[i])
    ensures ReadItems(PrintAll(items) + tail, element, |items|, depth)
         == if AllWithin(items, depth) then Success((Meanings(items), tail)) else Failure(OverCap)
    decreases whole, 0, |items|
  {
    hide Print, ReadValue, Meaning, WithinCaps, Writable, TypeId;
    if items == [] {
      assert PrintAll(items) + tail == tail;
      assert AllWithin(items, depth) && Meanings(items) == [];
    } else {
      hide PrintAll, AllWithin, Meanings;
      ItemsUnfold(items, depth, tail);
      ValueRoundTrip(items[0], depth, PrintAll(items[1..]) + tail);
      ItemsRoundTrip(whole, items[1..], element, depth, tail);
    }
  }

  ghost predicate WritablePair(p: Pair) {
    |p.key| < Pow256(8) && Writable(p.value)
  }

  /** The dictionary the pairs describe: a repeated key keeps its last value. */
  function Dictionary(ps: seq<Pair>, kv: map<Bytes, Read>): map<Bytes, Read>
    decreases |ps|
  {
    if ps == [] then kv else Dictionary(ps[1..], kv[ps[0].key := Meaning(ps[0].value)])
  }

  lemma {:induction false} PairsRoundTrip(ps: seq<Pair>, kv: map<Bytes, Read>, tail: Bytes)
    requires forall i :: 0 <= i < |ps| ==> WritablePair(ps[i])
    ensures ReadPairs(PrintPairs(ps) + tail, |ps|, kv)
         == if forall i :: 0 <= i < |ps| ==> WithinCaps(ps[i].value, 0) then Success((Dictionary(ps, kv), tail)) else Failure(OverCap)
    decreases |ps|
  {
    hide LittleEndian, FromLittleEndian, Pow256, ReadValue, Print, Meaning, WithinCaps, Writable, Gstr, ReadStr;
    if ps == [] {
      assert PrintPairs(ps) + tail == tail;
    } else {
      var p, rest := ps[0], ps[1..];
      var more := PrintPairs(rest) + tail;
      EntryRoundTrip(p, more);
      assert PrintPairs(ps) + tail == KvEntry(p) + more;
      PairsRoundTrip(rest, kv[p.key := Meaning(p.value)], tail);
      assert forall i :: 0 <= i < |rest| ==> rest[i] == ps[i + 1];
      if WithinCaps(p.value, 0) && forall i :: 0 <= i < |rest| ==> WithinCaps(rest[i].value, 0) {
        assert forall i :: 0 <= i < |ps| ==> i == 0 || ps[i] == rest[i - 1];
      }
    }
  }

  lemma EntryRoundTrip(p: Pair, more: Bytes)
    requires WritablePair(p)
    ensures ReadStr(KvEntry(p) + more).0 == p.key
    ensures var rest := ReadStr(KvEntry(p) + more).1;
            ReadValue(Drop(rest, 4), FromLittleEndian(Take(rest, 4)), 0)
            == if WithinCaps(p.value, 0) then Success((Meaning(p.value), more)) else Failure(OverCap)
  {
    Widths();
    TypeIdRange(p.value);
    hide LittleEndian, FromLittleEndian, Pow256, ReadValue, Print, Meaning, WithinCaps, Writable, Gstr, ReadStr;
    var id := LittleEndian(TypeId(p.value), 4);
    assert KvEntry(p) + more == Gstr(p.key) + (id + (Print(p.value) + more));
    ReadStrRoundTrip(p.key, id + (Print(p.value) + more));
    TaggedRead(TypeId(p.value), 4, Print(p.value) + more);
    ValueRoundTrip(p.value, 0, more);
  }

  lemma TypeIdRange(v: Typed)
    requires Writable(v)
    ensures 0 <= TypeId(v) <= 12
  {
  }

  /** Header round trip: for every list of writable pairs and every continuation of the file, the reader
      returns the header counts and the pairs' dictionary and has read exactly the header and the pairs;
      it refuses exactly when some value is over a cap. Tensor bytes never matter. */
  lemma HeaderRoundTrip(version: nat, nTensors: nat, ps: seq<Pair>, tensors: Bytes)
    requires version < Pow256(4) && nTensors < Pow256(8) && |ps| < Pow256(8)
    requires forall i :: 0 <= i < |ps| ==> WritablePair(ps[i])
    ensures Parse(Header(version, nTensors, ps) + tensors)
         == if forall i :: 0 <= i < |ps| ==> WithinCaps(ps[i].value, 0)
            then Success((Metadata(version, nTensors, |ps|, Dictionary(ps, map[])), tensors))
            else Failure(OverCap)
  {
    hide LittleEndian, FromLittleEndian, Pow256, ReadPairs, PrintPairs, WithinCaps, Dictionary;
    PreambleRead(version, nTensors, |ps|, PrintPairs(ps) + tensors);
    assert Header(version, nTensors, ps) + tensors == Preamble(version, nTensors, |ps|) + (PrintPairs(ps) + tensors);
    PairsRoundTrip(ps, map[], tensors);
  }

  function Preamble(version: nat, nTensors: nat, nKv: nat): Bytes {
    MAGIC + LittleEndian(version, 4) + LittleEndian(nTensors, 8) + LittleEndian(nKv, 8)
  }

  lemma PreambleRead(version: nat, nTensors: nat, nKv: nat, body: Bytes)
    requires version < Pow256(4) && nTensors < Pow256(8) && nKv < Pow256(8)
    ensures var file := Preamble(version, nTensors, nKv) + body;
            var buf := Take(file, 16);
            && Take(buf, 4) == MAGIC
            && FromLittleEndian(Take(Drop(buf, 4), 4)) == version && FromLittleEndian(Take(Drop(buf, 8), 8)) == nTensors
            && FromLittleEndian(Take(Drop(file, 16), 8)) == nKv && Drop(Drop(file, 16), 8) == body
  {
    hide LittleEndian, FromLittleEndian, Pow256;
    var v, t, c := LittleEndian(version, 4), LittleEndian(nTensors, 8), LittleEndian(nKv, 8);
    assert Preamble(version, nTensors, nKv) + body == (MAGIC + v + t) + (c + body);
    TaggedRead(nKv, 8, body);
    assert MAGIC + v + t == MAGIC + (v + t);
    TaggedRead(version, 4, t);
    assert Drop(MAGIC + v + t, 8) == t && t + [] == t;
    TaggedRead(nTensors, 8, []);
  }

  /** With distinct keys nothing is lost: every pair is in the dictionary and nothing else is. */
  lemma {:induction false} DictionaryComplete(ps: seq<Pair>, kv: map<Bytes, Read>)
    requires forall i, j :: 0 <= i < j < |ps| ==> ps[i].key != ps[j].key
    ensures forall i :: 0 <= i < |ps| ==> ps[i].key in Dictionary(ps, kv) && Dictionary(ps, kv)[ps[i].key] == Meaning(ps[i].value)
    ensures forall k :: k in Dictionary(ps, kv) <==> k in kv || exists i :: 0 <= i < |ps| && ps[i].key == k
    ensures forall k :: k in kv && (forall i :: 0 <= i < |ps| ==> ps[i].key != k) ==> Dictionary(ps, kv)[k] == kv[k]
    decreases |ps|
  {
    if ps != [] {
      var rest, next := ps[1..], kv[ps[0].key := Meaning(ps[0].value)];
      DictionaryComplete(rest, next);
      assert forall i :: 0 <= i < |rest| ==> rest[i] == ps[i + 1];
      var d := Dictionary(ps, kv);
      forall k | k in d ensures k in kv || exists i :: 0 <= i < |ps| && ps[i].key == k {
        if k !in next {
          var i :| 0 <= i < |rest| && rest[i].key == k;
          assert ps[i + 1].key == k;
        } else if k == ps[0].key {
          assert ps[0].key == k;
        }
      }
      forall i | 0 <= i < |ps| ensures ps[i].key in d && d[ps[i].key] == Meaning(ps[i].value) {
        if i > 0 {
          assert rest[i - 1].key == ps[i].key;
        } else {
          assert ps[0].key in next && forall j :: 0 <= j < |rest| ==> rest[j].key != ps[0].key;
        }
      }
      forall k | k in kv && forall i :: 0 <= i < |ps| ==> ps[i].key != k ensures d[k] == kv[k] {
        assert ps[0].key != k;
      }
    }
  }
}
