/** The reader as it runs, and the synthetic model file. */
module GgufFile {
  import opened Gguf
  import opened Wrappers

  class FileHandle {
    const data: Bytes
    var at: nat

    ghost predicate Valid()
      reads this
    {
      at <= |data|
    }

    /** The bytes still to be read. */
    ghost function Rest(): Bytes
      reads this
      requires Valid()
    {
      data[at..]
    }

    constructor (data: Bytes)
      ensures Valid() && Rest() == data
    {
      this.data := data;
      at := 0;
    }

    method Read(k: nat) returns (b: Bytes)
      requires Valid()
      modifies this
      ensures Valid() && b == Take(old(Rest()), k) && Rest() == Drop(old(Rest()), k)
    {
      var end := if at + k <= |data| then at + k else |data|;
      b := data[at..end];
      at := end;
    }

    method ReadString() returns (s: Bytes)
      requires Valid()
      modifies this
      ensures Valid() && (s, Rest()) == ReadStr(old(Rest()))
    {
      var count := Read(8);
      s := Read(FromLittleEndian(count));
    }

    method ReadScalar(t: int) returns (r: Result<Gguf.Read, Refusal>)
      requires Valid()
      modifies this
      ensures Valid()
      ensures ReadFixed(old(Rest()), t) == if r.Success? then Success((r.value, Rest())) else Failure(r.error)
      ensures r.Success? ==>
                exists w: nat :: w <= |old(Rest())| && Stored(t, old(Rest())[..w], r.value) && Rest() == old(Rest())[w..]
    {
      FixedMeans(Rest(), t);
      hide FromLittleEndian, Stored, Unpack;
      if Width(t) == 0 {
        return Failure(UnknownType);
      }
      var raw := Read(Width(t));
      if |raw| < Width(t) {
        return Failure(ShortValue);
      }
      return Success(Unpack(t, raw));
    }

    method ReadTyped(t: int, depth: nat) returns (r: Result<Gguf.Read, Refusal>)
      requires Valid() && depth <= MAX_DEPTH
      modifies this
      ensures Valid()
      ensures ReadValue(old(Rest()), t, depth) == if r.Success? then Success((r.value, Rest())) else Failure(r.error)
      decreases MAX_DEPTH + 1 - depth, 0
    {
      hide FromLittleEndian, ReadFixed, ReadItems, ReadStr;
      if t == T_STRING {
        var s := ReadString();
        return Success(Str(s));
      }
      if t != T_ARRAY {
        r := ReadScalar(t);
        return;
      }
      var tag := Read(4);
      var count := Read(8);
      var element, n := FromLittleEndian(tag), FromLittleEndian(count);
      if depth >= MAX_DEPTH || n > MAX_ITEMS {
        return Failure(OverCap);
      }
      r := ReadList(element, n, depth + 1);
    }

    method ReadList(element: int, n: nat, depth: nat) returns (r: Result<Gguf.Read, Refusal>)
      requires Valid() && depth <= MAX_DEPTH
      modifies this
      ensures Valid()
      ensures r.Success? ==> r.value.List?
      ensures ReadItems(old(Rest()), element, n, depth)
           == if r.Success? then Success((r.value.items, Rest())) else Failure(r.error)
      decreases MAX_DEPTH + 1 - depth, 1
    {
      hide FromLittleEndian, ReadItems, ReadValue;
      ghost var whole := ReadItems(Rest(), element, n, depth);
      var items: seq<Gguf.Read> := [];
      ItemsEnd(Rest(), element, n, depth, []);
      for i := 0 to n
        invariant Valid()
        invariant whole == Extend(items, ReadItems(Rest(), element, n - i, depth))
      {
        ItemsStep(Rest(), element, n - i, depth, items);
        var item := ReadTyped(element, depth);
        if item.Failure? {
          return Failure(item.error);
        }
        items := items + [item.value];
      }
      ItemsEnd(Rest(), element, 0, depth, items);
      return Success(List(items));
    }
  }

  function Extend(items: seq<Gguf.Read>, r: Result<(seq<Gguf.Read>, Bytes), Refusal>): Result<(seq<Gguf.Read>, Bytes), Refusal> {
    if r.Success? then Success((items + r.value.0, r.value.1)) else r
  }

  lemma ItemsStep(b: Bytes, t: int, n: nat, depth: nat, items: seq<Gguf.Read>)
    requires n > 0 && depth <= MAX_DEPTH
    ensures var v := ReadValue(b, t, depth);
            Extend(items, ReadItems(b, t, n, depth))
            == if v.Failure? then Failure(v.error) else Extend(items + [v.value.0], ReadItems(v.value.1, t, n - 1, depth))
  {
    hide ReadValue;
    var v := ReadValue(b, t, depth);
    if v.Success? {
      var more := ReadItems(v.value.1, t, n - 1, depth);
      if more.Success? {
        assert items + ([v.value.0] + more.value.0) == items + [v.value.0] + more.value.0;
      }
    }
  }

  lemma ItemsEnd(b: Bytes, t: int, n: nat, depth: nat, items: seq<Gguf.Read>)
    requires depth <= MAX_DEPTH
    ensures Extend(items, ReadItems(b, t, 0, depth)) == Success((items, b))
    ensures Extend([], ReadItems(b, t, n, depth)) == ReadItems(b, t, n, depth)
  {
    hide ReadValue;
    assert items + [] == items;
    var r := ReadItems(b, t, n, depth);
    if r.Success? {
      assert [] + r.value.0 == r.value.0;
    }
  }

  /** The counts and the dictionary; the handle is left at the tensor index. */
  method ParseMetadata(file: FileHandle) returns (r: Result<Metadata, Refusal>)
    requires file.Valid() && file.at == 0
    modifies file
    ensures file.Valid()
    ensures Parse(file.data) == if r.Success? then Success((r.value, file.Rest())) else Failure(r.error)
  {
    hide FromLittleEndian, ReadValue;
    var buf := file.Read(16);
    if Take(buf, 4) != MAGIC {
      return Failure(NotGguf);
    }
    var version, nTensors := FromLittleEndian(Take(Drop(buf, 4), 4)), FromLittleEndian(Take(Drop(buf, 8), 8));
    var count := file.Read(8);
    var nKv := FromLittleEndian(count);
    var kv: map<Bytes, Gguf.Read> := map[];
    ghost var whole := ReadPairs(file.Rest(), nKv, map[]);
    for i := 0 to nKv
      invariant file.Valid()
      invariant whole == ReadPairs(file.Rest(), nKv - i, kv)
    {
      var key := file.ReadString();
      var tag := file.Read(4);
      var value := file.ReadTyped(FromLittleEndian(tag), 0);
      if value.Failure? {
        return Failure(value.error);
      }
      kv := kv[key := value.value];
    }
    return Success(Metadata(version, nTensors, nKv, kv));
  }

  // ---------------------------------------------------------------- the synthetic file

  function Ascii(s: string): (b: Bytes)
    ensures |b| == |s|
  {
    seq(|s|, i requires 0 <= i < |s| => (s[i] as int) % 256)
  }

  datatype Tensor = Tensor(name: Bytes, dims: seq<nat>, ttype: nat)

  function DimBytes(dims: seq<nat>): Bytes {
    if dims == [] then [] else LittleEndian(dims[0], 8) + DimBytes(dims[1..])
  }

  /** Name, dimensions, type and a zero offset. */
  function TensorBytes(t: Tensor): Bytes {
    Gstr(t.name) + (LittleEndian(|t.dims|, 4) + (DimBytes(t.dims) + (LittleEndian(t.ttype, 4) + LittleEndian(0, 8))))
  }

  function IndexBytes(tensors: seq<Tensor>): Bytes {
    if tensors == [] then [] else TensorBytes(tensors[0]) + IndexBytes(tensors[1..])
  }

  predicate Indexable(t: Tensor) {
    && |t.name| < Pow256(8) && |t.dims| < Pow256(4) && t.ttype < Pow256(4)
    && forall d :: 0 <= d < |t.dims| ==> t.dims[d] < Pow256(8)
  }

  // ---------------------------------------------------------------- reading the tensor index

  /** `struct.unpack` of an unsigned number: too few bytes are an error. */
  function ReadNumber(b: Bytes, k: nat): Result<(nat, Bytes), Refusal> {
    if |b| < k then Failure(ShortValue) else Success((FromLittleEndian(b[..k]), b[k..]))
  }

  function ReadDims(b: Bytes, n: nat): Result<(seq<nat>, Bytes), Refusal>
    decreases n
  {
    if n == 0 then Success(([], b))
    else
      var first :- ReadNumber(b, 8);
      var rest :- ReadDims(first.1, n - 1);
      Success(([first.0] + rest.0, rest.1))
  }

  datatype IndexRow = IndexRow(tensor: Tensor, offset: nat)

  /** One row of `read_tensor_index`; a name may be cut short without an error, nothing else may. */
  function ReadTensor(b: Bytes): Result<(IndexRow, Bytes), Refusal> {
    var length :- ReadNumber(b, 8);
    var name, afterName := Take(length.1, length.0), Drop(length.1, length.0);
    var count :- ReadNumber(afterName, 4);
    var dims :- ReadDims(count.1, count.0);
    var ttype :- ReadNumber(dims.1, 4);
    var offset :- ReadNumber(ttype.1, 8);
    Success((IndexRow(Tensor(name, dims.0, ttype.0), offset.0), offset.1))
  }

  function ReadIndex(b: Bytes, n: nat): Result<(seq<IndexRow>, Bytes), Refusal>
    decreases n
  {
    if n == 0 then Success(([], b))
    else
      var first :- ReadTensor(b);
      var rest :- ReadIndex(first.1, n - 1);
      Success(([first.0] + rest.0, rest.1))
  }

  /** Dimensions are eight bytes each, one after another. */
  lemma {:induction false} DimsMean(b: Bytes, n: nat)
    requires |b| >= 8 * n
    ensures ReadDims(b, n).Success? && |ReadDims(b, n).value.0| == n && ReadDims(b, n).value.1 == b[8 * n..]
    ensures forall i :: 0 <= i < n ==> ReadDims(b, n).value.0[i] == FromLittleEndian(b[8 * i..8 * i + 8])
  {
    hide FromLittleEndian;
    if n > 0 {
      var rest := b[8..];
      DimsMean(rest, n - 1);
      assert rest[8 * (n - 1)..] == b[8 * n..];
      forall i | 0 < i < n ensures rest[8 * (i - 1)..8 * (i - 1) + 8] == b[8 * i..8 * i + 8] {
      }
    }
  }

  /** A row is a name as text, the number of dimensions in four bytes, the dimensions, the type in four bytes and
      the offset in eight. */
  lemma RowMeans(b: Bytes, name: nat, dims: nat)
    requires |b| >= 24 + name + 8 * dims
    requires FromLittleEndian(b[..8]) == name && FromLittleEndian(b[8 + name..12 + name]) == dims
    ensures var at := 12 + name + 8 * dims;
            var r := ReadTensor(b);
            && r.Success? && r.value.1 == b[at + 12..] && r.value.0.tensor.name == b[8..8 + name]
            && r.value.0.tensor.ttype == FromLittleEndian(b[at..at + 4])
            && r.value.0.offset == FromLittleEndian(b[at + 4..at + 12])
            && |r.value.0.tensor.dims| == dims
            && forall i :: 0 <= i < dims ==>
                 r.value.0.tensor.dims[i] == FromLittleEndian(b[12 + name + 8 * i..12 + name + 8 * i + 8])
  {
    hide FromLittleEndian, ReadDims;
    var named, counted, sized := b[8 + name..], b[12 + name..], b[12 + name + 8 * dims..];
    assert b[8..][..name] == b[8..8 + name] && b[8..][name..] == named;
    assert named[..4] == b[8 + name..12 + name] && named[4..] == counted;
    DimsMean(counted, dims);
    assert counted[8 * dims..] == sized;
    var at := 12 + name + 8 * dims;
    assert sized[..4] == b[at..at + 4] && sized[4..][..8] == b[at + 4..at + 12] && sized[4..][8..] == b[at + 12..];
    forall i | 0 <= i < dims ensures counted[8 * i..8 * i + 8] == b[12 + name + 8 * i..12 + name + 8 * i + 8] {
    }
  }

  /** The rows of an index as it was written. */
  function IndexRows(tensors: seq<Tensor>): seq<IndexRow> {
    seq(|tensors|, i requires 0 <= i < |tensors| => IndexRow(tensors[i], 0))
  }

  lemma {:induction false} NumberRoundTrip(n: nat, k: nat, tail: Bytes)
    requires n < Pow256(k)
    ensures ReadNumber(LittleEndian(n, k) + tail, k) == Success((n, tail))
  {
    LittleEndianRoundTrip(n, k);
    assert (LittleEndian(n, k) + tail)[..k] == LittleEndian(n, k);
  }

  lemma {:induction false} DimsRoundTrip(dims: seq<nat>, tail: Bytes)
    requires forall d :: 0 <= d < |dims| ==> dims[d] < Pow256(8)
    ensures ReadDims(DimBytes(dims) + tail, |dims|) == Success((dims, tail))
  {
    hide LittleEndian, FromLittleEndian, Pow256, ReadNumber;
    if dims == [] {
      assert DimBytes(dims) + tail == tail;
    } else {
      NumberRoundTrip(dims[0], 8, DimBytes(dims[1..]) + tail);
      DimsRoundTrip(dims[1..], tail);
      assert DimBytes(dims) + tail == LittleEndian(dims[0], 8) + (DimBytes(dims[1..]) + tail);
      assert [dims[0]] + dims[1..] == dims;
    }
  }

  lemma {:induction false} TensorRoundTrip(t: Tensor, tail: Bytes)
    requires Indexable(t)
    ensures ReadTensor(TensorBytes(t) + tail) == Success((IndexRow(t, 0), tail))
  {
    hide LittleEndian, FromLittleEndian, Pow256, ReadNumber, ReadDims, DimBytes;
    var offset := LittleEndian(0, 8);
    var ttype := LittleEndian(t.ttype, 4) + (offset + tail);
    var dims := DimBytes(t.dims) + ttype;
    var count := LittleEndian(|t.dims|, 4) + dims;
    assert TensorBytes(t) + tail == LittleEndian(|t.name|, 8) + (t.name + count);
    NumberRoundTrip(|t.name|, 8, t.name + count);
    NumberRoundTrip(|t.dims|, 4, dims);
    DimsRoundTrip(t.dims, ttype);
    NumberRoundTrip(t.ttype, 4, offset + tail);
    NumberRoundTrip(0, 8, tail);
  }

  /** The tensor index is read back row by row, with zero offsets, and the reader stops in front of what follows. */
  lemma {:induction false} IndexRoundTrip(tensors: seq<Tensor>, tail: Bytes)
    requires forall i :: 0 <= i < |tensors| ==> Indexable(tensors[i])
    ensures ReadIndex(IndexBytes(tensors) + tail, |tensors|)
         == Success((IndexRows(tensors), tail))
  {
    hide TensorBytes, ReadTensor, Indexable;
    if tensors == [] {
      assert IndexBytes(tensors) + tail == tail;
    } else {
      var rest := tensors[1..];
      TensorRoundTrip(tensors[0], IndexBytes(rest) + tail);
      IndexRoundTrip(rest, tail);
      assert IndexBytes(tensors) + tail == TensorBytes(tensors[0]) + (IndexBytes(rest) + tail);
      assert IndexRows(tensors)
          == [IndexRow(tensors[0], 0)] + IndexRows(rest);
    }
  }

  // ---------------------------------------------------------------- the index reader's own walk

  /** `skip_value`: no caps, and a fixed-width value may be short; a length or a count may not. */
  function Skip(b: Bytes, t: int): (r: Result<Bytes, Refusal>)
    ensures r.Success? ==> |r.value| <= |b|
    decreases |b|, 0
  {
    if Width(t) > 0 then Success(Drop(b, Width(t)))
    else if t == T_STRING then
      var length :- ReadNumber(b, 8);
      Success(Drop(length.1, length.0))
    else if t == T_ARRAY then
      var item :- ReadNumber(b, 4);
      var count :- ReadNumber(item.1, 8);
      SkipMany(count.1, item.0, count.0)
    else Failure(UnknownType)
  }

  function SkipMany(b: Bytes, t: int, n: nat): (r: Result<Bytes, Refusal>)
    ensures r.Success? ==> |r.value| <= |b|
    decreases |b|, n + 1
  {
    if n == 0 then Success(b)
    else
      var rest :- Skip(b, t);
      SkipMany(rest, t, n - 1)
  }

  function SkipPairs(b: Bytes, n: nat): Result<Bytes, Refusal>
    decreases n
  {
    if n == 0 then Success(b)
    else
      var length :- ReadNumber(b, 8);
      var kind :- ReadNumber(Drop(length.1, length.0), 4);
      var rest :- Skip(kind.1, kind.0);
      SkipPairs(rest, n - 1)
  }

  /** `read_tensor_index`: its rows and what is left behind them. */
  function ReadTensorIndex(b: Bytes): Result<(seq<IndexRow>, Bytes), Refusal> {
    if Take(b, 4) != MAGIC then Failure(NotGguf)
    else
      var version :- ReadNumber(Drop(b, 4), 4);
      var nTensors :- ReadNumber(version.1, 8);
      var nKv :- ReadNumber(nTensors.1, 8);
      var rest :- SkipPairs(nKv.1, nKv.0);
      ReadIndex(rest, nTensors.0)
  }

  lemma NumberTaken(b: Bytes, k: nat)
    requires ReadNumber(b, k).Success?
    ensures ReadNumber(b, k).value == (FromLittleEndian(Take(b, k)), Drop(b, k))
  {
  }

  /** On any bytes at all: a value both readers get through ends at the same byte for both. */
  lemma {:induction false} WalksAgree(b: Bytes, t: int, depth: nat)
    requires depth <= MAX_DEPTH && Skip(b, t).Success? && ReadValue(b, t, depth).Success?
    ensures ReadValue(b, t, depth).value.1 == Skip(b, t).value
    decreases |b|, 0
  {
    hide FromLittleEndian, ReadItems, SkipMany, Unpack;
    if t == T_STRING {
      NumberTaken(b, 8);
    } else if t == T_ARRAY {
      NumberTaken(b, 4);
      var item := ReadNumber(b, 4).value;
      NumberTaken(item.1, 8);
      var count := ReadNumber(item.1, 8).value;
      WalksAgreeAll(count.1, item.0, count.0, depth + 1);
    }
  }

  lemma {:induction false} WalksAgreeAll(b: Bytes, t: int, n: nat, depth: nat)
    requires depth <= MAX_DEPTH && SkipMany(b, t, n).Success? && ReadItems(b, t, n, depth).Success?
    ensures ReadItems(b, t, n, depth).value.1 == SkipMany(b, t, n).value
    decreases |b|, n + 1
  {
    hide Skip, ReadValue;
    if n > 0 {
      WalksAgree(b, t, depth);
      WalksAgreeAll(Skip(b, t).value, t, n - 1, depth);
    }
  }

  /** The same for the whole key/value block: the index starts where the metadata reader stopped. */
  lemma {:induction false} BlocksAgree(b: Bytes, n: nat, kv: map<Bytes, Read>)
    requires SkipPairs(b, n).Success? && ReadPairs(b, n, kv).Success?
    ensures ReadPairs(b, n, kv).value.1 == SkipPairs(b, n).value
    decreases n
  {
    hide FromLittleEndian, Skip, ReadValue;
    if n > 0 {
      NumberTaken(b, 8);
      var (key, rest) := ReadStr(b);
      NumberTaken(rest, 4);
      var t := FromLittleEndian(Take(rest, 4));
      WalksAgree(Drop(rest, 4), t, 0);
      var v := ReadValue(Drop(rest, 4), t, 0).value;
      BlocksAgree(v.1, n - 1, kv[key := v.0]);
    }
  }

  /** A written value is walked over whole, at any nesting and any size. */
  lemma {:induction false} SkipPrinted(v: Typed, tail: Bytes)
    requires Writable(v)
    ensures Skip(Print(v) + tail, TypeId(v)) == Success(tail)
    decreases v, 1, 0
  {
    hide LittleEndian, FromLittleEndian, Pow256, Unpack, PrintAll, SkipMany, ReadNumber, Pack;
    match v
    case Text(s) =>
      assert Print(v) + tail == LittleEndian(|s|, 8) + (s + tail);
      NumberRoundTrip(|s|, 8, s + tail);
    case Items(element, items) =>
      var body := PrintAll(items) + tail;
      assert Print(v) + tail == LittleEndian(element, 4) + (LittleEndian(|items|, 8) + body);
      NumberRoundTrip(element, 4, LittleEndian(|items|, 8) + body);
      NumberRoundTrip(|items|, 8, body);
      SkipPrintedAll(v, items, element, tail);
    case _ =>
      FixedWidth(v);
      assert (Print(v) + tail)[|Print(v)|..] == tail;
  }

  lemma FixedWidth(v: Typed)
    requires Writable(v) && !v.Text? && !v.Items?
    ensures |Print(v)| == Width(TypeId(v)) > 0
  {
    if v.Int? {
      UnpackPack(v.t, v.n);
    }
  }

  lemma {:induction false} SkipPrintedAll(whole: Typed, items: seq<Typed>, element: int, tail: Bytes)
    requires whole.Items?
    requires forall i :: 0 <= i < |items| ==> items[i] < whole && TypeId(items[i]) == element && Writable(items[i])
    ensures SkipMany(PrintAll(items) + tail, element, |items|) == Success(tail)
    decreases whole, 0, |items|
  {
    hide Print, Skip, Writable, TypeId;
    if items == [] {
      assert PrintAll(items) + tail == tail;
    } else {
      var rest := items[1..];
      assert PrintAll(items) + tail == Print(items[0]) + (PrintAll(rest) + tail);
      SkipPrinted(items[0], PrintAll(rest) + tail);
      SkipPrintedAll(whole, rest, element, tail);
    }
  }

  lemma {:induction false} SkipPrintedPairs(ps: seq<Pair>, tail: Bytes)
    requires forall i :: 0 <= i < |ps| ==> WritablePair(ps[i])
    ensures SkipPairs(PrintPairs(ps) + tail, |ps|) == Success(tail)
    decreases |ps|
  {
    hide LittleEndian, FromLittleEndian, Pow256, ReadNumber, Print, Skip, Writable, TypeId;
    if ps == [] {
      assert PrintPairs(ps) + tail == tail;
    } else {
      var p, rest := ps[0], PrintPairs(ps[1..]) + tail;
      assert PrintPairs(ps) + tail == KvEntry(p) + rest;
      hide KvEntry, SkipPairs;
      SkipEntry(p, rest, |ps| - 1);
      SkipPrintedPairs(ps[1..], tail);
    }
  }

  lemma SkipEntry(p: Pair, rest: Bytes, n: nat)
    requires WritablePair(p)
    ensures SkipPairs(KvEntry(p) + rest, n + 1) == SkipPairs(rest, n)
  {
    Widths();
    TypeIdRange(p.value);
    var size, kind, value := LittleEndian(|p.key|, 8), LittleEndian(TypeId(p.value), 4), Print(p.value) + rest;
    assert KvEntry(p) + rest == size + (p.key + (kind + value));
    hide LittleEndian, FromLittleEndian, Pow256, ReadNumber, Print, Skip, Writable, TypeId, KvEntry;
    SkipPrinted(p.value, rest);
    NumberRoundTrip(|p.key|, 8, p.key + (kind + value));
    assert Drop(p.key + (kind + value), |p.key|) == kind + value;
    hide Drop;
    NumberRoundTrip(TypeId(p.value), 4, value);
  }

  /** The index of every written file is read back by a walk of its own, whether or not the metadata reader's
      caps would let that one through. */
  lemma TensorIndexRoundTrip(version: nat, ps: seq<Pair>, tensors: seq<Tensor>, tail: Bytes)
    requires version < Pow256(4) && |tensors| < Pow256(8) && |ps| < Pow256(8)
    requires forall i :: 0 <= i < |ps| ==> WritablePair(ps[i])
    requires forall i :: 0 <= i < |tensors| ==> Indexable(tensors[i])
    ensures ReadTensorIndex(Header(version, |tensors|, ps) + (IndexBytes(tensors) + tail))
         == Success((IndexRows(tensors), tail))
  {
    hide *;
    var index := IndexBytes(tensors) + tail;
    SkipPrintedPairs(ps, index);
    IndexRoundTrip(tensors, tail);
    HeaderNumbers(version, |tensors|, ps, index);
  }

  lemma Reassociate(a: Bytes, b: Bytes, c: Bytes, d: Bytes, e: Bytes, f: Bytes)
    ensures a + b + c + d + e + f == a + (b + (c + (d + (e + f))))
  {
  }

  lemma HeaderNumbers(version: nat, nTensors: nat, ps: seq<Pair>, index: Bytes)
    requires version < Pow256(4) && nTensors < Pow256(8) && |ps| < Pow256(8)
    requires SkipPairs(PrintPairs(ps) + index, |ps|) == Success(index)
    ensures ReadTensorIndex(Header(version, nTensors, ps) + index) == ReadIndex(index, nTensors)
  {
    var v, t, n := LittleEndian(version, 4), LittleEndian(nTensors, 8), LittleEndian(|ps|, 8);
    Reassociate(MAGIC, v, t, n, PrintPairs(ps), index);
    assert Header(version, nTensors, ps) == MAGIC + v + t + n + PrintPairs(ps);
    hide LittleEndian, FromLittleEndian, Pow256, ReadNumber, PrintPairs, ReadIndex, SkipPairs, Header;
    var body := PrintPairs(ps) + index;
    AfterMagic(v + (t + (n + body)));
    hide Take, Drop;
    NumberRoundTrip(version, 4, t + (n + body));
    NumberRoundTrip(nTensors, 8, n + body);
    NumberRoundTrip(|ps|, 8, body);
  }

  lemma AfterMagic(rest: Bytes)
    ensures Take(MAGIC + rest, 4) == MAGIC && Drop(MAGIC + rest, 4) == rest
  {
  }

  lemma {:induction false} IndexSnoc(tensors: seq<Tensor>, t: Tensor)
    ensures IndexBytes(tensors + [t]) == IndexBytes(tensors) + TensorBytes(t)
  {
    hide TensorBytes;
    if tensors == [] {
      assert [] + [t] == [t] && [t][1..] == [];
      assert IndexBytes([t]) == TensorBytes(t) + IndexBytes([]);
    } else {
      assert (tensors + [t])[1..] == tensors[1..] + [t];
      IndexSnoc(tensors[1..], t);
    }
  }

  lemma {:induction false} DimsSnoc(dims: seq<nat>, d: nat)
    ensures DimBytes(dims + [d]) == DimBytes(dims) + LittleEndian(d, 8)
  {
    hide LittleEndian;
    if dims == [] {
      assert [] + [d] == [d] && [d][1..] == [];
      assert DimBytes([d]) == LittleEndian(d, 8) + DimBytes([]);
    } else {
      assert (dims + [d])[1..] == dims[1..] + [d];
      DimsSnoc(dims[1..], d);
    }
  }

  // ---------------------------------------------------------------- the writer

  function Uint32(n: nat): Typed {
    Int(4, n)
  }

  function SyntheticPairs(arch: Bytes, nLayer: nat, nKvHead: nat, keyLen: nat, valueLen: nat, nCtx: nat): seq<Pair> {
    [Pair(Ascii("general.architecture"), Text(arch)),
     Pair(arch + Ascii(".block_count"), Uint32(nLayer)),
     Pair(arch + Ascii(".attention.head_count_kv"), Uint32(nKvHead)),
     Pair(arch + Ascii(".attention.key_length"), Uint32(keyLen)),
     Pair(arch + Ascii(".attention.value_length"), Uint32(valueLen)),
     Pair(arch + Ascii(".context_length"), Uint32(nCtx))]
  }

  /** The six keys never collide, whatever the architecture is called. */
  lemma SyntheticKeysDistinct(arch: Bytes, ps: seq<Pair>)
    requires |ps| == 6 && ps[0].key == Ascii("general.architecture")
    requires ps[1].key == arch + Ascii(".block_count") && ps[2].key == arch + Ascii(".attention.head_count_kv")
    requires ps[3].key == arch + Ascii(".attention.key_length") && ps[4].key == arch + Ascii(".attention.value_length")
    requires ps[5].key == arch + Ascii(".context_length")
    ensures forall i, j :: 0 <= i < j < 6 ==> ps[i].key != ps[j].key
  {
    var n := |arch|;
    assert ps[0].key[19] == 0x65;
    assert ps[1].key[n + 11] == 0x74 && ps[2].key[n + 23] == 0x76 && ps[3].key[n + 20] == 0x68;
    assert ps[4].key[n + 22] == 0x68 && ps[5].key[n + 14] == 0x68;
    assert |ps[1].key| == n + 12 && |ps[2].key| == n + 24 && |ps[3].key| == n + 21 && |ps[4].key| == n + 23 && |ps[5].key| == n + 15;
  }

  /** One entry, its dimensions appended one by one. */
  method WriteTensor(t: Tensor) returns (entry: Bytes)
    ensures entry == TensorBytes(t)
  {
    hide LittleEndian, Gstr;
    entry := Gstr(t.name) + LittleEndian(|t.dims|, 4);
    ghost var head := entry;
    for d := 0 to |t.dims|
      invariant entry == head + DimBytes(t.dims[..d])
    {
      DimsSnoc(t.dims[..d], t.dims[d]);
      assert t.dims[..d] + [t.dims[d]] == t.dims[..d + 1];
      entry := entry + LittleEndian(t.dims[d], 8);
    }
    assert t.dims[..|t.dims|] == t.dims;
    entry := entry + (LittleEndian(t.ttype, 4) + LittleEndian(0, 8));
  }

  /** Writes header, pairs, tensor index and filler; `struct.pack` refuses what does not fit its field. */
  method WriteSynthetic(arch: Bytes, nLayer: nat, nKvHead: nat, keyLen: nat, valueLen: nat, nCtx: nat, tensors: seq<Tensor>)
    returns (blob: Bytes)
    requires |arch| + 24 < Pow256(8) && |tensors| < Pow256(8)
    requires nLayer < Pow256(4) && nKvHead < Pow256(4) && keyLen < Pow256(4) && valueLen < Pow256(4) && nCtx < Pow256(4)
    requires forall i :: 0 <= i < |tensors| ==> Indexable(tensors[i])
    ensures var ps := SyntheticPairs(arch, nLayer, nKvHead, keyLen, valueLen, nCtx);
            && Parse(blob).Success? && Parse(blob).value.0 == Metadata(3, |tensors|, 6, Dictionary(ps, map[]))
            && ReadTensorIndex(blob) == Success((IndexRows(tensors), seq(4096, _ => 0)))
            && forall i :: 0 <= i < 6 ==>
                 ps[i].key in Dictionary(ps, map[]) && Dictionary(ps, map[])[ps[i].key] == Meaning(ps[i].value)
  {
    hide *;
    var ps := SyntheticPairs(arch, nLayer, nKvHead, keyLen, valueLen, nCtx);
    var index: Bytes := [];
    NoTensors();
    for i := 0 to |tensors|
      invariant index == IndexBytes(tensors[..i])
    {
      IndexSnoc(tensors[..i], tensors[i]);
      assert tensors[..i] + [tensors[i]] == tensors[..i + 1];
      var entry := WriteTensor(tensors[i]);
      index := index + entry;
    }
    assert tensors[..|tensors|] == tensors;
    var filler: Bytes := seq(4096, _ => 0);
    blob := Header(3, |tensors|, ps) + (index + filler);
    SyntheticWritable(arch, nLayer, nKvHead, keyLen, valueLen, nCtx);
    HeaderRoundTrip(3, |tensors|, ps, index + filler);
    TensorIndexRoundTrip(3, ps, tensors, filler);
    SyntheticKeys(arch, nLayer, nKvHead, keyLen, valueLen, nCtx);
    DictionaryComplete(ps, map[]);
  }

  lemma NoTensors()
    ensures IndexBytes([]) == []
  {
  }

  lemma SyntheticWritable(arch: Bytes, nLayer: nat, nKvHead: nat, keyLen: nat, valueLen: nat, nCtx: nat)
    requires |arch| + 24 < Pow256(8)
    requires nLayer < Pow256(4) && nKvHead < Pow256(4) && keyLen < Pow256(4) && valueLen < Pow256(4) && nCtx < Pow256(4)
    ensures var ps := SyntheticPairs(arch, nLayer, nKvHead, keyLen, valueLen, nCtx);
            && |ps| == 6 < Pow256(8) && 3 < Pow256(4)
            && forall i :: 0 <= i < 6 ==> WritablePair(ps[i]) && WithinCaps(ps[i].value, 0)
  {
    Widths();
    hide Pow256;
  }

  lemma SyntheticKeys(arch: Bytes, nLayer: nat, nKvHead: nat, keyLen: nat, valueLen: nat, nCtx: nat)
    ensures var ps := SyntheticPairs(arch, nLayer, nKvHead, keyLen, valueLen, nCtx);
            |ps| == 6 && forall i, j :: 0 <= i < j < 6 ==> ps[i].key != ps[j].key
  {
    var ps := SyntheticPairs(arch, nLayer, nKvHead, keyLen, valueLen, nCtx);
    hide Ascii;
    SyntheticKeysDistinct(arch, ps);
  }
}
