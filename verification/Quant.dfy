/** Recommending a quantisation: the heaviest one that fits the host, on the GPU before the CPU. */
module Quant {
  import opened Arith
  import opened Sequences
  import opened Wrappers

  datatype Kv = F16 | Q80 | Q40

  datatype Candidate = Candidate(name: string, weights: nat)

  datatype Placement = Gpu | Cpu

  datatype Plan = Plan(quant: Candidate, kv: Kv, placement: Placement, total: nat)

  /** What the host has, how much of it is kept free, and what the request needs. */
  datatype Host = Host(
    vram: nat, ram: nat, vramMargin: real, ramMargin: real, perToken: nat, nCtx: nat, nSeqMax: nat, overhead: nat)

  const KV_TYPES := [F16, Q80, Q40]

  /** Bytes of one cached element. */
  function TypeBytes(kv: Kv): nat {
    match kv
    case F16 => 2
    case Q80 => 1
    case Q40 => 1
  }

  /** `plan_memory`: weights, a cache for every sequence, and the overhead. */
  function Total(host: Host, weights: nat, perToken: nat): nat {
    weights + perToken * host.nCtx * host.nSeqMax + host.overhead
  }

  function GpuTotal(host: Host, weights: nat, kv: Kv): nat {
    Total(host, weights, host.perToken / 2 * TypeBytes(kv))
  }

  /** `int(x)`. */
  function Truncated(x: real): int {
    if x >= 0.0 then x.Floor else -(-x).Floor
  }

  function Kept(bytes: nat, margin: real): real {
    bytes as real * (1.0 - margin)
  }

  function GpuBudget(host: Host): int {
    Truncated(Kept(host.vram, host.vramMargin))
  }

  function CpuBudget(host: Host): int {
    Truncated(Kept(host.ram, host.ramMargin))
  }

  predicate GpuFits(host: Host, c: Candidate, kv: Kv) {
    GpuTotal(host, c.weights, kv) <= GpuBudget(host)
  }

  predicate CpuFits(host: Host, c: Candidate) {
    Total(host, c.weights, host.perToken) <= CpuBudget(host)
  }

  predicate NoLighter(c: Candidate, d: Candidate) {
    c.weights >= d.weights
  }

  /** Heaviest first; equals keep their order. */
  function Heaviest(cs: seq<Candidate>): (ordered: seq<Candidate>)
    ensures |ordered| == |cs|
  {
    Sort(NoLighter, cs)
  }

  lemma {:induction false} HeaviestFirst(cs: seq<Candidate>)
    ensures Ordered(NoLighter, Heaviest(cs))
    ensures forall c :: c in Heaviest(cs) <==> c in cs
  {
    SortOrdered(NoLighter, cs);
    hide Sort;
    assert forall c :: c in Heaviest(cs) <==> c in multiset(Heaviest(cs));
    assert forall c :: c in cs <==> c in multiset(cs);
  }

  /** The first candidate listed with a given weight. */
  function FirstOf(cs: seq<Candidate>, weights: nat): (c: Option<Candidate>)
    ensures c.Some? ==> c.value in cs && c.value.weights == weights
    ensures c.None? ==> forall d <- cs :: d.weights != weights
  {
    if cs == [] then None
    else if cs[0].weights == weights then Some(cs[0])
    else
      assert forall d <- cs :: d == cs[0] || d in cs[1..];
      FirstOf(cs[1..], weights)
  }

  lemma {:induction false} FirstInserted(x: Candidate, s: seq<Candidate>, weights: nat)
    ensures FirstOf(Insert(NoLighter, x, s), weights) == if x.weights == weights then Some(x) else FirstOf(s, weights)
  {
    if s == [] || NoLighter(x, s[0]) {
      assert ([x] + s)[1..] == s;
    } else {
      FirstInserted(x, s[1..], weights);
      assert ([s[0]] + Insert(NoLighter, x, s[1..]))[1..] == Insert(NoLighter, x, s[1..]);
    }
  }

  /** Sorting keeps the first of equally heavy candidates first. */
  lemma {:induction false} FirstSorted(cs: seq<Candidate>, weights: nat)
    ensures FirstOf(Heaviest(cs), weights) == FirstOf(cs, weights)
  {
    if cs != [] {
      FirstSorted(cs[1..], weights);
      FirstInserted(cs[0], Heaviest(cs[1..]), weights);
    }
  }

  lemma {:induction false} FirstAt(cs: seq<Candidate>, i: nat)
    requires i < |cs| && forall j :: 0 <= j < i ==> cs[j].weights != cs[i].weights
    ensures FirstOf(cs, cs[i].weights) == Some(cs[i])
  {
    if i > 0 {
      FirstAt(cs[1..], i - 1);
    }
  }

  ghost predicate NoGpu(host: Host, cs: seq<Candidate>) {
    forall c, kv :: c in cs ==> !GpuFits(host, c, kv)
  }

  /** The cache types in the order they are tried. */
  function Rank(kv: Kv): nat {
    match kv
    case F16 => 0
    case Q80 => 1
    case Q40 => 2
  }

  /** A GPU plan nothing heavier could replace, nor the same weight with an earlier cache type; of equally heavy
      candidates it takes the first listed. */
  ghost predicate BestGpu(host: Host, cs: seq<Candidate>, p: Plan) {
    && p.placement.Gpu? && p.quant in cs && FirstOf(cs, p.quant.weights) == Some(p.quant) && GpuFits(host, p.quant, p.kv)
    && p.total == GpuTotal(host, p.quant.weights, p.kv)
    && (forall c, kv :: c in cs && c.weights > p.quant.weights ==> !GpuFits(host, c, kv))
    && (forall kv :: Rank(kv) < Rank(p.kv) ==> !GpuFits(host, p.quant, kv))
  }

  ghost predicate BestCpu(host: Host, cs: seq<Candidate>, p: Plan) {
    && p.placement.Cpu? && p.kv.F16? && p.quant in cs && FirstOf(cs, p.quant.weights) == Some(p.quant) && CpuFits(host, p.quant)
    && p.total == Total(host, p.quant.weights, host.perToken)
    && forall c :: c in cs && c.weights > p.quant.weights ==> !CpuFits(host, c)
  }

  /** `recommend_quant`: the nested loops with their early returns. */
  method RecommendQuant(candidates: seq<Candidate>, host: Host) returns (r: Option<Plan>)
    ensures r.Some? && r.value.placement.Gpu? ==> BestGpu(host, candidates, r.value)
    ensures r.Some? && r.value.placement.Cpu? ==> NoGpu(host, candidates) && BestCpu(host, candidates, r.value)
    ensures r.None? <==> NoGpu(host, candidates) && forall c <- candidates :: !CpuFits(host, c)
  {
    hide GpuFits, CpuFits, GpuTotal, Total, Heaviest, FirstOf;
    var ordered := Heaviest(candidates);
    HeaviestFirst(candidates);
    for i := 0 to |ordered|
      invariant forall j, kv :: 0 <= j < i ==> !GpuFits(host, ordered[j], kv)
    {
      var c := ordered[i];
      for k := 0 to |KV_TYPES|
        invariant forall kv :: Rank(kv) < k ==> !GpuFits(host, c, kv)
      {
        var kv := KV_TYPES[k];
        assert Rank(kv) == k;
        var total := GpuTotal(host, c.weights, kv);
        FitsGpu(host, c, kv);
        if total <= GpuBudget(host) {
          FirstFitting(host, candidates, i, kv);
          return Some(Plan(c, kv, Gpu, total));
        }
      }
    }
    for i := 0 to |ordered|
      invariant forall j :: 0 <= j < i ==> !CpuFits(host, ordered[j])
    {
      var c := ordered[i];
      var total := Total(host, c.weights, host.perToken);
      FitsCpu(host, c);
      if total <= CpuBudget(host) {
        FirstOnCpu(host, candidates, i);
        return Some(Plan(c, F16, Cpu, total));
      }
    }
    return None;
  }

  /** Whether a candidate fits depends on its weight alone, so the first that fits is the first of its weight. */
  lemma FirstFitting(host: Host, cs: seq<Candidate>, i: nat, kv: Kv)
    requires i < |Heaviest(cs)| && GpuFits(host, Heaviest(cs)[i], kv)
    requires forall j :: 0 <= j < i ==> !GpuFits(host, Heaviest(cs)[j], kv)
    ensures FirstOf(cs, Heaviest(cs)[i].weights) == Some(Heaviest(cs)[i])
  {
    hide Heaviest;
    FirstAt(Heaviest(cs), i);
    FirstSorted(cs, Heaviest(cs)[i].weights);
  }

  lemma FirstOnCpu(host: Host, cs: seq<Candidate>, i: nat)
    requires i < |Heaviest(cs)| && CpuFits(host, Heaviest(cs)[i])
    requires forall j :: 0 <= j < i ==> !CpuFits(host, Heaviest(cs)[j])
    ensures FirstOf(cs, Heaviest(cs)[i].weights) == Some(Heaviest(cs)[i])
  {
    hide Heaviest;
    FirstAt(Heaviest(cs), i);
    FirstSorted(cs, Heaviest(cs)[i].weights);
  }

  lemma FitsGpu(host: Host, c: Candidate, kv: Kv)
    ensures GpuFits(host, c, kv) <==> GpuTotal(host, c.weights, kv) <= GpuBudget(host)
  {
  }

  lemma FitsCpu(host: Host, c: Candidate)
    ensures CpuFits(host, c) <==> Total(host, c.weights, host.perToken) <= CpuBudget(host)
  {
  }

  // ---------------------------------------------------------------- what a plan costs

  /** Without sequences a plan costs its weights and the overhead; every further sequence costs a cache of the
      whole context and every further context token one entry in each: a full entry for sixteen bits, half of one
      for eight or four. */
  lemma {:induction false} CostGrows(host: Host, weights: nat)
    ensures var half, ctx, seqs := host.perToken / 2, host.nCtx, host.nSeqMax;
            var wider, longer := host.(nSeqMax := seqs + 1), host.(nCtx := ctx + 1);
            && GpuTotal(host.(nSeqMax := 0), weights, F16) == weights + host.overhead
            && GpuTotal(wider, weights, F16) - GpuTotal(host, weights, F16) == 2 * half * ctx
            && GpuTotal(longer, weights, F16) - GpuTotal(host, weights, F16) == 2 * half * seqs
            && GpuTotal(wider, weights, Q80) - GpuTotal(host, weights, Q80) == half * ctx
            && GpuTotal(longer, weights, Q80) - GpuTotal(host, weights, Q80) == half * seqs
            && GpuTotal(host, weights, Q40) == GpuTotal(host, weights, Q80)
            && Total(wider, weights, host.perToken) - Total(host, weights, host.perToken) == host.perToken * ctx
            && Total(longer, weights, host.perToken) - Total(host, weights, host.perToken) == host.perToken * seqs
  {
    var half, ctx, seqs := host.perToken / 2, host.nCtx, host.nSeqMax;
    OneMore(half * 2, ctx, seqs);
    OneMore(half, ctx, seqs);
    OneMore(host.perToken, ctx, seqs);
    assert half * TypeBytes(F16) == half * 2 && half * TypeBytes(Q80) == half && half * TypeBytes(Q40) == half;
  }

  lemma OneMore(entry: nat, ctx: nat, seqs: nat)
    ensures entry * ctx * (seqs + 1) == entry * ctx * seqs + entry * ctx
    ensures entry * (ctx + 1) * seqs == entry * ctx * seqs + entry * seqs
    ensures entry * ctx * 0 == 0
  {
  }

  /** A budget is what is left of the memory after the margin, in whole bytes. */
  lemma BudgetMeans(host: Host)
    requires 0.0 <= host.vramMargin <= 1.0 && 0.0 <= host.ramMargin <= 1.0
    ensures 0.0 <= host.vram as real - host.vram as real * host.vramMargin - GpuBudget(host) as real < 1.0
    ensures 0.0 <= host.ram as real - host.ram as real * host.ramMargin - CpuBudget(host) as real < 1.0
  {
    LeftOver(host.vram as real, host.vramMargin);
    LeftOver(host.ram as real, host.ramMargin);
  }

  lemma LeftOver(bytes: real, margin: real)
    requires bytes >= 0.0 && 0.0 <= margin <= 1.0
    ensures bytes * (1.0 - margin) == bytes - bytes * margin >= 0.0
  {
    Product(bytes, 1.0 - margin);
  }

  // ---------------------------------------------------------------- what follows

  /** A four-bit cache costs what an eight-bit one costs here, so it is never the answer. */
  lemma {:induction false} NeverFourBit(host: Host, cs: seq<Candidate>, p: Plan)
    requires BestGpu(host, cs, p)
    ensures !p.kv.Q40?
  {
    assert Rank(Q80) < Rank(Q40);
    hide GpuFits;
  }

  lemma {:induction false} BudgetGrows(v: nat, w: nat, margin: real)
    requires v <= w && margin <= 1.0
    ensures Truncated(Kept(v, margin)) <= Truncated(Kept(w, margin))
  {
    var x, y, share := v as real, w as real, 1.0 - margin;
    Product(y - x, share);
    Product(x, share);
  }

  lemma {:induction false} BudgetWith(host: Host, more: nat)
    requires more >= host.vram && host.vramMargin <= 1.0
    ensures GpuBudget(host) <= GpuBudget(host.(vram := more))
  {
    hide Truncated, Kept;
    BudgetGrows(host.vram, more, host.vramMargin);
  }

  /** More VRAM never turns a GPU answer into a lighter quantisation, nor into one on the CPU or none. */
  lemma {:induction false} MoreVram(host: Host, more: nat, cs: seq<Candidate>, p: Plan, q: Plan)
    requires more >= host.vram && host.vramMargin <= 1.0 && BestGpu(host, cs, p)
    ensures !NoGpu(host.(vram := more), cs)
    ensures BestGpu(host.(vram := more), cs, q) ==> q.quant.weights >= p.quant.weights
    ensures BestGpu(host.(vram := more), cs, q) && q.quant == p.quant ==> Rank(q.kv) <= Rank(p.kv)
  {
    var bigger := host.(vram := more);
    BudgetWith(host, more);
    assert GpuTotal(bigger, p.quant.weights, p.kv) == GpuTotal(host, p.quant.weights, p.kv);
    hide GpuTotal, GpuBudget;
    assert GpuFits(bigger, p.quant, p.kv);
  }

  /** "No quant fits vram or ram" is said of a host whose RAM would hold the lightest one with an eight-bit cache:
      on the CPU only the sixteen-bit cache is tried. */
  lemma {:induction false} EightBitOnCpuNeverTried()
    ensures var host := Host(0, 1000, 0.1, 0.2, 100, 10, 1, 0);
            var c := Candidate("q", 200);
            && NoGpu(host, [c]) && !CpuFits(host, c)
            && Total(host, c.weights, host.perToken / 2 * TypeBytes(Q80)) <= CpuBudget(host)
  {
    var host := Host(0, 1000, 0.1, 0.2, 100, 10, 1, 0);
    assert GpuBudget(host) == 0 && CpuBudget(host) == 800;
  }

  /** "Insufficient" means that nothing fits at all exactly when no candidate would fit the RAM with a smaller cache. */
  lemma {:induction false} InsufficientMeansNothingFits(host: Host, cs: seq<Candidate>)
    requires NoGpu(host, cs) && forall c <- cs :: !CpuFits(host, c)
    ensures (forall c, kv :: c in cs ==> Total(host, c.weights, host.perToken / 2 * TypeBytes(kv)) > CpuBudget(host))
            <==> forall c <- cs :: Total(host, c.weights, host.perToken / 2) > CpuBudget(host)
  {
    if forall c <- cs :: Total(host, c.weights, host.perToken / 2) > CpuBudget(host) {
      forall c, kv | c in cs ensures Total(host, c.weights, host.perToken / 2 * TypeBytes(kv)) > CpuBudget(host) {
      }
    } else {
      var c :| c in cs && Total(host, c.weights, host.perToken / 2) <= CpuBudget(host);
      assert TypeBytes(Q80) == 1;
      assert host.perToken / 2 * TypeBytes(Q80) == host.perToken / 2;
    }
  }
}
