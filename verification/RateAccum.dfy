/** rates.go, rateAccum: tokens over time in buckets whose width doubles when they run
    out. Times and tokens are reals: rounding is not modelled. */
module RateAccums {

  /** The five series: prompt tokens, their computed, external and GPU-cache parts, and output. */
  datatype Series = In | Computed | External | Gpu | Out

  /** What was ever added. */
  datatype Added =
    | Impulse(t: real, total: real, computed: real, external: real, gpu: real)
    | Spread(t0: real, t1: real, tokens: real)

  function Max(a: real, b: real): real { if a >= b then a else b }
  function Min(a: real, b: real): real { if a <= b then a else b }

  function Share(c: Added, s: Series): real
  {
    match c
    case Impulse(_, total, computed, external, gpu) =>
      (match s case In => total case Computed => computed case External => external case Gpu => gpu case Out => 0.0)
    case Spread(_, _, tokens) => if s == Out && tokens > 0.0 then tokens else 0.0
  }

  /** A spread with some of its interval at or after time zero. */
  predicate Lasting(c: Added)
  {
    c.Spread? && c.t0 < c.t1 && c.t1 > 0.0
  }

  /** A spread whose whole interval lies before time zero: nothing of it is recorded. */
  predicate Lost(c: Added)
  {
    c.Spread? && c.t0 < c.t1 <= 0.0
  }

  /** Tokens per unit of time; a negative start counts as zero. */
  function Rate(c: Added, s: Series): real
    requires Lasting(c)
  {
    Share(c, s) / (c.t1 - Max(c.t0, 0.0))
  }

  function Clamp(x: real, lo: real, hi: real): real { Min(Max(x, lo), hi) }

  /** The moment a point lands. */
  function PointTime(c: Added): real
  {
    if c.Impulse? then Max(c.t, 0.0) else Max(c.t0, 0.0)
  }

  /** Tokens of one addition that have arrived before x: a point all at once, a spread at
      its rate from its start to its end. */
  function Arrived(c: Added, s: Series, x: real): real
  {
    if Lost(c) then 0.0
    else if Lasting(c) then Rate(c, s) * (Clamp(x, Max(c.t0, 0.0), c.t1) - Max(c.t0, 0.0))
    else if PointTime(c) < x then Share(c, s) else 0.0
  }

  ghost function ArrivedAll(h: seq<Added>, s: Series, x: real): real
  {
    if |h| == 0 then 0.0 else ArrivedAll(h[..|h| - 1], s, x) + Arrived(h[|h| - 1], s, x)
  }

  /** Tokens of one addition that fall inside [lo, hi). */
  function Mass(c: Added, s: Series, lo: real, hi: real): real
  {
    Arrived(c, s, hi) - Arrived(c, s, lo)
  }

  /** Tokens ever added that fall inside [lo, hi). */
  ghost function Tokens(h: seq<Added>, s: Series, lo: real, hi: real): real
  {
    ArrivedAll(h, s, hi) - ArrivedAll(h, s, lo)
  }

  /** The latest moment an addition touches. */
  function Extent(c: Added): real
  {
    if Lasting(c) then c.t1 else PointTime(c)
  }

  ghost predicate EndsBefore(h: seq<Added>, end: real)
  {
    forall i | 0 <= i < |h| :: Extent(h[i]) < end
  }

  /** What an addition leaves behind in all: its tokens, unless it is lost. */
  function Landed(c: Added, s: Series): real
  {
    if Lost(c) then 0.0 else Share(c, s)
  }

  lemma AllArrived(c: Added, s: Series, x: real)
    requires Extent(c) < x
    ensures Arrived(c, s, x) == Landed(c, s)
  {
    if Lasting(c) {
      var w := c.t1 - Max(c.t0, 0.0);
      assert Clamp(x, Max(c.t0, 0.0), c.t1) == c.t1;
      assert Share(c, s) / w * w == Share(c, s);
    }
  }

  lemma {:induction false} NothingBeyond(h: seq<Added>, s: Series, lo: real, hi: real)
    requires EndsBefore(h, lo) && lo <= hi
    ensures Tokens(h, s, lo, hi) == 0.0
  {
    if |h| > 0 {
      NothingBeyond(h[..|h| - 1], s, lo, hi);
      AllArrived(h[|h| - 1], s, lo);
      AllArrived(h[|h| - 1], s, hi);
    }
  }

  // ---- Buckets ----

  /** Where bucket i begins: i widths from zero. */
  function Edge(i: nat, bw: real): real
  {
    if i == 0 then 0.0 else Edge(i - 1, bw) + bw
  }

  lemma {:induction false} EdgeIsProduct(i: nat, bw: real)
    ensures Edge(i, bw) == i as real * bw
  {
    if i > 0 { EdgeIsProduct(i - 1, bw); }
  }

  /** Bucket i holds precisely the tokens of its interval. */
  ghost predicate ExactAt(h: seq<Added>, s: Series, v: seq<real>, bw: real, i: nat)
    requires i < |v|
  {
    v[i] == Tokens(h, s, Edge(i, bw), Edge(i + 1, bw))
  }

  ghost predicate ExactTo(h: seq<Added>, s: Series, v: seq<real>, bw: real, n: nat)
    requires n <= |v|
  {
    n > 0 ==> ExactAt(h, s, v, bw, n - 1) && ExactTo(h, s, v, bw, n - 1)
  }

  /** Every bucket holds precisely the tokens of its interval. */
  ghost predicate Exact(h: seq<Added>, s: Series, v: seq<real>, bw: real)
  {
    ExactTo(h, s, v, bw, |v|)
  }

  lemma {:induction false} ExactEverywhere(h: seq<Added>, s: Series, v: seq<real>, bw: real, n: nat)
    requires n <= |v|
    ensures ExactTo(h, s, v, bw, n) <==> forall i | 0 <= i < n :: ExactAt(h, s, v, bw, i)
  {
    if n > 0 { ExactEverywhere(h, s, v, bw, n - 1); }
  }

  lemma {:induction false} EdgesAscend(i: nat, j: nat, bw: real)
    requires i <= j && bw > 0.0
    ensures Edge(i, bw) <= Edge(j, bw)
  {
    if i < j { EdgesAscend(i, j - 1, bw); }
  }

  lemma {:induction false} EdgesDouble(i: nat, bw: real)
    ensures Edge(i, 2.0 * bw) == Edge(2 * i, bw)
  {
    if i > 0 {
      EdgesDouble(i - 1, bw);
      assert Edge(2 * i, bw) == Edge(2 * i - 1, bw) + bw == Edge(2 * i - 2, bw) + bw + bw;
    }
  }

  lemma ScaledBounds(i: real, q: real, bw: real, t: real)
    requires i <= q < i + 1.0 && bw > 0.0 && q * bw == t
    ensures i * bw <= t < i * bw + bw
  {
    var d, e := i + 1.0 - q, q - i;
    assert d * bw > 0.0 && e * bw >= 0.0;
    assert q * bw == i * bw + e * bw by { assert q == i + e; }
    assert i * bw + bw == q * bw + d * bw by { assert i + 1.0 == q + d; assert (i + 1.0) * bw == i * bw + bw; }
  }

  lemma FloorIsBucket(t: real, bw: real)
    requires bw > 0.0 && t >= 0.0
    ensures var i := (t / bw).Floor; i >= 0 && Edge(i, bw) <= t < Edge(i + 1, bw)
  {
    var q := t / bw;
    assert q >= 0.0 && q * bw == t;
    var i: nat := q.Floor;
    EdgeIsProduct(i, bw);
    ScaledBounds(i as real, q, bw, t);
  }

  lemma WidthHalvesTheIndex(t: real, bw: real)
    requires bw > 0.0 && t >= 0.0 && (t / bw).Floor > 0
    ensures 0 <= (t / (2.0 * bw)).Floor < (t / bw).Floor
  {
    var q := t / bw;
    assert t / (2.0 * bw) == q / 2.0;
  }

  /** Neighbours merged in pairs; an odd last one stays alone. */
  function Coarser(v: seq<real>): (w: seq<real>)
    ensures |w| == (|v| + 1) / 2
  {
    seq((|v| + 1) / 2, i requires 0 <= i < (|v| + 1) / 2 => v[2 * i] + (if 2 * i + 1 < |v| then v[2 * i + 1] else 0.0))
  }

  lemma CoarserBucket(h: seq<Added>, s: Series, v: seq<real>, bw: real, i: nat)
    requires bw > 0.0 && EndsBefore(h, Edge(|v|, bw)) && i < |Coarser(v)|
    requires ExactAt(h, s, v, bw, 2 * i) && (2 * i + 1 < |v| ==> ExactAt(h, s, v, bw, 2 * i + 1))
    ensures ExactAt(h, s, Coarser(v), 2.0 * bw, i)
  {
    EdgesDouble(i, bw);
    EdgesDouble(i + 1, bw);
    assert 2 * (i + 1) == 2 * i + 1 + 1;
    if 2 * i + 1 >= |v| {
      EdgesAscend(2 * i + 1, 2 * i + 2, bw);
      NothingBeyond(h, s, Edge(2 * i + 1, bw), Edge(2 * i + 2, bw));
    }
  }

  lemma CoarsenedIsExact(h: seq<Added>, s: Series, v: seq<real>, bw: real)
    requires bw > 0.0 && Exact(h, s, v, bw) && EndsBefore(h, Edge(|v|, bw))
    ensures Exact(h, s, Coarser(v), 2.0 * bw) && EndsBefore(h, Edge(|Coarser(v)|, 2.0 * bw))
  {
    var w := Coarser(v);
    ExactEverywhere(h, s, v, bw, |v|);
    EdgesDouble(|w|, bw);
    EdgesAscend(|v|, 2 * |w|, bw);
    var wide := 2.0 * bw;
    forall i | 0 <= i < |w| ensures ExactAt(h, s, w, wide, i) {
      CoarserBucket(h, s, v, bw, i);
    }
    ExactEverywhere(h, s, w, wide, |w|);
  }

  lemma PaddedIsExact(h: seq<Added>, s: Series, v: seq<real>, w: seq<real>, bw: real)
    requires bw > 0.0 && Exact(h, s, v, bw) && EndsBefore(h, Edge(|v|, bw))
    requires |w| >= |v| && w[..|v|] == v && forall i | |v| <= i < |w| :: w[i] == 0.0
    ensures Exact(h, s, w, bw) && EndsBefore(h, Edge(|w|, bw))
  {
    ExactEverywhere(h, s, v, bw, |v|);
    EdgesAscend(|v|, |w|, bw);
    forall i | 0 <= i < |w| ensures ExactAt(h, s, w, bw, i) {
      if i >= |v| {
        EdgesAscend(|v|, i, bw);
        EdgesAscend(i, i + 1, bw);
        NothingBeyond(h, s, Edge(i, bw), Edge(i + 1, bw));
      } else {
        assert w[i] == w[..|v|][i];
        assert ExactAt(h, s, v, bw, i);
      }
    }
    ExactEverywhere(h, s, w, bw, |w|);
  }

  /** Adding `c` and crediting each bucket its mass keeps the buckets exact. */
  lemma CreditedIsExact(h: seq<Added>, c: Added, s: Series, v: seq<real>, w: seq<real>, bw: real)
    requires Exact(h, s, v, bw) && |w| == |v|
    requires forall i | 0 <= i < |v| :: w[i] == v[i] + Mass(c, s, Edge(i, bw), Edge(i + 1, bw))
    ensures Exact(h + [c], s, w, bw)
  {
    assert (h + [c])[..|h|] == h;
    ExactEverywhere(h, s, v, bw, |v|);
    forall i | 0 <= i < |w| ensures ExactAt(h + [c], s, w, bw, i) {
      assert ExactAt(h, s, v, bw, i);
    }
    ExactEverywhere(h + [c], s, w, bw, |w|);
  }

  /** A point lies in just one bucket. */
  lemma PointInBucket(p: real, i: nat, j: nat, bw: real)
    requires bw > 0.0 && Edge(i, bw) <= p < Edge(i + 1, bw)
    ensures Edge(j, bw) <= p < Edge(j + 1, bw) <==> j == i
  {
    if j < i { EdgesAscend(j + 1, i, bw); }
    if j > i { EdgesAscend(i + 1, j, bw); }
  }

  method CoarsenSeries(v: seq<real>) returns (w: seq<real>)
    ensures w == Coarser(v)
  {
    var n := (|v| + 1) / 2;
    w := v;
    for i := 0 to n
      invariant |w| == |v|
      invariant forall k | 0 <= k < i :: w[k] == Coarser(v)[k]
      invariant forall k | i <= k < |v| :: w[k] == v[k]
    {
      w := w[i := w[2 * i]];
      if 2 * i + 1 < |w| {
        w := w[i := w[i] + w[2 * i + 1]];
      }
    }
    w := w[..n];
  }

  method Grow(v: seq<real>, n: nat) returns (w: seq<real>)
    ensures |w| == if |v| > n then |v| else n + 1
    ensures w[..|v|] == v && forall i | |v| <= i < |w| :: w[i] == 0.0
  {
    w := v;
    while |w| <= n
      invariant |v| <= |w| && (|w| <= |v| || |w| <= n + 1) && w[..|v|] == v
      invariant forall i | |v| <= i < |w| :: w[i] == 0.0
      decreases n + 1 - |w|
    {
      w := w + [0.0];
    }
  }

  class RateAccum {
    var bw: real
    const max: nat
    var input: seq<real>
    var computed: seq<real>
    var external: seq<real>
    var gpu: seq<real>
    var output: seq<real>
    ghost var added: seq<Added>

    ghost predicate Valid()
      reads this
    {
      && bw > 0.0 && max >= 64
      && |input| == |computed| == |external| == |gpu| == |output| <= max
      && Exact(added, In, input, bw) && Exact(added, Computed, computed, bw)
      && Exact(added, External, external, bw) && Exact(added, Gpu, gpu, bw)
      && Exact(added, Out, output, bw)
      && EndsBefore(added, Edge(|input|, bw))
    }

    constructor (bw: real, max: int)
      ensures Valid() && added == [] && this.bw == (if bw <= 0.0 then 1000.0 else bw)
      ensures this.max == if max < 64 then 64 else max
    {
      this.bw := if bw <= 0.0 then 1000.0 else bw;
      this.max := if max < 64 then 64 else max;
      input, computed, external, gpu, output, added := [], [], [], [], [], [];
    }

    method Coarsen()
      requires Valid()
      modifies this
      ensures Valid() && added == old(added) && bw == 2.0 * old(bw)
      ensures |input| == (|old(input)| + 1) / 2
    {
      hide Exact, EndsBefore, Edge;
      var vi := CoarsenSeries(input);
      var vc := CoarsenSeries(computed);
      var ve := CoarsenSeries(external);
      var vg := CoarsenSeries(gpu);
      var vo := CoarsenSeries(output);
      CoarsenedIsExact(added, In, input, bw);
      CoarsenedIsExact(added, Computed, computed, bw);
      CoarsenedIsExact(added, External, external, bw);
      CoarsenedIsExact(added, Gpu, gpu, bw);
      CoarsenedIsExact(added, Out, output, bw);
      input, computed, external, gpu, output := vi, vc, ve, vg, vo;
      bw := 2.0 * bw;
    }

    /** The bucket of time t, growing and coarsening as needed. */
    method Bucket(t0: real) returns (i: nat)
      requires Valid()
      modifies this
      ensures Valid() && added == old(added) && bw >= old(bw)
      ensures i < |input| && Edge(i, bw) <= Max(t0, 0.0) < Edge(i + 1, bw)
    {
      var t := t0;
      if t < 0.0 {
        t := 0.0;
      }
      FloorIsBucket(t, bw);
      while (t / bw).Floor >= max
        invariant Valid() && added == old(added) && bw >= old(bw)
        invariant (t / bw).Floor >= 0
        decreases (t / bw).Floor
      {
        WidthHalvesTheIndex(t, bw);
        Coarsen();
      }
      FloorIsBucket(t, bw);
      i := (t / bw).Floor;
      GrowAll(i);
    }

    method GrowAll(i: nat)
      requires Valid() && i < max
      modifies this
      ensures Valid() && added == old(added) && bw == old(bw) && i < |input|
    {
      var vi := Grow(input, i);
      var vc := Grow(computed, i);
      var ve := Grow(external, i);
      var vg := Grow(gpu, i);
      var vo := Grow(output, i);
      PaddedIsExact(added, In, input, vi, bw);
      PaddedIsExact(added, Computed, computed, vc, bw);
      PaddedIsExact(added, External, external, ve, bw);
      PaddedIsExact(added, Gpu, gpu, vg, bw);
      PaddedIsExact(added, Out, output, vo, bw);
      input, computed, external, gpu, output := vi, vc, ve, vg, vo;
    }

    /** Prompt tokens and their parts at one moment: each series grows by its own. */
    method AddImpulse(t: real, total: real, comp: real, ext: real, gp: real)
      requires Valid()
      modifies this
      ensures Valid() && added == old(added) + [Impulse(t, total, comp, ext, gp)]
      ensures All(input) == old(All(input)) + total && All(computed) == old(All(computed)) + comp
      ensures All(external) == old(All(external)) + ext && All(gpu) == old(All(gpu)) + gp
      ensures All(output) == old(All(output))
    {
      HoldsAll();
      var i := Bucket(t);
      ghost var c := Impulse(t, total, comp, ext, gp);
      ghost var was := added;
      var vi := input[i := input[i] + total];
      var vc := computed[i := computed[i] + comp];
      var ve := external[i := external[i] + ext];
      var vg := gpu[i := gpu[i] + gp];
      ImpulseCredits(c, In, input, vi, i, bw);
      ImpulseCredits(c, Computed, computed, vc, i, bw);
      ImpulseCredits(c, External, external, ve, i, bw);
      ImpulseCredits(c, Gpu, gpu, vg, i, bw);
      ImpulseCredits(c, Out, output, output, i, bw);
      CreditedIsExact(was, c, In, input, vi, bw);
      CreditedIsExact(was, c, Computed, computed, vc, bw);
      CreditedIsExact(was, c, External, external, ve, bw);
      CreditedIsExact(was, c, Gpu, gpu, vg, bw);
      CreditedIsExact(was, c, Out, output, output, bw);
      input, computed, external, gpu := vi, vc, ve, vg;
      added := added + [c];
      StillEndsBefore(was, c, |input|, i, bw);
      HoldsAll();
      assert added[..|was|] == was;
    }

    /** The buckets of each series hold all that landed. */
    lemma HoldsAll()
      requires Valid()
      ensures All(input) == LandedAll(added, In) && All(computed) == LandedAll(added, Computed)
      ensures All(external) == LandedAll(added, External) && All(gpu) == LandedAll(added, Gpu)
      ensures All(output) == LandedAll(added, Out)
    {
      hide Exact, EndsBefore, Edge;
      TokensAreConserved(added, In, input, bw);
      TokensAreConserved(added, Computed, computed, bw);
      TokensAreConserved(added, External, external, bw);
      TokensAreConserved(added, Gpu, gpu, bw);
      TokensAreConserved(added, Out, output, bw);
    }

    /** Tokens spread uniformly over [t0, t1]. All of them land, unless the interval ends
        by time zero, and no other series changes. */
    method AddSpread(t0: real, t1: real, tokens: real)
      requires Valid()
      modifies this
      ensures Valid()
      ensures added == if tokens <= 0.0 then old(added) else old(added) + [Spread(t0, t1, tokens)]
      ensures All(output) == old(All(output)) + if tokens <= 0.0 || t0 < t1 <= 0.0 then 0.0 else tokens
      ensures All(input) == old(All(input)) && All(computed) == old(All(computed))
      ensures All(external) == old(All(external)) && All(gpu) == old(All(gpu))
    {
      HoldsAll();
      ghost var was := added;
      if tokens <= 0.0 {
        return;
      }
      ghost var c := Spread(t0, t1, tokens);
      if t1 <= t0 {
        var i := Bucket(t0);
        var vo := output[i := output[i] + tokens];
        PointCredits(c, output, vo, i, bw);
        Record(c, vo, i);
      } else {
        var last := Bucket(t1);
        var vo := SpreadOver(output, bw, t0, t1, tokens, last);
        Record(c, vo, last);
      }
      HoldsAll();
      assert added[..|was|] == was;
    }

    /** Prompt and output tokens inside [from, to], partial buckets pro rata. */
    method WindowSum(from: real, to: real) returns (inTokens: real, outTokens: real)
      requires Valid()
      ensures if to <= from then inTokens == outTokens == 0.0
              else inTokens == Window(input, bw, from, to) && outTokens == Window(output, bw, from, to)
    {
      if to <= from {
        return 0.0, 0.0;
      }
      FloorIsBucket(Max(0.0, from), bw);
      var first := (Max(0.0, from) / bw).Floor;
      forall k: nat | k < first || to <= Edge(k, bw) ensures Fractions(bw, from, to)(k) == 0.0 {
        OutsideWindow(bw, from, to, first, k);
      }
      inTokens, outTokens := SumFrom(first, to, Fractions(bw, from, to));
    }

    /** The loop of windowSum, from the first bucket the window touches to its end. */
    method SumFrom(first: nat, to: real, w: Weights) returns (inTokens: real, outTokens: real)
      requires Valid()
      requires forall k: nat | k < first || to <= Edge(k, bw) :: w(k) == 0.0
      ensures inTokens == Dot(input, w, |input|) && outTokens == Dot(output, w, |output|)
    {
      inTokens, outTokens := 0.0, 0.0;
      ghost var n := |input|;
      ZeroWeights(input, w, 0, Min'(first, n));
      ZeroWeights(output, w, 0, Min'(first, n));
      var i := first;
      while i < |input| && Edge(i, bw) < to
        invariant inTokens == Dot(input, w, Min'(i, n)) && outTokens == Dot(output, w, Min'(i, n))
      {
        inTokens := inTokens + input[i] * w(i);
        outTokens := outTokens + output[i] * w(i);
        i := i + 1;
      }
      if i < n {
        forall k: nat | i <= k < n ensures w(k) == 0.0 { EdgesAscend(i, k, bw); }
        ZeroWeights(input, w, i, n);
        ZeroWeights(output, w, i, n);
      }
    }

    /** Replace the output series by one that credits c to every bucket. */
    method Record(ghost c: Added, vo: seq<real>, ghost i: nat)
      requires Valid() && c.Spread? && i < |output| == |vo|
      requires Extent(c) < Edge(i + 1, bw)
      requires forall j | 0 <= j < |vo| :: vo[j] == output[j] + Mass(c, Out, Edge(j, bw), Edge(j + 1, bw))
      modifies this
      ensures Valid() && added == old(added) + [c]
    {
      ghost var was := added;
      SpreadOnlyOut(c, In);
      SpreadOnlyOut(c, Computed);
      SpreadOnlyOut(c, External);
      SpreadOnlyOut(c, Gpu);
      CreditedIsExact(was, c, In, input, input, bw);
      CreditedIsExact(was, c, Computed, computed, computed, bw);
      CreditedIsExact(was, c, External, external, external, bw);
      CreditedIsExact(was, c, Gpu, gpu, gpu, bw);
      CreditedIsExact(was, c, Out, output, vo, bw);
      output := vo;
      added := added + [c];
      StillEndsBefore(was, c, |input|, i, bw);
    }
  }

  function Min'(a: nat, b: nat): nat { if a <= b then a else b }

  /** How much of the bucket [lo, hi] lies in [from, to], as a fraction of its width. */
  function Fraction(bw: real, from: real, to: real, lo: real, hi: real): real
    requires bw > 0.0
  {
    var l, h := Max(from, lo), Min(to, hi);
    if h <= l then 0.0 else (h - l) / bw
  }

  /** The weight a window gives each bucket. */
  type Weights = nat -> real

  function Fractions(bw: real, from: real, to: real): Weights
    requires bw > 0.0
  {
    (k: nat) => Fraction(bw, from, to, Edge(k, bw), Edge(k + 1, bw))
  }

  lemma WeightIs(bw: real, from: real, to: real, k: nat, f: real)
    requires bw > 0.0 && f == Fraction(bw, from, to, Edge(k, bw), Edge(k + 1, bw))
    ensures Fractions(bw, from, to)(k) == f
  {
  }

  /** The first n values, each weighted. */
  function Dot(v: seq<real>, w: Weights, n: nat): real
    requires n <= |v|
  {
    if n == 0 then 0.0 else Dot(v, w, n - 1) + v[n - 1] * w(n - 1)
  }

  /** The buckets' tokens inside [from, to], pro rata. */
  function Window(v: seq<real>, bw: real, from: real, to: real): real
    requires bw > 0.0
  {
    Dot(v, Fractions(bw, from, to), |v|)
  }

  lemma {:induction false} ZeroWeights(v: seq<real>, w: Weights, from: nat, n: nat)
    requires from <= n <= |v| && forall k: nat | from <= k < n :: w(k) == 0.0
    ensures Dot(v, w, n) == Dot(v, w, from)
  {
    if n > from { ZeroWeights(v, w, from, n - 1); }
  }

  lemma {:induction false} WeightsAdd(v: seq<real>, f: Weights, g: Weights, sum: Weights, n: nat)
    requires n <= |v| && forall k: nat | k < n :: f(k) + g(k) == sum(k)
    ensures Dot(v, f, n) + Dot(v, g, n) == Dot(v, sum, n)
  {
    if n > 0 {
      WeightsAdd(v, f, g, sum, n - 1);
      ScaledSum(v[n - 1], f(n - 1), g(n - 1), sum(n - 1));
    }
  }

  lemma ScaledSum(k: real, f: real, g: real, sum: real)
    requires f + g == sum
    ensures k * f + k * g == k * sum
  {
  }

  /** A bucket before the window's first, or from its end on, has no part in it. */
  lemma OutsideWindow(bw: real, from: real, to: real, first: nat, k: nat)
    requires bw > 0.0 && Edge(first, bw) <= Max(0.0, from)
    requires k < first || to <= Edge(k, bw)
    ensures Fractions(bw, from, to)(k) == 0.0
  {
    if k < first {
      EdgesAscend(0, k, bw);
      EdgesAscend(k + 1, first, bw);
    }
    NoPart(bw, from, to, Edge(k, bw), Edge(k + 1, bw));
    WeightIs(bw, from, to, k, 0.0);
  }

  lemma NoPart(bw: real, from: real, to: real, lo: real, hi: real)
    requires bw > 0.0 && (to <= lo || (0.0 <= lo < hi <= Max(0.0, from)))
    ensures Fraction(bw, from, to, lo, hi) == 0.0
  {
  }

  lemma FractionsAdd(bw: real, a: real, b: real, c: real, lo: real, hi: real)
    requires bw > 0.0 && a <= b <= c && lo <= hi
    ensures Fraction(bw, a, b, lo, hi) + Fraction(bw, b, c, lo, hi) == Fraction(bw, a, c, lo, hi)
  {
    var x, y := Max(0.0, Min(b, hi) - Max(a, lo)), Max(0.0, Min(c, hi) - Max(b, lo));
    assert x / bw + y / bw == (x + y) / bw;
    assert 0.0 / bw == 0.0;
  }

  /** Adjacent windows add up. */
  lemma WindowsAdd(v: seq<real>, bw: real, a: real, b: real, c: real)
    requires bw > 0.0 && a <= b <= c
    ensures Window(v, bw, a, b) + Window(v, bw, b, c) == Window(v, bw, a, c)
  {
    forall k: nat | k < |v|
      ensures Fractions(bw, a, b)(k) + Fractions(bw, b, c)(k) == Fractions(bw, a, c)(k)
    {
      EdgesAscend(k, k + 1, bw);
      FractionsAdd(bw, a, b, c, Edge(k, bw), Edge(k + 1, bw));
    }
    WeightsAdd(v, Fractions(bw, a, b), Fractions(bw, b, c), Fractions(bw, a, c), |v|);
  }

  lemma WholeBucket(bw: real, from: real, to: real, lo: real, hi: real)
    requires bw > 0.0 && from <= lo && hi <= to && hi == lo + bw
    ensures Fraction(bw, from, to, lo, hi) == 1.0
  {
    assert bw / bw == 1.0;
  }

  lemma AlignedFraction(bw: real, i: nat, j: nat, k: nat)
    requires bw > 0.0 && i <= j
    ensures Fraction(bw, Edge(i, bw), Edge(j, bw), Edge(k, bw), Edge(k + 1, bw)) == if i <= k < j then 1.0 else 0.0
  {
    if k < i {
      EdgesAscend(k + 1, i, bw);
    } else if k >= j {
      EdgesAscend(j, k, bw);
    } else {
      EdgesAscend(i, k, bw);
      EdgesAscend(k + 1, j, bw);
      WholeBucket(bw, Edge(i, bw), Edge(j, bw), Edge(k, bw), Edge(k + 1, bw));
    }
  }

  /** Cut at bucket edges, a window takes whole buckets. */
  lemma AlignedWeight(bw: real, i: nat, j: nat, k: nat)
    requires bw > 0.0 && i <= j
    ensures Fractions(bw, Edge(i, bw), Edge(j, bw))(k) == if i <= k < j then 1.0 else 0.0
  {
    AlignedFraction(bw, i, j, k);
    WeightIs(bw, Edge(i, bw), Edge(j, bw), k, if i <= k < j then 1.0 else 0.0);
  }

  /** Weights of one from bucket i up to bucket j, and of nothing elsewhere. */
  function Units(i: nat, j: nat): Weights
  {
    (k: nat) => if i <= k < j then 1.0 else 0.0
  }

  lemma {:induction false} UnitWeights(h: seq<Added>, s: Series, v: seq<real>, bw: real, i: nat, j: nat, n: nat)
    requires n <= |v| && ExactTo(h, s, v, bw, n) && i <= j
    ensures Dot(v, Units(i, j), n) == if n <= i then 0.0 else Tokens(h, s, Edge(i, bw), Edge(Min'(j, n), bw))
  {
    if n > 0 {
      UnitWeights(h, s, v, bw, i, j, n - 1);
      assert ExactAt(h, s, v, bw, n - 1);
    }
  }

  lemma DotStep(v: seq<real>, f: Weights, g: Weights, n: nat)
    requires 0 < n <= |v| && f(n - 1) == g(n - 1) && Dot(v, f, n - 1) == Dot(v, g, n - 1)
    ensures Dot(v, f, n) == Dot(v, g, n)
  {
  }

  lemma {:induction false} AlignedDot(v: seq<real>, bw: real, f: Weights, i: nat, j: nat, n: nat)
    requires bw > 0.0 && n <= |v| && i <= j && f == Fractions(bw, Edge(i, bw), Edge(j, bw))
    ensures Dot(v, f, n) == Dot(v, Units(i, j), n)
  {
    hide Fraction, Fractions;
    if n > 0 {
      AlignedDot(v, bw, f, i, j, n - 1);
      AlignedWeight(bw, i, j, n - 1);
      DotStep(v, f, Units(i, j), n);
    }
  }

  /** Past the last bucket nothing was ever added. */
  lemma NothingPastTheBuckets(h: seq<Added>, s: Series, n: nat, bw: real, i: nat, j: nat)
    requires bw > 0.0 && EndsBefore(h, Edge(n, bw)) && n <= i <= j
    ensures Tokens(h, s, Edge(i, bw), Edge(j, bw)) == 0.0
  {
    EdgesAscend(n, i, bw);
    EdgesAscend(i, j, bw);
    NothingBeyond(h, s, Edge(i, bw), Edge(j, bw));
  }

  /** A window cut at bucket edges returns exactly the tokens ever added inside it, even
      where it reaches past the last bucket. */
  lemma AlignedWindowIsExact(h: seq<Added>, s: Series, v: seq<real>, bw: real, i: nat, j: nat)
    requires bw > 0.0 && Exact(h, s, v, bw) && EndsBefore(h, Edge(|v|, bw)) && i <= j
    ensures Window(v, bw, Edge(i, bw), Edge(j, bw)) == Tokens(h, s, Edge(i, bw), Edge(j, bw))
  {
    hide Fraction, Fractions, EndsBefore, Edge;
    AlignedDot(v, bw, Fractions(bw, Edge(i, bw), Edge(j, bw)), i, j, |v|);
    UnitWeights(h, s, v, bw, i, j, |v|);
    if |v| <= i {
      NothingPastTheBuckets(h, s, |v|, bw, i, j);
    } else if |v| < j {
      NothingPastTheBuckets(h, s, |v|, bw, |v|, j);
    }
  }

  lemma {:induction false} OneWeight(v: seq<real>, w: Weights, k: nat, n: nat)
    requires n <= |v| && forall j: nat | j < n && j != k :: w(j) == 0.0
    ensures Dot(v, w, n) == if k < n then v[k] * w(k) else 0.0
  {
    if n > 0 { OneWeight(v, w, k, n - 1); }
  }

  /** A window inside one bucket returns the bucket's tokens in proportion to its length. */
  lemma WindowInsideABucket(v: seq<real>, bw: real, k: nat, from: real, to: real)
    requires bw > 0.0 && k < |v| && Edge(k, bw) <= from < to <= Edge(k + 1, bw)
    ensures Window(v, bw, from, to) * bw == v[k] * (to - from)
  {
    hide Fraction, Edge;
    var w := Fractions(bw, from, to);
    forall j: nat | j < |v| && j != k ensures w(j) == 0.0 {
      OtherBuckets(bw, from, to, k, j);
    }
    OneWeight(v, w, k, |v|);
    InsideFraction(bw, from, to, Edge(k, bw), Edge(k + 1, bw));
    var f := w(k);
    assert v[k] * f * bw == v[k] * (f * bw);
  }

  lemma OtherBuckets(bw: real, from: real, to: real, k: nat, j: nat)
    requires bw > 0.0 && Edge(k, bw) <= from < to <= Edge(k + 1, bw) && j != k
    ensures Fraction(bw, from, to, Edge(j, bw), Edge(j + 1, bw)) == 0.0
  {
    if j < k { EdgesAscend(j + 1, k, bw); } else { EdgesAscend(k + 1, j, bw); }
  }

  lemma InsideFraction(bw: real, from: real, to: real, lo: real, hi: real)
    requires bw > 0.0 && lo <= from < to <= hi
    ensures Fraction(bw, from, to, lo, hi) * bw == to - from
  {
  }

  lemma {:induction false} DotIsPositive(v: seq<real>, w: Weights, n: nat)
    requires n <= |v| && forall k: nat | k < n :: v[k] >= 0.0 && w(k) >= 0.0
    ensures Dot(v, w, n) >= 0.0
  {
    if n > 0 {
      DotIsPositive(v, w, n - 1);
      assert v[n - 1] * w(n - 1) >= 0.0;
    }
  }

  lemma WindowIsPositive(v: seq<real>, bw: real, from: real, to: real)
    requires bw > 0.0 && forall k: nat | k < |v| :: v[k] >= 0.0
    ensures Window(v, bw, from, to) >= 0.0
  {
    forall k: nat | k < |v| ensures Fractions(bw, from, to)(k) >= 0.0 {
      PartIsPositive(bw, from, to, Edge(k, bw), Edge(k + 1, bw));
    }
    DotIsPositive(v, Fractions(bw, from, to), |v|);
  }

  lemma PartIsPositive(bw: real, from: real, to: real, lo: real, hi: real)
    requires bw > 0.0
    ensures Fraction(bw, from, to, lo, hi) >= 0.0
  {
  }

  /** A wider window returns no less. */
  lemma WiderWindow(v: seq<real>, bw: real, a: real, b: real, c: real, d: real)
    requires bw > 0.0 && a <= b <= c <= d && forall k: nat | k < |v| :: v[k] >= 0.0
    ensures Window(v, bw, b, c) <= Window(v, bw, a, d)
  {
    WindowsAdd(v, bw, a, b, d);
    WindowsAdd(v, bw, b, c, d);
    WindowIsPositive(v, bw, a, b);
    WindowIsPositive(v, bw, c, d);
  }

  /** Any window returns at least the tokens of the whole buckets inside it, and at most
      those of the buckets it touches. */
  lemma WindowIsBetween(h: seq<Added>, s: Series, v: seq<real>, bw: real, from: real, to: real,
                        i: nat, i': nat, j': nat, j: nat)
    requires bw > 0.0 && Exact(h, s, v, bw) && EndsBefore(h, Edge(|v|, bw)) && forall k: nat | k < |v| :: v[k] >= 0.0
    requires i <= i' <= j' <= j && Edge(i, bw) <= from <= Edge(i', bw) && Edge(j', bw) <= to <= Edge(j, bw)
    ensures Tokens(h, s, Edge(i', bw), Edge(j', bw)) <= Window(v, bw, from, to) <= Tokens(h, s, Edge(i, bw), Edge(j, bw))
  {
    hide Window, Tokens, Exact, EndsBefore;
    EdgesAscend(i', j', bw);
    AlignedWindowIsExact(h, s, v, bw, i, j);
    AlignedWindowIsExact(h, s, v, bw, i', j');
    WiderWindow(v, bw, from, Edge(i', bw), Edge(j', bw), to);
    WiderWindow(v, bw, Edge(i, bw), from, to, Edge(j, bw));
  }

  ghost function LandedAll(h: seq<Added>, s: Series): real
  {
    if |h| == 0 then 0.0 else LandedAll(h[..|h| - 1], s) + Landed(h[|h| - 1], s)
  }

  function Sum(v: seq<real>, n: nat): real
    requires n <= |v|
  {
    if n == 0 then 0.0 else Sum(v, n - 1) + v[n - 1]
  }

  function All(v: seq<real>): real { Sum(v, |v|) }

  /** A spread is even: any part of its interval gets the tokens in proportion. */
  lemma SpreadIsEven(t0: real, t1: real, tokens: real, lo: real, hi: real)
    requires 0.0 <= t0 <= lo <= hi <= t1 && t0 < t1 && tokens > 0.0
    ensures Mass(Spread(t0, t1, tokens), Out, lo, hi) * (t1 - t0) == tokens * (hi - lo)
  {
    var w, x, y := t1 - t0, lo - t0, hi - t0;
    var per := tokens / w;
    assert per * w == tokens;
    assert Mass(Spread(t0, t1, tokens), Out, lo, hi) == per * y - per * x;
    Distributes(per, y, x);
    assert per * (y - x) * w == per * w * (y - x);
  }

  lemma {:induction false} ArrivedInTheEnd(h: seq<Added>, s: Series, x: real)
    requires EndsBefore(h, x)
    ensures ArrivedAll(h, s, x) == LandedAll(h, s)
  {
    if |h| > 0 {
      ArrivedInTheEnd(h[..|h| - 1], s, x);
      AllArrived(h[|h| - 1], s, x);
    }
  }

  lemma {:induction false} NothingBeforeZero(h: seq<Added>, s: Series)
    ensures ArrivedAll(h, s, 0.0) == 0.0
  {
    if |h| > 0 {
      NothingBeforeZero(h[..|h| - 1], s);
      var c := h[|h| - 1];
      if Lasting(c) { assert Clamp(0.0, Max(c.t0, 0.0), c.t1) == Max(c.t0, 0.0); }
    }
  }

  lemma {:induction false} BucketsTelescope(h: seq<Added>, s: Series, v: seq<real>, bw: real, n: nat)
    requires n <= |v| && ExactTo(h, s, v, bw, n)
    ensures Sum(v, n) == Tokens(h, s, 0.0, Edge(n, bw))
  {
    if n > 0 { BucketsTelescope(h, s, v, bw, n - 1); }
  }

  /** Conservation: whatever was coarsened, the buckets together hold every token added. */
  lemma TokensAreConserved(h: seq<Added>, s: Series, v: seq<real>, bw: real)
    requires Exact(h, s, v, bw) && EndsBefore(h, Edge(|v|, bw))
    ensures Sum(v, |v|) == LandedAll(h, s)
  {
    BucketsTelescope(h, s, v, bw, |v|);
    ArrivedInTheEnd(h, s, Edge(|v|, bw));
    NothingBeforeZero(h, s);
  }

  /** One addition raises the buckets' total by all its tokens, whatever was coarsened in
      between, unless it is a spread that ended before time zero: then by none. */
  lemma LandsUnlessBeforeZero(h: seq<Added>, c: Added, s: Series, v: seq<real>, bw: real, w: seq<real>, bw': real)
    requires Exact(h, s, v, bw) && EndsBefore(h, Edge(|v|, bw))
    requires Exact(h + [c], s, w, bw') && EndsBefore(h + [c], Edge(|w|, bw'))
    ensures Sum(w, |w|) - Sum(v, |v|) == if c.Spread? && c.t0 < c.t1 <= 0.0 then 0.0 else Share(c, s)
  {
    TokensAreConserved(h, s, v, bw);
    TokensAreConserved(h + [c], s, w, bw');
    assert (h + [c])[..|h|] == h;
  }

  lemma StillEndsBefore(h: seq<Added>, c: Added, n: nat, i: nat, bw: real)
    requires bw > 0.0 && i < n && EndsBefore(h, Edge(n, bw)) && Extent(c) < Edge(i + 1, bw)
    ensures EndsBefore(h + [c], Edge(n, bw))
  {
    EdgesAscend(i + 1, n, bw);
  }

  lemma PointMass(c: Added, s: Series, i: nat, j: nat, bw: real)
    requires !Lasting(c) && !Lost(c) && bw > 0.0 && Edge(i, bw) <= PointTime(c) < Edge(i + 1, bw)
    ensures Mass(c, s, Edge(j, bw), Edge(j + 1, bw)) == if j == i then Share(c, s) else 0.0
  {
    PointInBucket(PointTime(c), i, j, bw);
    EdgesAscend(j, j + 1, bw);
  }

  /** `per` tokens per unit of time for as long as [a, b] and [lo, hi] overlap. */
  function Part(a: real, b: real, per: real, lo: real, hi: real): real
  {
    var l, h := Max(a, lo), Min(b, hi);
    if h > l then per * (h - l) else 0.0
  }

  /** What the loop of spread adds to one bucket is that bucket's part. */
  lemma LastingMass(c: Added, per: real, lo: real, hi: real)
    requires Lasting(c) && per == Rate(c, Out) && lo <= hi
    ensures Mass(c, Out, lo, hi) == Part(Max(c.t0, 0.0), c.t1, per, lo, hi)
  {
    var a := Max(c.t0, 0.0);
    var x, y := Clamp(lo, a, c.t1), Clamp(hi, a, c.t1);
    Distributes(per, y - a, x - a);
    var l, h := Max(a, lo), Min(c.t1, hi);
    assert if h > l then l == x && h == y else x == y;
  }

  lemma Distributes(k: real, x: real, y: real)
    ensures k * x - k * y == k * (x - y)
  {
  }

  lemma ImpulseCredits(c: Added, s: Series, v: seq<real>, w: seq<real>, i: nat, bw: real)
    requires c.Impulse? && bw > 0.0 && i < |v| && Edge(i, bw) <= Extent(c) < Edge(i + 1, bw)
    requires w == v[i := v[i] + Share(c, s)] || (s == Out && w == v)
    ensures |w| == |v| && forall j | 0 <= j < |v| :: w[j] == v[j] + Mass(c, s, Edge(j, bw), Edge(j + 1, bw))
  {
    forall j | 0 <= j < |v| ensures w[j] == v[j] + Mass(c, s, Edge(j, bw), Edge(j + 1, bw)) {
      PointMass(c, s, i, j, bw);
    }
  }

  lemma PointCredits(c: Added, v: seq<real>, w: seq<real>, i: nat, bw: real)
    requires c.Spread? && c.tokens > 0.0 && c.t1 <= c.t0 && bw > 0.0 && i < |v|
    requires Edge(i, bw) <= PointTime(c) < Edge(i + 1, bw) && w == v[i := v[i] + c.tokens]
    ensures forall j | 0 <= j < |v| :: w[j] == v[j] + Mass(c, Out, Edge(j, bw), Edge(j + 1, bw))
  {
    forall j | 0 <= j < |v| ensures w[j] == v[j] + Mass(c, Out, Edge(j, bw), Edge(j + 1, bw)) {
      PointMass(c, Out, i, j, bw);
    }
  }

  lemma SpreadOnlyOut(c: Added, s: Series)
    requires c.Spread? && s != Out
    ensures forall lo, hi {:trigger Mass(c, s, lo, hi)} :: Mass(c, s, lo, hi) == 0.0
  {
    assert Lasting(c) ==> Rate(c, s) == 0.0;
    forall lo, hi ensures Mass(c, s, lo, hi) == 0.0 {
    }
  }

  /** The loop of spread: each bucket from t0's to t1's gets its part. */
  method SpreadOver(v: seq<real>, bw: real, t00: real, t1: real, tokens: real, last: nat) returns (w: seq<real>)
    requires bw > 0.0 && t00 < t1 && tokens > 0.0
    requires last < |v| && Edge(last, bw) <= Max(t1, 0.0) < Edge(last + 1, bw)
    ensures |w| == |v|
    ensures forall j | 0 <= j < |v| :: w[j] == v[j] + Mass(Spread(t00, t1, tokens), Out, Edge(j, bw), Edge(j + 1, bw))
  {
    hide Mass, Parts, Part;
    w := v;
    var t0 := if t00 < 0.0 then 0.0 else t00;
    ghost var c := Spread(t00, t1, tokens);
    LostLeavesNothing(c, Out);
    if t1 <= t0 {
      // The interval lies before time zero: no bucket overlaps it.
      return;
    }
    var per := tokens / (t1 - t0);
    FloorIsBucket(t0, bw);
    FloorIsBucket(t1, bw);
    w := FillBuckets(v, bw, t0, t1, per, (t0 / bw).Floor, (t1 / bw).Floor);
    MassesAreParts(c, per, |v|, bw);
  }

  lemma LostLeavesNothing(c: Added, s: Series)
    ensures Lost(c) ==> forall lo, hi {:trigger Mass(c, s, lo, hi)} :: Mass(c, s, lo, hi) == 0.0
  {
  }

  lemma MassesAreParts(c: Added, per: real, n: nat, bw: real)
    requires Lasting(c) && per == Rate(c, Out) && bw > 0.0
    ensures forall j | 0 <= j < n :: Parts(n, bw, Max(c.t0, 0.0), c.t1, per)[j] == Mass(c, Out, Edge(j, bw), Edge(j + 1, bw))
  {
    hide Rate, Mass, Edge, Part;
    forall j | 0 <= j < n ensures Parts(n, bw, Max(c.t0, 0.0), c.t1, per)[j] == Mass(c, Out, Edge(j, bw), Edge(j + 1, bw)) {
      EdgesAscend(j, j + 1, bw);
      LastingMass(c, per, Edge(j, bw), Edge(j + 1, bw));
    }
  }

  /** What each of n buckets gets. */
  function Parts(n: nat, bw: real, t0: real, t1: real, per: real): (parts: seq<real>)
    ensures |parts| == n
  {
    seq(n, j requires 0 <= j < n => Part(t0, t1, per, Edge(j, bw), Edge(j + 1, bw)))
  }

  /** Buckets before the first and after the last get nothing. */
  lemma PartsOutside(n: nat, bw: real, t0: real, t1: real, per: real, first: nat, end: nat)
    requires bw > 0.0 && t0 < t1 && Edge(first, bw) <= t0 && t1 < Edge(end + 1, bw)
    ensures forall j | 0 <= j < n && (j < first || j > end) :: Parts(n, bw, t0, t1, per)[j] == 0.0
  {
    hide Part, Edge;
    forall j | 0 <= j < n && (j < first || j > end) ensures Parts(n, bw, t0, t1, per)[j] == 0.0 {
      PartOutside(bw, t0, t1, per, first, end, j);
    }
  }

  lemma PartOutside(bw: real, t0: real, t1: real, per: real, first: nat, end: nat, j: nat)
    requires bw > 0.0 && t0 < t1 && Edge(first, bw) <= t0 && t1 < Edge(end + 1, bw) && (j < first || j > end)
    ensures Part(t0, t1, per, Edge(j, bw), Edge(j + 1, bw)) == 0.0
  {
    if j < first { EdgesAscend(j + 1, first, bw); } else { EdgesAscend(end + 1, j, bw); }
  }

  method FillBuckets(v: seq<real>, bw: real, t0: real, t1: real, per: real, first: nat, end: nat) returns (w: seq<real>)
    requires bw > 0.0 && t0 < t1
    requires Edge(first, bw) <= t0 && t1 < Edge(end + 1, bw)
    ensures |w| == |v| && forall j | 0 <= j < |v| :: w[j] == v[j] + Parts(|v|, bw, t0, t1, per)[j]
  {
    w := v;
    ghost var parts := Parts(|v|, bw, t0, t1, per);
    PartsOutside(|v|, bw, t0, t1, per, first, end);
    var i := first;
    while i <= end && i < |w|
      invariant first <= i && |w| == |v|
      invariant forall j | 0 <= j < i && j < |v| :: w[j] == v[j] + parts[j]
      invariant forall j | i <= j < |v| :: w[j] == v[j]
    {
      w := AddPart(w, i, t0, t1, per, Edge(i, bw), Edge(i + 1, bw));
      i := i + 1;
    }
  }

  method AddPart(v: seq<real>, i: nat, t0: real, t1: real, per: real, from: real, to: real) returns (w: seq<real>)
    requires i < |v|
    ensures |w| == |v| && w[i] == v[i] + Part(t0, t1, per, from, to)
    ensures forall j | 0 <= j < |v| && j != i :: w[j] == v[j]
  {
    w := v;
    var lo, hi := Max(t0, from), Min(t1, to);
    if hi > lo {
      w := w[i := w[i] + per * (hi - lo)];
    }
  }
}
