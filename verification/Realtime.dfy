// The window of time-to-first-token observations the admission gate reads, and the series
// bounds of a run (benchmark/replay_realtime.go).

module Realtime {

  datatype Seen = Seen(at: int, ttft: int)

  datatype Stats = Stats(mean: int, p50: int, p95: int, p99: int, n: nat)

  function Total(seen: seq<Seen>): int {
    if seen == [] then 0 else seen[0].ttft + Total(seen[1..])
  }

  lemma {:induction false} TotalAppend(seen: seq<Seen>, s: Seen)
    ensures Total(seen + [s]) == Total(seen) + s.ttft
  {
    if seen == [] {
      assert [] + [s] == [s];
    } else {
      assert (seen + [s])[1..] == seen[1..] + [s];
      TotalAppend(seen[1..], s);
    }
  }

  ghost predicate InOrder(seen: seq<Seen>) {
    forall i, j :: 0 <= i < j < |seen| ==> seen[i].at <= seen[j].at
  }

  // Everything ever recorded that is not older than `cut`.
  function Since(all: seq<Seen>, cut: int): seq<Seen> {
    if all == [] then [] else Since(all[..|all| - 1], cut) + if all[|all| - 1].at >= cut then [all[|all| - 1]] else []
  }

  lemma {:induction false} SinceIsTheTail(all: seq<Seen>, cut: int, k: nat)
    requires InOrder(all) && k <= |all|
    requires forall i :: 0 <= i < k ==> all[i].at < cut
    requires k < |all| ==> all[k].at >= cut
    ensures Since(all, cut) == all[k..]
  {
    if all != [] {
      var n := |all| - 1;
      if k <= n {
        assert all[n].at >= cut;
        SinceIsTheTail(all[..n], cut, k);
        LastOfTail(all, k);
      } else {
        SinceIsTheTail(all[..n], cut, n);
        assert all[..n][n..] == [] == all[k..];
      }
    }
  }

  lemma TailIsSince(all: seq<Seen>, cut: int, k: nat)
    requires k <= |all|
    requires forall i :: 0 <= i < k ==> all[i].at < cut
    requires k < |all| ==> all[k].at >= cut
    ensures InOrder(all) ==> Since(all, cut) == all[k..]
  {
    if InOrder(all) {
      SinceIsTheTail(all, cut, k);
    }
  }

  lemma LastOfTail(all: seq<Seen>, k: nat)
    requires k < |all|
    ensures all[k..] == all[..|all| - 1][k..] + [all[|all| - 1]]
  {
  }

  ghost predicate Ascending(v: seq<int>) {
    forall i, j :: 0 <= i < j < |v| ==> v[i] <= v[j]
  }

  method Sort(v: seq<int>) returns (sorted: seq<int>)
    ensures Ascending(sorted) && multiset(sorted) == multiset(v)
  {
    sorted := [];
    for i := 0 to |v|
      invariant Ascending(sorted) && multiset(sorted) == multiset(v[..i])
    {
      assert v[..i + 1] == v[..i] + [v[i]];
      var k: nat := |sorted|;
      while k > 0 && sorted[k - 1] > v[i]
        invariant k <= |sorted| && (k < |sorted| ==> v[i] <= sorted[k])
      {
        k := k - 1;
      }
      InsertedAt(sorted, v[i], k);
      sorted := sorted[..k] + [v[i]] + sorted[k..];
    }
    assert v[..|v|] == v;
  }

  lemma InsertedAt(v: seq<int>, x: int, k: nat)
    requires Ascending(v) && k <= |v| && (k > 0 ==> v[k - 1] <= x) && (k < |v| ==> x <= v[k])
    ensures Ascending(v[..k] + [x] + v[k..]) && multiset(v[..k] + [x] + v[k..]) == multiset(v) + multiset{x}
  {
    hide Ascending;
    CutAscends(v, k, x);
    var low, high := v[..k], v[k..];
    JoinAscends(low, [x]);
    JoinAscends(low + [x], high);
    assert v == low + high;
  }

  lemma CutAscends(v: seq<int>, k: nat, x: int)
    requires Ascending(v) && k <= |v|
    ensures Ascending(v[..k]) && Ascending([x]) && Ascending(v[k..])
  {
  }

  lemma JoinAscends(a: seq<int>, b: seq<int>)
    requires Ascending(a) && Ascending(b) && (a != [] && b != [] ==> a[|a| - 1] <= b[0])
    ensures Ascending(a + b)
  {
  }

  // Which of n sorted observations stands for a quantile.
  function Rank(n: nat, p: real): nat
    requires n > 0 && 0.0 <= p
  {
    var i := (n as real * p).Floor;
    if i >= n then n - 1 else i
  }

  function Values(seen: seq<Seen>): (v: seq<int>)
    ensures |v| == |seen| && forall i :: 0 <= i < |v| ==> v[i] == seen[i].ttft
  {
    seq(|seen|, i requires 0 <= i < |seen| => seen[i].ttft)
  }

  // The same observations, the shortest first.
  ghost predicate InRankOrder(sorted: seq<int>, v: seq<int>) {
    Ascending(sorted) && multiset(sorted) == multiset(v)
  }

  // Each quantile is the observation of its rank.
  ghost predicate AtRanks(s: Stats, sorted: seq<int>) {
    && |sorted| == s.n > 0
    && s.p50 == sorted[Rank(s.n, 0.50)] && s.p95 == sorted[Rank(s.n, 0.95)] && s.p99 == sorted[Rank(s.n, 0.99)]
  }

  lemma RanksAscend(n: nat, p: real, q: real)
    requires n > 0 && 0.0 <= p <= q
    ensures Rank(n, p) <= Rank(n, q) < n
  {
    assert n as real * (q - p) >= 0.0;
    assert n as real * p <= n as real * q;
  }

  // The two lists hold the times and values of the observations, all of them positive.
  ghost predicate Mirrors(at: seq<int>, val: seq<int>, held: seq<Seen>) {
    && |at| == |val| == |held|
    && (forall i :: 0 <= i < |at| ==> at[i] == held[i].at && val[i] == held[i].ttft > 0)
  }

  lemma MirrorsPush(at: seq<int>, val: seq<int>, held: seq<Seen>, s: Seen)
    requires Mirrors(at, val, held) && s.ttft > 0
    ensures Mirrors(at + [s.at], val + [s.ttft], held + [s])
  {
  }

  lemma MirrorsTail(at: seq<int>, val: seq<int>, held: seq<Seen>, k: nat)
    requires Mirrors(at, val, held) && k <= |at|
    ensures Mirrors(at[k..], val[k..], held[k..])
    ensures k < |at| ==> at[k] == held[k].at
  {
  }

  class TtftWindow {
    const window: int
    var at: seq<int>
    var val: seq<int>
    var sum: int
    ghost var all: seq<Seen>   // everything recorded
    ghost var gone: nat        // of it, what has been dropped

    ghost function Held(): seq<Seen>
      reads this
      requires gone <= |all|
    {
      all[gone..]
    }

    ghost predicate Valid()
      reads this
    {
      && gone <= |all|
      && Mirrors(at, val, Held())
      && sum == Total(Held())
    }

    constructor (window: int)
      ensures Valid() && all == [] && this.window == if window <= 0 then 30000 else window
    {
      this.window := if window <= 0 then 30000 else window;
      at, val, sum, all, gone := [], [], 0, [], 0;
    }

    method Expire(now: int)
      requires Valid()
      modifies this`at, this`val, this`sum, this`gone
      ensures Valid() && old(gone) <= gone
      ensures forall i :: old(gone) <= i < gone ==> all[i].at < now - window
      ensures gone < |all| ==> all[gone].at >= now - window
    {
      var cut := now - window;
      var i: nat := 0;
      ghost var held := Held();
      while i < |at| && at[i] < cut
        invariant i <= |at| && forall j :: 0 <= j < i ==> held[j].at < cut
        invariant sum == Total(held[i..])
        modifies this`sum
      {
        assert held[i..][1..] == held[i + 1..];
        sum := sum - val[i];
        i := i + 1;
      }
      assert forall j :: old(gone) <= j < old(gone) + i ==> all[j] == held[j - old(gone)];
      MirrorsTail(at, val, held, i);
      assert held[i..] == all[gone + i..];
      gone := gone + i;
      at, val := at[i..], val[i..];
    }

    /** A request that never had a first token says nothing. */
    method Observe(now: int, ttft: int)
      requires Valid()
      modifies this
      ensures Valid() && all == if ttft > 0 then old(all) + [Seen(now, ttft)] else old(all)
      ensures old(gone) <= gone && forall i :: old(gone) <= i < gone ==> all[i].at < now - window
    {
      if ttft <= 0 {
        return;
      }
      Record(now, ttft);
      Expire(now);
    }

    method Record(now: int, ttft: int)
      requires Valid() && ttft > 0
      modifies this`at, this`val, this`sum, this`all
      ensures Valid() && all == old(all) + [Seen(now, ttft)]
    {
      hide Mirrors, Total;
      TotalAppend(Held(), Seen(now, ttft));
      MirrorsPush(at, val, Held(), Seen(now, ttft));
      assert (all + [Seen(now, ttft)])[gone..] == Held() + [Seen(now, ttft)];
      at, val, sum, all := at + [now], val + [ttft], sum + ttft, all + [Seen(now, ttft)];
    }

    /** The statistics of the window; with everything recorded in order of time, and nothing
        dropped that this call would keep, the window is exactly what is not older than it. */
    method Statistics(now: int) returns (s: Stats)
      requires Valid()
      modifies this`at, this`val, this`sum, this`gone
      ensures Valid() && s.n == |Held()|
      ensures InOrder(all) && (forall i :: 0 <= i < old(gone) ==> all[i].at < now - window) ==> Held() == Since(all, now - window)
      ensures s.n == 0 ==> s == Stats(0, 0, 0, 0, 0)
      ensures s.n > 0 ==> s.mean == Total(Held()) / s.n && 0 < s.p50 <= s.p95 <= s.p99
      ensures s.n > 0 ==> exists sorted :: InRankOrder(sorted, Values(Held())) && AtRanks(s, sorted)
    {
      hide InOrder, Since, InRankOrder, AtRanks;
      Expire(now);
      if forall i :: 0 <= i < old(gone) ==> all[i].at < now - window {
        TailIsSince(all, now - window, gone);
      }
      if |val| == 0 {
        return Stats(0, 0, 0, 0, 0);
      }
      assert val == Values(Held());
      s := Summarize(val, sum);
    }
  }

  method Summarize(val: seq<int>, sum: int) returns (s: Stats)
    requires val != [] && forall i :: 0 <= i < |val| ==> val[i] > 0
    ensures s.n == |val| && s.mean == sum / s.n && 0 < s.p50 <= s.p95 <= s.p99
    ensures exists sorted :: InRankOrder(sorted, val) && AtRanks(s, sorted)
  {
    hide Rank;
    var n := |val|;
    var sorted := Sort(val);
    SortedFacts(val, sorted);
    RanksAscend(n, 0.50, 0.95);
    RanksAscend(n, 0.95, 0.99);
    s := Stats(sum / n, sorted[Rank(n, 0.50)], sorted[Rank(n, 0.95)], sorted[Rank(n, 0.99)], n);
    assert InRankOrder(sorted, val) && AtRanks(s, sorted);
  }

  lemma SortedFacts(v: seq<int>, sorted: seq<int>)
    requires Ascending(sorted) && multiset(sorted) == multiset(v)
    ensures |sorted| == |v|
    ensures (forall i :: 0 <= i < |v| ==> v[i] > 0) ==> forall i :: 0 <= i < |sorted| ==> sorted[i] > 0
  {
    assert |multiset(sorted)| == |multiset(v)|;
    forall i | 0 <= i < |sorted| ensures sorted[i] in v {
      assert sorted[i] in multiset(sorted);
    }
  }

  // ---------------------------------------------------------------- series bounds

  datatype Series = Series(start: int, max: int, admitEvery: int)

  method SetSeriesDefaults(s0: Series) returns (s: Series)
    ensures s.admitEvery == s0.admitEvery
    ensures s.start >= 1 && (s.max > 0 ==> s.start <= s.max)
    ensures s.max > 0 || s.admitEvery > 0
    ensures s0.max > 0 || s0.admitEvery > 0 ==> s.max == s0.max
    ensures s.start != s0.start ==> s0.start <= 0 || (s.max > 0 && s.start == s.max < s0.start)
  {
    s := s0;
    if s.max <= 0 && s.admitEvery <= 0 {
      s := s.(max := 64);
    }
    if s.start <= 0 {
      s := s.(start := 1);
    }
    if s.max > 0 && s.start > s.max {
      s := s.(start := s.max);
    }
  }
}
