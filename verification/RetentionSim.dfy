/** retention_sim.go: one trie walk per request scores every window at once. */
module RetentionSimulation {
  import opened Units
  import opened TtlCaches

  datatype Edge = Edge(parent: nat, hash: nat)

  datatype RetentionReport = RetentionReport(windows: seq<int>, cached: seq<int>, cachedInfinite: int, total: int)

  function WindowAt(windows: seq<int>, k: nat): Ttl
  {
    if k < |windows| then Within(windows[k]) else Forever
  }

  /** The callers' windows: ascending and, since parsing rejects the others, not negative. */
  ghost predicate Ascending(windows: seq<int>)
  {
    (forall k | 0 <= k < |windows| :: windows[k] >= 0)
    && (forall j, k | 0 <= j < k < |windows| :: windows[j] <= windows[k])
  }

  function PrefixSum(s: seq<int>, n: nat): int
    requires n <= |s|
  {
    if n == 0 then 0 else PrefixSum(s, n - 1) + s[n - 1]
  }

  lemma {:induction false} PrefixSumOfUpdate(s: seq<int>, b: nat, v: int, n: nat)
    requires b < |s| && n <= |s|
    ensures PrefixSum(s[b := v], n) == PrefixSum(s, n) + (if b < n then v - s[b] else 0)
  {
    if n > 0 { PrefixSumOfUpdate(s, b, v, n - 1); }
  }

  lemma {:induction false} PrefixSumOfZeros(s: seq<int>, n: nat)
    requires n <= |s| && forall i | 0 <= i < |s| :: s[i] == 0
    ensures PrefixSum(s, n) == 0
  {
    if n > 0 { PrefixSumOfZeros(s, n - 1); }
  }

  // ---- The trie: node ids stand for paths ----

  /** `paths[id]` is the path node `id` stands for, and `idOf` its inverse. */
  ghost predicate Numbering(paths: seq<Path>, idOf: map<Path, nat>)
  {
    && |paths| > 0 && paths[0] == []
    && (forall i | 0 <= i < |paths| :: paths[i] in idOf && idOf[paths[i]] == i)
    && (forall p | p in idOf :: idOf[p] < |paths| && paths[idOf[p]] == p)
  }

  /** An edge leads to the node of the extended path. */
  ghost predicate EdgesExtend(edges: map<Edge, nat>, paths: seq<Path>)
  {
    forall e | e in edges :: e.parent < |paths| && edges[e] < |paths| && paths[edges[e]] == paths[e.parent] + [e.hash]
  }

  /** Every node but the root hangs from its parent's. */
  ghost predicate Linked(edges: map<Edge, nat>, idOf: map<Path, nat>, p: Path)
    requires p != []
  {
    p[..|p| - 1] in idOf && Edge(idOf[p[..|p| - 1]], p[|p| - 1]) in edges
  }

  ghost predicate IsTrie(edges: map<Edge, nat>, paths: seq<Path>, idOf: map<Path, nat>)
  {
    && Numbering(paths, idOf)
    && EdgesExtend(edges, paths)
    && (forall p {:trigger Linked(edges, idOf, p)} | p in idOf && p != [] :: Linked(edges, idOf, p))
  }

  lemma EdgeIffPath(edges: map<Edge, nat>, paths: seq<Path>, idOf: map<Path, nat>, parent: nat, hash: nat)
    requires IsTrie(edges, paths, idOf) && parent < |paths|
    ensures Edge(parent, hash) in edges <==> paths[parent] + [hash] in idOf
    ensures Edge(parent, hash) in edges ==> edges[Edge(parent, hash)] == idOf[paths[parent] + [hash]]
  {
    var p := paths[parent] + [hash];
    assert p[..|p| - 1] == paths[parent];
    if p in idOf { assert Linked(edges, idOf, p); }
  }

  lemma GrowTrie(edges: map<Edge, nat>, paths: seq<Path>, idOf: map<Path, nat>, parent: nat, hash: nat, p: Path)
    requires IsTrie(edges, paths, idOf) && parent < |paths|
    requires p == paths[parent] + [hash] && Edge(parent, hash) !in edges
    ensures IsTrie(edges[Edge(parent, hash) := |paths|], paths + [p], idOf[p := |paths|])
    ensures p !in idOf
  {
    EdgeIffPath(edges, paths, idOf, parent, hash);
    var edges', paths', idOf' := edges[Edge(parent, hash) := |paths|], paths + [p], idOf[p := |paths|];
    assert Numbering(paths', idOf');
    assert EdgesExtend(edges', paths');
    assert p[..|p| - 1] == paths[parent];
    forall q | q in idOf' && q != []
      ensures Linked(edges', idOf', q)
    {
      if q != p { assert Linked(edges, idOf, q); }
    }
  }

  /** When every path was last used. */
  ghost function Uses(paths: seq<Path>, idOf: map<Path, nat>, last: seq<int>): map<Path, int>
    requires |last| == |paths|
    requires forall p | p in idOf :: idOf[p] < |paths|
  {
    map p | p in idOf && p != [] :: last[idOf[p]]
  }

  lemma UsesAfterHit(paths: seq<Path>, idOf: map<Path, nat>, last: seq<int>, id: nat, ts: int)
    requires Numbering(paths, idOf) && |last| == |paths| && 0 < id < |last|
    ensures Uses(paths, idOf, last[id := ts]) == Uses(paths, idOf, last)[paths[id] := ts]
  {
  }

  lemma UsesAfterGrow(paths: seq<Path>, idOf: map<Path, nat>, last: seq<int>, p: Path, ts: int)
    requires Numbering(paths, idOf) && |last| == |paths| && p !in idOf && p != []
    ensures Uses(paths + [p], idOf[p := |paths|], last + [ts]) == Uses(paths, idOf, last)[p := ts]
  {
  }

  lemma WriteOneMore(seen: map<Path, int>, hashes: Path, i: nat, now: int)
    requires i < |hashes|
    ensures Write(seen, hashes[..i + 1], now) == Write(seen, hashes[..i], now)[hashes[..i + 1] := now]
  {
    var a, b := hashes[..i], hashes[..i + 1];
    forall p ensures p in Prefixes(b) <==> p in Prefixes(a) || p == b {
      InPrefixes(a, p);
      InPrefixes(b, p);
      if 1 <= |p| <= i { assert b[..|p|] == a[..|p|]; }
      if |p| == i + 1 { assert b[..|p|] == b; }
    }
  }

  lemma NotYetWritten(seen: map<Path, int>, hashes: Path, i: nat, now: int)
    requires i < |hashes|
    ensures hashes[..i + 1] in Write(seen, hashes[..i], now) <==> hashes[..i + 1] in seen
    ensures hashes[..i + 1] in seen ==> Write(seen, hashes[..i], now)[hashes[..i + 1]] == seen[hashes[..i + 1]]
  {
    InPrefixes(hashes[..i], hashes[..i + 1]);
  }

  // ---- One walk, every window ----

  /** `bucket` is the first window that reaches `maxGap`. */
  ghost predicate FirstFit(windows: seq<int>, maxGap: int, bucket: nat)
  {
    && bucket <= |windows|
    && (forall k | 0 <= k < bucket :: windows[k] < maxGap)
    && (bucket < |windows| ==> maxGap <= windows[bucket])
  }

  /** `maxGap` is the largest idle gap among the first n prefixes, all of them known. */
  ghost predicate LargestGap(seen: map<Path, int>, hashes: Path, n: nat, now: int, maxGap: int)
    requires n <= |hashes|
  {
    && maxGap >= 0
    && (forall j | 1 <= j <= n :: hashes[..j] in seen && now - seen[hashes[..j]] <= maxGap)
    && (maxGap > 0 ==> exists j | 1 <= j <= n :: hashes[..j] in seen && now - seen[hashes[..j]] == maxGap)
  }

  /** The windows that serve the first n units are exactly those from the bucket on. */
  lemma BucketServes(seen: map<Path, int>, hashes: Path, n: nat, now: int, maxGap: int,
                     windows: seq<int>, bucket: nat, k: nat)
    requires Ascending(windows) && k <= |windows| && n <= |hashes|
    requires LargestGap(seen, hashes, n, now, maxGap) && FirstFit(windows, maxGap, bucket)
    ensures k >= bucket <==> MatchLen(Forget(seen, WindowAt(windows, k), now), hashes, 0) >= n
  {
    var held := Forget(seen, WindowAt(windows, k), now);
    MatchReaches(held, hashes, n);
    if k < bucket {
      var j :| 1 <= j <= n && hashes[..j] in seen && now - seen[hashes[..j]] == maxGap;
      assert hashes[..j] !in held;
    } else {
      forall j | 1 <= j <= n ensures hashes[..j] in held {
        assert k < |windows| ==> windows[bucket] <= windows[k];
      }
    }
  }

  lemma LargestGapExtends(seen: map<Path, int>, hashes: Path, n: nat, now: int, gap: int, maxGap: int)
    requires n < |hashes| && hashes[..n + 1] in seen && gap == now - seen[hashes[..n + 1]]
    requires exists before :: LargestGap(seen, hashes, n, now, before) && maxGap == Max(gap, before)
    ensures LargestGap(seen, hashes, n + 1, now, maxGap)
  {
    var before :| LargestGap(seen, hashes, n, now, before) && maxGap == Max(gap, before);
    assert maxGap == gap ==> 1 <= n + 1 <= n + 1 && now - seen[hashes[..n + 1]] == maxGap;
  }

  /** What the cache for `ttl` serves among the first i units. */
  ghost function Walked(seen: map<Path, int>, ttl: Ttl, now: int, units: seq<Unit>, i: nat): int
    requires i <= |units|
  {
    SumTokens(units[..Min(i, MatchLen(Forget(seen, ttl, now), Hashes(units), 0))])
  }

  lemma WalkedHit(seen: map<Path, int>, units: seq<Unit>, i: nat, now: int, maxGap: int,
                  windows: seq<int>, bucket: nat)
    requires Ascending(windows) && i < |units|
    requires LargestGap(seen, Hashes(units), i + 1, now, maxGap) && FirstFit(windows, maxGap, bucket)
    ensures forall k | 0 <= k <= |windows| ::
              Walked(seen, WindowAt(windows, k), now, units, i + 1)
              == Walked(seen, WindowAt(windows, k), now, units, i) + (if bucket <= k then units[i].tokens else 0)
  {
    forall k | 0 <= k <= |windows|
      ensures Walked(seen, WindowAt(windows, k), now, units, i + 1)
              == Walked(seen, WindowAt(windows, k), now, units, i) + (if bucket <= k then units[i].tokens else 0)
    {
      BucketServes(seen, Hashes(units), i + 1, now, maxGap, windows, bucket, k);
      assert units[..i + 1][..i] == units[..i];
    }
  }

  lemma WalkedMiss(seen: map<Path, int>, units: seq<Unit>, i: nat, now: int, windows: seq<int>)
    requires i < |units| && !AllHeld(seen, Hashes(units), i + 1)
    ensures forall k | 0 <= k <= |windows| ::
              Walked(seen, WindowAt(windows, k), now, units, i + 1) == Walked(seen, WindowAt(windows, k), now, units, i)
  {
    forall k | 0 <= k <= |windows|
      ensures Walked(seen, WindowAt(windows, k), now, units, i + 1) == Walked(seen, WindowAt(windows, k), now, units, i)
    {
      MatchReaches(Forget(seen, WindowAt(windows, k), now), Hashes(units), i + 1);
    }
  }

  class RetentionSim {
    const windows: seq<int>
    var byBucket: array<int>
    var total: int
    var edges: map<Edge, nat>
    var last: seq<int>
    var prevTs: int
    ghost var paths: seq<Path>
    ghost var idOf: map<Path, nat>
    ghost var seen: map<Path, int> // when each prefix was last used, over the whole run

    ghost predicate Valid()
      reads this, byBucket
    {
      && Ascending(windows)
      && byBucket.Length == |windows| + 1
      && IsTrie(edges, paths, idOf)
      && |last| == |paths|
      && seen == Uses(paths, idOf, last)
    }

    /** Tokens credited to window k so far; k == |windows| is the infinite cache. */
    ghost function Credited(k: nat): int
      reads this, byBucket
      requires Valid() && k <= |windows|
    {
      PrefixSum(byBucket[..], k + 1)
    }

    constructor (windows: seq<int>)
      requires Ascending(windows)
      ensures Valid() && fresh(byBucket)
      ensures this.windows == windows && seen == map[] && prevTs == 0 && total == 0
      ensures forall k | 0 <= k <= |windows| :: Credited(k) == 0
    {
      this.windows := windows;
      byBucket := new int[|windows| + 1](_ => 0);
      edges, last, prevTs, total := map[], [0], 0, 0;
      paths, idOf, seen := [[]], map[[] := 0], map[];
      new;
      forall k | 0 <= k <= |windows| ensures Credited(k) == 0 {
        PrefixSumOfZeros(byBucket[..], k + 1);
      }
    }

    /** What an edge lookup says about the paths seen so far. */
    lemma Lookup(parent: nat, hash: nat, p: Path)
      requires Valid() && parent < |last| && p == paths[parent] + [hash]
      ensures Edge(parent, hash) in edges <==> p in seen
      ensures Edge(parent, hash) in edges ==>
                var id := edges[Edge(parent, hash)];
                0 < id < |last| && paths[id] == p && last[id] == seen[p]
    {
      EdgeIffPath(edges, paths, idOf, parent, hash);
    }

    /** A known node: credit its tokens to the bucket and refresh it. */
    method Hit(id: nat, bucket: nat, tokens: int, ts: int)
      requires Valid() && 0 < id < |last| && bucket <= |windows|
      modifies this`last, this`seen, byBucket
      ensures Valid()
      ensures seen == old(seen)[paths[id] := ts]
      ensures forall k | 0 <= k <= |windows| ::
                Credited(k) == old(Credited(k)) + (if bucket <= k then tokens else 0)
    {
      ghost var was := byBucket[..];
      UsesAfterHit(paths, idOf, last, id, ts);
      byBucket[bucket] := byBucket[bucket] + tokens;
      last := last[id := ts];
      seen := seen[paths[id] := ts];
      assert byBucket[..] == was[bucket := was[bucket] + tokens];
      forall k | 0 <= k <= |windows|
        ensures Credited(k) == old(Credited(k)) + (if bucket <= k then tokens else 0)
      {
        PrefixSumOfUpdate(was, bucket, was[bucket] + tokens, k + 1);
      }
    }

    /** An unknown node: append it and link it to its parent. */
    method Grow(parent: nat, hash: nat, ts: int) returns (id: nat)
      requires Valid() && parent < |last| && Edge(parent, hash) !in edges
      modifies this`last, this`edges, this`paths, this`idOf, this`seen
      ensures Valid()
      ensures id < |paths| && paths[id] == old(paths)[parent] + [hash] && paths[id] !in old(idOf)
      ensures forall h :: Edge(id, h) !in edges
      ensures seen == old(seen)[paths[id] := ts]
      ensures forall k | 0 <= k <= |windows| :: Credited(k) == old(Credited(k))
    {
      id := |last|;
      ghost var p := paths[parent] + [hash];
      GrowTrie(edges, paths, idOf, parent, hash, p);
      UsesAfterGrow(paths, idOf, last, p, ts);
      last := last + [ts];
      edges := edges[Edge(parent, hash) := id];
      paths, idOf, seen := paths + [p], idOf[p := id], seen[p := ts];
    }

    /** The first window, from `bucket` on, that reaches `maxGap`. */
    method NextBucket(start: nat, maxGap: int) returns (bucket: nat)
      requires start <= |windows| && forall k | 0 <= k < start :: windows[k] < maxGap
      ensures FirstFit(windows, maxGap, bucket)
    {
      bucket := start;
      while bucket < |windows| && windows[bucket] < maxGap
        invariant bucket <= |windows|
        invariant forall k | 0 <= k < bucket :: windows[k] < maxGap
      {
        bucket := bucket + 1;
      }
    }

    /** Where a walk stands after i units of a request that found `was`: the node
        reached, and, while every node so far was known, the bucket to credit. */
    ghost predicate Walking(was: map<Path, int>, units: seq<Unit>, ts: int, i: nat,
                            parent: nat, maxGap: int, bucket: nat, matching: bool)
      reads this, byBucket
      requires i <= |units|
    {
      var hashes := Hashes(units);
      && Valid() && prevTs == ts
      && parent < |paths| && paths[parent] == hashes[..i]
      && seen == Write(was, hashes[..i], ts)
      && (matching ==> LargestGap(was, hashes, i, ts, maxGap) && FirstFit(windows, maxGap, bucket))
      && (!matching ==> !AllHeld(was, hashes, i) && forall h :: Edge(parent, h) !in edges)
    }

    /** The walk's next unit: a known node is a hit, anything else starts a new branch. */
    method Visit(ghost was: map<Path, int>, ghost units: seq<Unit>, ts: int, ghost i: nat, unit: Unit,
                 parent: nat, maxGap: int, bucket: nat, matching: bool)
      returns (next: nat, gap: int, bucket': nat, matching': bool)
      requires i < |units| && units[i] == unit
      requires Walking(was, units, ts, i, parent, maxGap, bucket, matching)
      modifies this, byBucket
      ensures byBucket == old(byBucket)
      ensures Walking(was, units, ts, i + 1, next, gap, bucket', matching')
      ensures total == old(total) + unit.tokens
      ensures forall k | 0 <= k <= |windows| ::
                Credited(k) - old(Credited(k))
                == Walked(was, WindowAt(windows, k), ts, units, i + 1) - Walked(was, WindowAt(windows, k), ts, units, i)
    {
      ghost var hashes := Hashes(units);
      assert hashes[..i + 1] == hashes[..i] + [unit.hash];
      Lookup(parent, unit.hash, hashes[..i + 1]);
      NotYetWritten(was, hashes, i, ts);
      WriteOneMore(was, hashes, i, ts);
      total := total + unit.tokens;
      gap, bucket', matching' := maxGap, bucket, matching;
      if matching && Edge(parent, unit.hash) in edges {
        next := edges[Edge(parent, unit.hash)];
        var idle := ts - last[next];
        if idle > maxGap {
          gap := idle;
          bucket' := NextBucket(bucket, gap);
        }
        LargestGapExtends(was, hashes, i, ts, idle, gap);
        WalkedHit(was, units, i, ts, gap, windows, bucket');
        Hit(next, bucket', unit.tokens, ts);
      } else {
        matching' := false;
        WalkedMiss(was, units, i, ts, windows);
        next := Grow(parent, unit.hash, ts);
      }
    }

    /** Score one request and record its prefix. */
    method Observe(ts0: int, units: seq<Unit>)
      requires Valid()
      modifies this, byBucket
      ensures Valid() && byBucket == old(byBucket)
      ensures prevTs == Max(ts0, old(prevTs))
      ensures total == old(total) + SumTokens(units)
      ensures seen == Write(old(seen), Hashes(units), prevTs)
      ensures forall k | 0 <= k <= |windows| ::
                Credited(k) == old(Credited(k)) + Hits(old(seen), WindowAt(windows, k), prevTs, units)
    {
      var ts := ts0;
      if ts < prevTs {
        ts := prevTs;
      }
      prevTs := ts;

      ghost var was := seen;
      var parent: nat, maxGap, bucket: nat, matching := 0, 0, 0, true;
      assert Hashes(units)[..0] == [] && units[..0] == [];
      assert Write(was, [], ts) == was;
      for i := 0 to |units|
        invariant byBucket == old(byBucket)
        invariant Walking(was, units, ts, i, parent, maxGap, bucket, matching)
        invariant total == old(total) + SumTokens(units[..i])
        invariant forall k | 0 <= k <= |windows| ::
                    Credited(k) == old(Credited(k)) + Walked(was, WindowAt(windows, k), ts, units, i)
      {
        assert units[..i + 1][..i] == units[..i];
        parent, maxGap, bucket, matching :=
          Visit(was, units, ts, i, units[i], parent, maxGap, bucket, matching);
      }
      assert Hashes(units)[..|units|] == Hashes(units) && units[..|units|] == units;
    }

    /** The simulator agrees with one real cache per window over the run so far. */
    ghost predicate Scored(reqs: seq<Request>)
      reads this, byBucket
    {
      && Valid()
      && seen == EntriesAfter(reqs, Forever) && prevTs == Clock(reqs) && total == TotalTokens(reqs)
      && (forall k | 0 <= k <= |windows| :: Credited(k) == ServedTokens(reqs, WindowAt(windows, k)))
    }

    /** Observing one more request keeps that agreement. */
    method Feed(ghost before: seq<Request>, ts: int, units: seq<Unit>)
      requires Scored(before)
      modifies this, byBucket
      ensures byBucket == old(byBucket)
      ensures Scored(before + [Request(ts, units)])
    {
      ghost var all := before + [Request(ts, units)];
      assert all[..|all| - 1] == before && all[|all| - 1] == Request(ts, units);
      Observe(ts, units);
      assert Forget(EntriesAfter(before, Forever), Forever, prevTs) == EntriesAfter(before, Forever);
      forall k | 0 <= k <= |windows|
        ensures Credited(k) == ServedTokens(all, WindowAt(windows, k))
      {
        HitsFromTheView(before, WindowAt(windows, k), prevTs, units);
      }
    }

    /** Running sums of the buckets: a window serves what any shorter one does. */
    method Cumulate() returns (cached: seq<int>, infinite: int)
      requires Valid()
      ensures |cached| == |windows| && forall k | 0 <= k < |windows| :: cached[k] == Credited(k)
      ensures infinite == Credited(|windows|)
    {
      var run := 0;
      cached := [];
      for k := 0 to |windows|
        invariant |cached| == k && forall j | 0 <= j < k :: cached[j] == Credited(j)
        invariant run == PrefixSum(byBucket[..], k)
      {
        run := run + byBucket[k];
        cached := cached + [run];
      }
      infinite := run + byBucket[|windows|];
    }

    method Report(ghost reqs: seq<Request>) returns (rep: RetentionReport)
      requires Scored(reqs)
      ensures rep == ExpectedReport(reqs, windows)
    {
      var cached, infinite := Cumulate();
      rep := RetentionReport(windows, cached, infinite, total);
    }
  }

  /** The report the definition asks for: a separate cache for every window. */
  function ExpectedReport(reqs: seq<Request>, windows: seq<int>): RetentionReport
  {
    RetentionReport(windows, seq(|windows|, k requires 0 <= k < |windows| => ServedTokens(reqs, Within(windows[k]))),
           ServedTokens(reqs, Forever), TotalTokens(reqs))
  }

  method SimulateRetention(reqs: seq<Request>, windows: seq<int>) returns (rep: RetentionReport)
    requires Ascending(windows)
    ensures rep == ExpectedReport(reqs, windows)
  {
    var sim := new RetentionSim(windows);
    for i := 0 to |reqs|
      invariant sim.windows == windows && fresh(sim) && fresh(sim.byBucket)
      invariant sim.Scored(reqs[..i])
    {
      assert reqs[..i + 1] == reqs[..i] + [Request(reqs[i].ts, reqs[i].units)];
      sim.Feed(reqs[..i], reqs[i].ts, reqs[i].units);
    }
    assert reqs[..|reqs|] == reqs;
    rep := sim.Report(reqs);
  }

  /** What a reader of the report may rely on: longer windows never cache less, none
      caches more than the infinite cache, which serves exactly the longest prefix
      already seen. */
  lemma ReportIsOrdered(reqs: seq<Request>, windows: seq<int>)
    requires Ascending(windows)
    requires forall r | r in reqs :: forall u | u in r.units :: u.tokens >= 0
    ensures var rep := ExpectedReport(reqs, windows);
            && (forall j, k | 0 <= j <= k < |windows| :: rep.cached[j] <= rep.cached[k])
            && (forall k | 0 <= k < |windows| :: rep.cached[k] <= rep.cachedInfinite)
            && rep.cachedInfinite == LongestSeenTokens(reqs)
            && rep.cachedInfinite <= rep.total
  {
    forall j, k | 0 <= j <= k < |windows|
      ensures ServedTokens(reqs, Within(windows[j])) <= ServedTokens(reqs, Within(windows[k]))
    {
      LongerTtlServesNoLess(reqs, Within(windows[j]), Within(windows[k]));
    }
    forall k | 0 <= k < |windows|
      ensures ServedTokens(reqs, Within(windows[k])) <= ServedTokens(reqs, Forever)
    {
      LongerTtlServesNoLess(reqs, Within(windows[k]), Forever);
    }
    LongerTtlServesNoLess(reqs, Forever, Forever);
    ForeverServesLongestSeen(reqs);
  }
}
