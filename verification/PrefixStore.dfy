/** replay_prefix_store.go: each request's prefix stored as "the first `shared` units
    of its predecessor, then `tail`", with a bound on how far a rebuild walks. */
module PrefixStores {
  import opened Units
  import TtlCaches
  import opened RetentionSimulation

  const CHECKPOINT_EVERY := 32

  /** A captured request, its prefix already turned into units. */
  datatype ReplayRequest = ReplayRequest(
    ts: int, model: string, inputTokens: int, cacheReadTokens: int, outputTokens: int, units: seq<Unit>)

  datatype PrefixRequest = PrefixRequest(
    ts: int, model: string, session: nat, inputTokens: int, cacheReadTokens: int, outputTokens: int,
    anyTokens: bool,
    parent: int,     // predecessor index, -1 for none
    shared: nat,     // leading units taken from the predecessor
    length: nat,     // full prefix length
    depth: nat,      // hops to the nearest stored-in-full ancestor
    tail: seq<Unit>)

  /** Parent links point backwards, share no more than the parent holds, and form
      chains shorter than CHECKPOINT_EVERY. */
  ghost predicate Chained(reqs: seq<PrefixRequest>)
  {
    forall i | 0 <= i < |reqs| :: WellLinked(reqs, i)
  }

  ghost predicate WellLinked(reqs: seq<PrefixRequest>, i: nat)
    requires i < |reqs|
  {
    var r := reqs[i];
    && r.length == r.shared + |r.tail|
    && r.depth < CHECKPOINT_EVERY
    && -1 <= r.parent < i
    && (if r.parent < 0 then r.shared == 0 && r.depth == 0
        else r.shared <= reqs[r.parent].length && r.depth == reqs[r.parent].depth + 1)
  }

  /** The prefix a stored request stands for. */
  ghost function Expand(reqs: seq<PrefixRequest>, i: nat): (units: seq<Unit>)
    requires Chained(reqs) && i < |reqs|
    ensures |units| == reqs[i].length
    decreases i
  {
    assert WellLinked(reqs, i);
    var r := reqs[i];
    if r.parent < 0 then r.tail
    else
      assert WellLinked(reqs, r.parent);
      Expand(reqs, r.parent)[..r.shared] + r.tail
  }

  lemma {:induction false} ExpandInExtension(reqs: seq<PrefixRequest>, more: seq<PrefixRequest>, i: nat)
    requires Chained(reqs) && Chained(reqs + more) && i < |reqs|
    ensures Expand(reqs + more, i) == Expand(reqs, i)
    decreases i
  {
    assert WellLinked(reqs, i);
    assert (reqs + more)[i] == reqs[i];
    if reqs[i].parent >= 0 { ExpandInExtension(reqs, more, reqs[i].parent); }
  }

  function CommonRun(a: seq<Unit>, b: seq<Unit>): (n: nat)
    ensures n <= |a| && n <= |b| && a[..n] == b[..n]
    ensures n < |a| && n < |b| ==> a[n] != b[n]
  {
    if |a| > 0 && |b| > 0 && a[0] == b[0] then
      var n := 1 + CommonRun(a[1..], b[1..]);
      assert a[..n] == [a[0]] + a[1..][..n - 1];
      assert b[..n] == [b[0]] + b[1..][..n - 1];
      n
    else 0
  }

  lemma {:induction false} CommonRunIs(a: seq<Unit>, b: seq<Unit>, n: nat)
    requires n <= |a| && n <= |b| && a[..n] == b[..n]
    requires n < |a| && n < |b| ==> a[n] != b[n]
    ensures CommonRun(a, b) == n
  {
    if n > 0 {
      assert a[0] == a[..n][0] == b[..n][0] == b[0];
      assert a[1..][..n - 1] == a[..n][1..];
      assert b[1..][..n - 1] == b[..n][1..];
      CommonRunIs(a[1..], b[1..], n - 1);
    }
  }

  /** Request base + j of a store is turn j of a chain: its own fields copied, its prefix
      rebuilt exactly, and nothing stored that its predecessor already has, unless
      the chain has grown as long as it may. */
  ghost predicate Stores(reqs: seq<PrefixRequest>, base: nat, chain: seq<ReplayRequest>, j: nat)
    requires Chained(reqs) && base + j < |reqs| && j < |chain|
  {
    var i := base + j;
    var r, q := reqs[i], chain[j];
    && r.ts == q.ts && r.model == q.model && r.inputTokens == q.inputTokens
    && r.cacheReadTokens == q.cacheReadTokens && r.outputTokens == q.outputTokens
    && (r.anyTokens <==> exists u | u in q.units :: u.tokens > 0)
    && Expand(reqs, i) == q.units
    && r.parent == (if r.shared > 0 then i - 1 else -1)
    && r.shared == (if j > 0 && reqs[i - 1].depth + 1 < CHECKPOINT_EVERY
                    then CommonRun(chain[j - 1].units, q.units) else 0)
  }

  method AnyTokens(units: seq<Unit>) returns (any: bool)
    ensures any <==> exists u | u in units :: u.tokens > 0
  {
    for k := 0 to |units|
      invariant forall j | 0 <= j < k :: units[j].tokens <= 0
    {
      if units[k].tokens > 0 {
        return true;
      }
    }
    return false;
  }

  /** A store fragment built on its own; its parent links are local to it. */
  class PrefixBatch {
    var reqs: seq<PrefixRequest>

    constructor ()
      ensures reqs == []
    {
      reqs := [];
    }

    /** Append requests that follow one another, each linked to the one before. */
    method AddChain(chain: seq<ReplayRequest>)
      requires Chained(reqs)
      modifies this
      ensures Chained(reqs) && |reqs| == |old(reqs)| + |chain|
      ensures reqs[..|old(reqs)|] == old(reqs)
      ensures forall j | 0 <= j < |chain| :: Stores(reqs, |old(reqs)|, chain, j)
    {
      var prev: seq<Unit>, prevIdx, prevDepth: nat := [], -1, 0;
      ghost var base := |reqs|;
      for j := 0 to |chain|
        invariant Chained(reqs) && |reqs| == base + j
        invariant reqs[..base] == old(reqs)
        invariant forall k | 0 <= k < j :: Stores(reqs, base, chain, k)
        invariant if j == 0 then prevIdx == -1 && prevDepth == 0
                  else prevIdx == |reqs| - 1 && prev == chain[j - 1].units && prevDepth == reqs[prevIdx].depth
      {
        var req := chain[j];
        var units := req.units;
        var any := AnyTokens(units);
        var p := 0;
        if prevIdx >= 0 && prevDepth + 1 < CHECKPOINT_EVERY {
          while p < |prev| && p < |units| && prev[p] == units[p]
            invariant p <= |prev| && p <= |units| && prev[..p] == units[..p]
          {
            p := p + 1;
          }
          CommonRunIs(prev, units, p);
        }
        var r := PrefixRequest(req.ts, req.model, 0, req.inputTokens, req.cacheReadTokens, req.outputTokens,
                               any, -1, 0, |units|, 0, units[p..]);
        if p > 0 {
          r := r.(parent := prevIdx, shared := p, depth := prevDepth + 1);
        }
        AppendKeeps(reqs, r, base, chain, j);
        prev, prevIdx, prevDepth := units, |reqs|, r.depth;
        reqs := reqs + [r];
      }
    }
  }

  lemma AppendChained(reqs: seq<PrefixRequest>, r: PrefixRequest)
    requires Chained(reqs) && WellLinked(reqs + [r], |reqs|)
    ensures Chained(reqs + [r])
  {
    forall i | 0 <= i <= |reqs| ensures WellLinked(reqs + [r], i) {
      if i < |reqs| { assert WellLinked(reqs, i); }
    }
  }

  lemma StoresInExtension(reqs: seq<PrefixRequest>, more: seq<PrefixRequest>, base: nat,
                          chain: seq<ReplayRequest>, j: nat)
    requires Chained(reqs) && Chained(reqs + more) && base + j < |reqs| && j < |chain|
    requires Stores(reqs, base, chain, j)
    ensures Stores(reqs + more, base, chain, j)
  {
    ExpandInExtension(reqs, more, base + j);
  }

  lemma AppendKeeps(reqs: seq<PrefixRequest>, r: PrefixRequest, base: nat, chain: seq<ReplayRequest>, j: nat)
    requires Chained(reqs) && |reqs| == base + j && j < |chain|
    requires forall k | 0 <= k < j :: Stores(reqs, base, chain, k)
    requires r.ts == chain[j].ts && r.model == chain[j].model && r.inputTokens == chain[j].inputTokens
    requires r.cacheReadTokens == chain[j].cacheReadTokens && r.outputTokens == chain[j].outputTokens
    requires r.anyTokens <==> exists u | u in chain[j].units :: u.tokens > 0
    requires r.length == |chain[j].units| && r.shared <= r.length && r.tail == chain[j].units[r.shared..]
    requires r.shared == (if j > 0 && reqs[|reqs| - 1].depth + 1 < CHECKPOINT_EVERY
                          then CommonRun(chain[j - 1].units, chain[j].units) else 0)
    requires if r.shared > 0 then r.parent == |reqs| - 1 && r.depth == reqs[|reqs| - 1].depth + 1
             else r.parent == -1 && r.depth == 0
    ensures Chained(reqs + [r])
    ensures forall k | 0 <= k <= j :: Stores(reqs + [r], base, chain, k)
  {
    var n := |reqs|;
    if r.shared > 0 {
      assert Stores(reqs, base, chain, j - 1);
      assert reqs[n - 1].length == |chain[j - 1].units|;
    }
    AppendChained(reqs, r);
    forall k | 0 <= k < j ensures Stores(reqs + [r], base, chain, k) {
      StoresInExtension(reqs, [r], base, chain, k);
    }
    if r.shared > 0 {
      ExpandInExtension(reqs, [r], n - 1);
      assert chain[j].units[..r.shared] + chain[j].units[r.shared..] == chain[j].units;
    }
    assert Expand(reqs + [r], n) == chain[j].units;
  }

  // ---- Appending a batch ----

  function Rebase(r: PrefixRequest, off: nat, session: nat): PrefixRequest
  {
    r.(session := session, parent := if r.parent >= 0 then r.parent + off else r.parent)
  }

  function RebaseAll(reqs: seq<PrefixRequest>, off: nat, session: nat): (all: seq<PrefixRequest>)
    ensures |all| == |reqs| && forall i | 0 <= i < |reqs| :: all[i] == Rebase(reqs[i], off, session)
  {
    seq(|reqs|, i requires 0 <= i < |reqs| => Rebase(reqs[i], off, session))
  }

  lemma AppendedChained(reqs: seq<PrefixRequest>, batch: seq<PrefixRequest>, session: nat)
    requires Chained(reqs) && Chained(batch)
    ensures Chained(reqs + RebaseAll(batch, |reqs|, session))
  {
    var all := reqs + RebaseAll(batch, |reqs|, session);
    forall i | 0 <= i < |all| ensures WellLinked(all, i) {
      if i < |reqs| { assert WellLinked(reqs, i); } else { assert WellLinked(batch, i - |reqs|); }
    }
  }

  /** Rebasing keeps what every request of the batch stands for. */
  lemma {:induction false} ExpandRebased(reqs: seq<PrefixRequest>, batch: seq<PrefixRequest>, session: nat, i: nat)
    requires Chained(reqs) && Chained(batch) && i < |batch|
    ensures Chained(reqs + RebaseAll(batch, |reqs|, session))
    ensures Expand(reqs + RebaseAll(batch, |reqs|, session), |reqs| + i) == Expand(batch, i)
    decreases i
  {
    AppendedChained(reqs, batch, session);
    assert WellLinked(batch, i);
    if batch[i].parent >= 0 { ExpandRebased(reqs, batch, session, batch[i].parent); }
  }

  /** A request as the retention simulators see it. */
  ghost function AsRequest(reqs: seq<PrefixRequest>, i: nat): TtlCaches.Request
    requires Chained(reqs) && i < |reqs|
  {
    TtlCaches.Request(reqs[i].ts, Expand(reqs, i))
  }

  ghost function Selected(reqs: seq<PrefixRequest>, idx: seq<nat>): (sel: seq<TtlCaches.Request>)
    requires Chained(reqs) && forall k | 0 <= k < |idx| :: idx[k] < |reqs|
    ensures |sel| == |idx| && forall k | 0 <= k < |idx| :: sel[k] == AsRequest(reqs, idx[k])
  {
    seq(|idx|, k requires 0 <= k < |idx| => AsRequest(reqs, idx[k]))
  }

  /** Go's copy(dst[from:], src). */
  method CopyInto<T>(dst: array<T>, from: nat, src: seq<T>)
    requires from + |src| <= dst.Length
    modifies dst
    ensures dst[..] == old(dst[..])[..from] + src + old(dst[..])[from + |src|..]
  {
    forall k | from <= k < from + |src| {
      dst[k] := src[k - from];
    }
  }

  /** Copying a stored tail over [from, limit) extends the part already rebuilt. */
  lemma Spliced(got: seq<Unit>, now: seq<Unit>, want: seq<Unit>, at: seq<Unit>, from: nat, limit: nat, n: nat)
    requires from <= limit <= n == |want| <= |got| && limit <= |at|
    requires at[..limit] == want[..limit] && got[limit..n] == want[limit..]
    requires now == got[..from] + at[from..limit] + got[limit..]
    ensures now[from..n] == want[from..]
  {
    forall k | from <= k < n ensures now[k] == want[k] {
      if k < limit { assert at[..limit][k] == want[..limit][k]; }
      else { assert got[limit..n][k - limit] == want[limit..][k - limit]; }
    }
  }

  class PrefixStore {
    var reqs: seq<PrefixRequest>
    var sessions: nat
    var models: map<string, string>

    ghost predicate Valid()
      reads this
    {
      Chained(reqs) && forall m | m in models :: models[m] == m
    }

    constructor ()
      ensures Valid() && reqs == [] && sessions == 0
    {
      reqs, sessions, models := [], 0, map[];
    }

    /** Add a batch as one session, its parent links rebased. */
    method Append(b: PrefixBatch)
      requires Valid() && Chained(b.reqs)
      modifies this
      ensures Valid()
      ensures sessions == old(sessions) + 1
      ensures reqs == old(reqs) + RebaseAll(b.reqs, |old(reqs)|, old(sessions))
    {
      var off, sess := |reqs|, sessions;
      sessions := sessions + 1;
      for i := 0 to |b.reqs|
        invariant b.reqs == old(b.reqs) && sessions == old(sessions) + 1
        invariant reqs == old(reqs) + RebaseAll(b.reqs, off, sess)[..i]
        invariant forall m | m in models :: models[m] == m
      {
        var r := b.reqs[i].(session := sess);
        if r.parent >= 0 {
          r := r.(parent := r.parent + off);
        }
        if r.model in models {
          r := r.(model := models[r.model]);
        } else {
          models := models[r.model := r.model];
        }
        assert r == Rebase(b.reqs[i], off, sess);
        reqs := reqs + [r];
      }
      assert RebaseAll(b.reqs, off, sess)[..|b.reqs|] == RebaseAll(b.reqs, off, sess);
      AppendedChained(old(reqs), b.reqs, sess);
    }

    /** Rebuild request i's prefix into `buf`, or into a new buffer when it is short;
        whatever the buffer held does not matter, and fewer than CHECKPOINT_EVERY
        predecessors are visited. */
    method Units(i: nat, buf: array<Unit>) returns (out: array<Unit>, n: nat, hops: nat)
      requires Valid() && i < |reqs|
      modifies buf
      ensures if buf.Length >= reqs[i].length then out == buf else fresh(out)
      ensures n == reqs[i].length <= out.Length
      ensures out[..n] == Expand(reqs, i)
      ensures hops <= reqs[i].depth < CHECKPOINT_EVERY
    {
      assert WellLinked(reqs, i);
      n := reqs[i].length;
      out := buf;
      if buf.Length < n {
        out := new Unit[n](_ => Unit(0, 0));
      }
      ghost var want := Expand(reqs, i);
      var limit: nat, cur: nat := n, i;
      hops := 0;
      while limit > 0
        invariant limit <= n <= out.Length && cur < |reqs| && limit <= reqs[cur].length
        invariant if buf.Length >= n then out == buf else fresh(out)
        invariant Expand(reqs, cur)[..limit] == want[..limit]
        invariant out[..][limit..n] == want[limit..]
        invariant hops + reqs[cur].depth == reqs[i].depth
        decreases cur, limit
      {
        assert WellLinked(reqs, cur);
        var r := reqs[cur];
        if limit > r.shared {
          CopyTail(out, cur, limit, n, want);
          limit := r.shared;
        }
        if limit == 0 {
          break;
        }
        assert WellLinked(reqs, r.parent);
        assert Expand(reqs, cur)[..limit] == Expand(reqs, r.parent)[..limit];
        cur, hops := r.parent, hops + 1;
      }
      assert out[..n] == out[..][0..n] == want;
    }

    /** Request cur's own tail, as far as it is wanted, goes before what is already there. */
    method CopyTail(out: array<Unit>, cur: nat, limit: nat, n: nat, ghost want: seq<Unit>)
      requires Valid() && cur < |reqs| && reqs[cur].shared < limit <= reqs[cur].length && limit <= n <= out.Length
      requires |want| == n && Expand(reqs, cur)[..limit] == want[..limit] && out[..][limit..n] == want[limit..]
      modifies out
      ensures out[..][reqs[cur].shared..n] == want[reqs[cur].shared..]
    {
      assert WellLinked(reqs, cur);
      var r := reqs[cur];
      ghost var got := out[..];
      assert r.tail[..limit - r.shared] == Expand(reqs, cur)[r.shared..limit];
      CopyInto(out, r.shared, r.tail[..limit - r.shared]);
      Spliced(got, out[..], want, Expand(reqs, cur), r.shared, limit, n);
    }
  }

  /** The store-driven simulation reports what the separate caches would on the same
      requests in the same order. */
  method SimulateRetentionStore(s: PrefixStore, idx: seq<nat>, windows: seq<int>)
    returns (rep: RetentionReport)
    requires s.Valid() && Ascending(windows) && forall k | 0 <= k < |idx| :: idx[k] < |s.reqs|
    ensures rep == ExpectedReport(Selected(s.reqs, idx), windows)
  {
    var sim := new RetentionSim(windows);
    var buf := new Unit[0];
    ghost var sel := Selected(s.reqs, idx);
    for k := 0 to |idx|
      invariant sim.windows == windows && fresh(sim) && fresh(sim.byBucket) && fresh(buf)
      invariant sim.Scored(sel[..k])
    {
      var n, hops;
      buf, n, hops := s.Units(idx[k], buf);
      assert sel[..k + 1] == sel[..k] + [TtlCaches.Request(s.reqs[idx[k]].ts, buf[..n])];
      sim.Feed(sel[..k], s.reqs[idx[k]].ts, buf[..n]);
    }
    assert sel[..|idx|] == sel;
    rep := sim.Report(sel);
  }

  // ---- From captured chains to a report ----

  function Plain(r: ReplayRequest): TtlCaches.Request
  {
    TtlCaches.Request(r.ts, r.units)
  }

  function Flat(chains: seq<seq<ReplayRequest>>): seq<ReplayRequest>
  {
    if |chains| == 0 then [] else Flat(chains[..|chains| - 1]) + chains[|chains| - 1]
  }

  function Picked(all: seq<ReplayRequest>, idx: seq<nat>): seq<TtlCaches.Request>
    requires forall k | 0 <= k < |idx| :: idx[k] < |all|
  {
    seq(|idx|, k requires 0 <= k < |idx| => Plain(all[idx[k]]))
  }

  /** A store holds exactly these requests, in this order. */
  ghost predicate Holds(reqs: seq<PrefixRequest>, all: seq<ReplayRequest>)
    requires Chained(reqs)
  {
    |reqs| == |all| && forall i | 0 <= i < |reqs| :: AsRequest(reqs, i) == Plain(all[i])
  }

  lemma HoldsAfterAppend(reqs: seq<PrefixRequest>, all: seq<ReplayRequest>, batch: seq<PrefixRequest>,
                         session: nat, chain: seq<ReplayRequest>)
    requires Chained(reqs) && Chained(batch) && Holds(reqs, all)
    requires |batch| == |chain| && forall j | 0 <= j < |chain| :: Stores(batch, 0, chain, j)
    ensures Chained(reqs + RebaseAll(batch, |reqs|, session))
    ensures Holds(reqs + RebaseAll(batch, |reqs|, session), all + chain)
  {
    var more := RebaseAll(batch, |reqs|, session);
    AppendedChained(reqs, batch, session);
    forall i | 0 <= i < |reqs + more| ensures AsRequest(reqs + more, i) == Plain((all + chain)[i]) {
      if i < |reqs| {
        ExpandInExtension(reqs, more, i);
        assert AsRequest(reqs, i) == Plain(all[i]);
      } else {
        ExpandRebased(reqs, batch, session, i - |reqs|);
        assert Stores(batch, 0, chain, i - |reqs|);
      }
    }
  }

  /** Compressing every chain, appending the batches and simulating any selection of
      the stored requests reports what the separate caches would on the originals. */
  method ScoreChains(chains: seq<seq<ReplayRequest>>, idx: seq<nat>, windows: seq<int>)
    returns (rep: RetentionReport)
    requires Ascending(windows) && forall k | 0 <= k < |idx| :: idx[k] < |Flat(chains)|
    ensures rep == ExpectedReport(Picked(Flat(chains), idx), windows)
  {
    var s := new PrefixStore();
    for c := 0 to |chains|
      invariant fresh(s) && s.Valid() && Holds(s.reqs, Flat(chains[..c]))
    {
      var b := new PrefixBatch();
      b.AddChain(chains[c]);
      assert chains[..c + 1][..c] == chains[..c];
      HoldsAfterAppend(s.reqs, Flat(chains[..c]), b.reqs, s.sessions, chains[c]);
      s.Append(b);
    }
    assert chains[..|chains|] == chains;
    rep := SimulateRetentionStore(s, idx, windows);
    assert Selected(s.reqs, idx) == Picked(Flat(chains), idx);
  }
}
