/** What retention_sim.go replaces: one real prefix cache per time-to-live. A cache
    maps every prefix it holds to the moment it was last used. */
module TtlCaches {
  import opened Units

  datatype Ttl = Within(window: int) | Forever

  datatype Request = Request(ts: int, units: seq<Unit>)

  predicate Alive(ttl: Ttl, lastUse: int, now: int)
  {
    ttl.Forever? || now - lastUse <= ttl.window
  }

  /** Drop every entry that has been idle for longer than the time-to-live. */
  function Forget(entries: map<Path, int>, ttl: Ttl, now: int): map<Path, int>
  {
    map p | p in entries && Alive(ttl, entries[p], now) :: entries[p]
  }

  /** The longest leading run of `hashes` whose prefixes are all held; `from` are known to be. */
  function MatchLen(entries: map<Path, int>, hashes: Path, from: nat): (n: nat)
    requires from <= |hashes|
    ensures from <= n <= |hashes|
    decreases |hashes| - from
  {
    if from < |hashes| && hashes[..from + 1] in entries
    then MatchLen(entries, hashes, from + 1)
    else from
  }

  function Prefixes(hashes: Path): set<Path>
  {
    set n | 1 <= n <= |hashes| :: hashes[..n]
  }

  /** Use or write every prefix of a request at `now`. */
  function Write(entries: map<Path, int>, hashes: Path, now: int): map<Path, int>
  {
    map p | p in entries.Keys + Prefixes(hashes) :: if p in Prefixes(hashes) then now else entries[p]
  }

  /** Tokens a cache serves to a request arriving at `now`. */
  function Hits(entries: map<Path, int>, ttl: Ttl, now: int, units: seq<Unit>): int
  {
    SumTokens(units[..MatchLen(Forget(entries, ttl, now), Hashes(units), 0)])
  }

  /** Request times never run backwards: an unknown or out-of-order one counts as the previous. */
  function Clock(reqs: seq<Request>): int
  {
    if |reqs| == 0 then 0
    else Max(reqs[|reqs| - 1].ts, Clock(reqs[..|reqs| - 1]))
  }

  /** The clock is the latest time stamp so far, or zero before any. */
  lemma {:induction false} ClockIsTheLatest(reqs: seq<Request>)
    ensures Clock(reqs) >= 0 && forall r | r in reqs :: r.ts <= Clock(reqs)
    ensures Clock(reqs) == 0 || exists r | r in reqs :: r.ts == Clock(reqs)
  {
    if |reqs| > 0 {
      var n, before := |reqs| - 1, reqs[..|reqs| - 1];
      ClockIsTheLatest(before);
      assert reqs == before + [reqs[n]];
      assert reqs[n] in reqs;
    }
  }

  /** The cache for `ttl` after a run: before each request it forgets what has been
      idle too long, after it every prefix of the request is held. */
  function EntriesAfter(reqs: seq<Request>, ttl: Ttl): map<Path, int>
  {
    if |reqs| == 0 then map[]
    else
      var before := EntriesAfter(reqs[..|reqs| - 1], ttl);
      var now := Clock(reqs);
      Write(Forget(before, ttl, now), Hashes(reqs[|reqs| - 1].units), now)
  }

  /** Tokens that cache served over the run. */
  function ServedTokens(reqs: seq<Request>, ttl: Ttl): int
  {
    if |reqs| == 0 then 0
    else
      var before := reqs[..|reqs| - 1];
      ServedTokens(before, ttl)
      + Hits(EntriesAfter(before, ttl), ttl, Clock(reqs), reqs[|reqs| - 1].units)
  }

  function TotalTokens(reqs: seq<Request>): int
  {
    if |reqs| == 0 then 0
    else TotalTokens(reqs[..|reqs| - 1]) + SumTokens(reqs[|reqs| - 1].units)
  }

  // ---- Matching ----

  ghost predicate AllHeld(entries: map<Path, int>, hashes: Path, n: nat)
    requires n <= |hashes|
  {
    forall j | 1 <= j <= n :: hashes[..j] in entries
  }

  /** MatchLen is the largest n whose prefixes are all held. */
  lemma {:induction false} MatchLenIsLongest(entries: map<Path, int>, hashes: Path, from: nat)
    requires from <= |hashes|
    requires AllHeld(entries, hashes, from)
    ensures AllHeld(entries, hashes, MatchLen(entries, hashes, from))
    ensures forall n | 0 <= n <= |hashes| && AllHeld(entries, hashes, n) :: n <= MatchLen(entries, hashes, from)
    decreases |hashes| - from
  {
    if from < |hashes| && hashes[..from + 1] in entries {
      MatchLenIsLongest(entries, hashes, from + 1);
    } else {
      forall n | from < n <= |hashes|
        ensures !AllHeld(entries, hashes, n)
      {
        assert hashes[..from + 1] !in entries;
      }
    }
  }

  lemma MatchReaches(entries: map<Path, int>, hashes: Path, n: nat)
    requires n <= |hashes|
    ensures MatchLen(entries, hashes, 0) >= n <==> AllHeld(entries, hashes, n)
  {
    MatchLenIsLongest(entries, hashes, 0);
  }

  // ---- One write history serves every time-to-live ----

  /** The cache for a window is the never-forgetting cache with its idle entries
      dropped: refreshing does not depend on the window. */
  lemma {:induction false} TtlCacheIsAView(reqs: seq<Request>, ttl: Ttl)
    requires ttl.Within? ==> ttl.window >= 0
    ensures EntriesAfter(reqs, ttl) == Forget(EntriesAfter(reqs, Forever), ttl, Clock(reqs))
  {
    if |reqs| > 0 {
      var before, hs, now := reqs[..|reqs| - 1], Hashes(reqs[|reqs| - 1].units), Clock(reqs);
      TtlCacheIsAView(before, ttl);
      ForgetTwice(EntriesAfter(before, Forever), ttl, Clock(before), now);
      assert Forget(EntriesAfter(before, Forever), Forever, now) == EntriesAfter(before, Forever);
      ForgetAroundWrite(EntriesAfter(before, Forever), ttl, hs, now);
    }
  }

  lemma ForgetTwice(all: map<Path, int>, ttl: Ttl, earlier: int, now: int)
    requires earlier <= now
    ensures Forget(Forget(all, ttl, earlier), ttl, now) == Forget(all, ttl, now)
  {
  }

  lemma ForgetAroundWrite(all: map<Path, int>, ttl: Ttl, hashes: Path, now: int)
    requires ttl.Within? ==> ttl.window >= 0
    ensures Write(Forget(all, ttl, now), hashes, now) == Forget(Write(all, hashes, now), ttl, now)
  {
    var a, b := Write(Forget(all, ttl, now), hashes, now), Forget(Write(all, hashes, now), ttl, now);
    assert forall p :: p in a <==> p in b;
    assert forall p | p in a :: a[p] == b[p];
  }

  /** Hence what it serves can be read off the never-forgetting cache. */
  lemma HitsFromTheView(reqs: seq<Request>, ttl: Ttl, now: int, units: seq<Unit>)
    requires ttl.Within? ==> ttl.window >= 0
    requires now >= Clock(reqs)
    ensures Hits(EntriesAfter(reqs, ttl), ttl, now, units) == Hits(EntriesAfter(reqs, Forever), ttl, now, units)
  {
    TtlCacheIsAView(reqs, ttl);
    ForgetTwice(EntriesAfter(reqs, Forever), ttl, Clock(reqs), now);
  }

  // ---- Longer retention never serves less ----

  ghost predicate NoShorter(a: Ttl, b: Ttl)
  {
    b.Forever? || (a.Within? && a.window <= b.window)
  }

  lemma {:induction false} LongerTtlServesNoLess(reqs: seq<Request>, a: Ttl, b: Ttl)
    requires a.Within? ==> a.window >= 0
    requires NoShorter(a, b)
    requires forall r | r in reqs :: forall u | u in r.units :: u.tokens >= 0
    ensures ServedTokens(reqs, a) <= ServedTokens(reqs, b) <= TotalTokens(reqs)
  {
    if |reqs| > 0 {
      var before, units, now := reqs[..|reqs| - 1], reqs[|reqs| - 1].units, Clock(reqs);
      LongerTtlServesNoLess(before, a, b);
      HitsFromTheView(before, a, now, units);
      HitsFromTheView(before, b, now, units);
      var all, hs := EntriesAfter(before, Forever), Hashes(units);
      var na, nb := MatchLen(Forget(all, a, now), hs, 0), MatchLen(Forget(all, b, now), hs, 0);
      MatchReaches(Forget(all, a, now), hs, na);
      MatchReaches(Forget(all, b, now), hs, na);
      assert reqs[|reqs| - 1] in reqs;
      SumTokensMonotone(units, na, nb);
      SumTokensMonotone(units, nb, |units|);
      assert units[..|units|] == units;
    }
  }

  // ---- The infinite cache is "longest prefix seen before" ----

  function CommonPrefix(a: Path, b: Path): (n: nat)
    ensures n <= |a| && n <= |b|
  {
    if |a| > 0 && |b| > 0 && a[0] == b[0] then 1 + CommonPrefix(a[1..], b[1..]) else 0
  }

  function LongestSeen(reqs: seq<Request>, hashes: Path): (n: nat)
    ensures n <= |hashes|
  {
    if |reqs| == 0 then 0
    else
      var here := CommonPrefix(Hashes(reqs[|reqs| - 1].units), hashes);
      var before := LongestSeen(reqs[..|reqs| - 1], hashes);
      if here >= before then here else before
  }

  function LongestSeenTokens(reqs: seq<Request>): int
  {
    if |reqs| == 0 then 0
    else
      var before, units := reqs[..|reqs| - 1], reqs[|reqs| - 1].units;
      LongestSeenTokens(before) + SumTokens(units[..LongestSeen(before, Hashes(units))])
  }

  lemma {:induction false} CommonPrefixReaches(a: Path, b: Path, n: nat)
    requires n <= |b|
    ensures CommonPrefix(a, b) >= n <==> n <= |a| && a[..n] == b[..n]
  {
    if n > 0 && |a| > 0 && |b| > 0 && a[0] == b[0] {
      CommonPrefixReaches(a[1..], b[1..], n - 1);
      if n <= |a| {
        assert a[..n] == [a[0]] + a[1..][..n - 1];
        assert b[..n] == [b[0]] + b[1..][..n - 1];
      }
    } else if n > 0 && n <= |a| {
      assert a[..n][0] == a[0] && b[..n][0] == b[0];
    }
  }

  lemma InPrefixes(a: Path, p: Path)
    ensures p in Prefixes(a) <==> 1 <= |p| <= |a| && a[..|p|] == p
  {
    if 1 <= |p| <= |a| && a[..|p|] == p { assert a[..|p|] in Prefixes(a); }
  }

  lemma {:induction false} HeldForeverIffSeen(reqs: seq<Request>, hashes: Path, n: nat)
    requires 1 <= n <= |hashes|
    ensures hashes[..n] in EntriesAfter(reqs, Forever) <==> LongestSeen(reqs, hashes) >= n
  {
    if |reqs| > 0 {
      var before, last := reqs[..|reqs| - 1], Hashes(reqs[|reqs| - 1].units);
      HeldForeverIffSeen(before, hashes, n);
      CommonPrefixReaches(last, hashes, n);
      InPrefixes(last, hashes[..n]);
    }
  }

  lemma {:induction false} ForeverServesLongestSeen(reqs: seq<Request>)
    ensures ServedTokens(reqs, Forever) == LongestSeenTokens(reqs)
  {
    if |reqs| > 0 {
      var before, units := reqs[..|reqs| - 1], reqs[|reqs| - 1].units;
      ForeverServesLongestSeen(before);
      var seen := EntriesAfter(before, Forever);
      assert Forget(seen, Forever, Clock(reqs)) == seen;
      ForeverMatchesLongestSeen(before, Hashes(units));
    }
  }

  lemma ForeverMatchesLongestSeen(before: seq<Request>, hs: Path)
    ensures MatchLen(EntriesAfter(before, Forever), hs, 0) == LongestSeen(before, hs)
  {
    hide LongestSeen, EntriesAfter, MatchLen;
    var held, m := EntriesAfter(before, Forever), LongestSeen(before, hs);
    var n := MatchLen(held, hs, 0);
    MatchReaches(held, hs, n);
    if n > 0 { HeldForeverIffSeen(before, hs, n); }
    forall j | 1 <= j <= m ensures hs[..j] in held { HeldForeverIffSeen(before, hs, j); }
    MatchReaches(held, hs, m);
  }

  // ---- What any cache serves, without any cache ----

  /** Request k begins with these units. */
  predicate Begins(reqs: seq<Request>, k: nat, p: Path)
    requires k < |reqs|
  {
    var hs := Hashes(reqs[k].units);
    |p| <= |hs| && hs[..|p|] == p
  }

  /** Some request so far began with these units, at most a window ago. */
  ghost predicate UsedWithin(reqs: seq<Request>, p: Path, window: int, now: int)
  {
    exists k: nat :: k < |reqs| && Begins(reqs, k, p) && now - Clock(reqs[..k + 1]) <= window
  }

  /** The never-forgetting cache holds a prefix with the moment of its latest use. */
  lemma {:induction false} HoldsTheLatestUse(reqs: seq<Request>, p: Path)
    requires |p| >= 1
    ensures var all := EntriesAfter(reqs, Forever);
            && (p in all ==> exists k: nat :: k < |reqs| && Begins(reqs, k, p) && Clock(reqs[..k + 1]) == all[p])
            && (forall k: nat | k < |reqs| && Begins(reqs, k, p) :: p in all && Clock(reqs[..k + 1]) <= all[p])
    ensures p in EntriesAfter(reqs, Forever) ==> EntriesAfter(reqs, Forever)[p] <= Clock(reqs)
  {
    if |reqs| > 0 {
      var n, before, all := |reqs| - 1, reqs[..|reqs| - 1], EntriesAfter(reqs, Forever);
      HoldsTheLatestUse(before, p);
      InPrefixes(Hashes(reqs[n].units), p);
      assert reqs[..n + 1] == reqs;
      assert forall k: nat | k < n :: before[..k + 1] == reqs[..k + 1] && (Begins(before, k, p) <==> Begins(reqs, k, p));
      if p in all && !Begins(reqs, n, p) {
        var k: nat :| k < n && Begins(before, k, p) && Clock(before[..k + 1]) == EntriesAfter(before, Forever)[p];
        assert Begins(reqs, k, p) && Clock(reqs[..k + 1]) == all[p];
      } else if p in all {
        assert Begins(reqs, n, p) && Clock(reqs[..n + 1]) == all[p];
      }
    }
  }

  /** The first n units of a request are served exactly if an earlier request began with
      them at most a window ago. */
  lemma ServesIffUsedWithin(reqs: seq<Request>, window: nat, now: int, hs: Path, n: nat)
    requires n <= |hs| && now >= Clock(reqs)
    ensures MatchLen(Forget(EntriesAfter(reqs, Within(window)), Within(window), now), hs, 0) >= n
       <==> n == 0 || UsedWithin(reqs, hs[..n], window, now)
  {
    hide EntriesAfter, Clock;
    var all, held := EntriesAfter(reqs, Forever), Forget(EntriesAfter(reqs, Within(window)), Within(window), now);
    TtlCacheIsAView(reqs, Within(window));
    ForgetTwice(all, Within(window), Clock(reqs), now);
    MatchReaches(held, hs, n);
    forall j: nat | 1 <= j <= n
      ensures hs[..j] in held <==> UsedWithin(reqs, hs[..j], window, now)
      ensures UsedWithin(reqs, hs[..n], window, now) ==> UsedWithin(reqs, hs[..j], window, now)
    {
      HoldsTheLatestUse(reqs, hs[..j]);
      ShorterUsedToo(reqs, hs, j, n, window, now);
    }
  }

  lemma ShorterUsedToo(reqs: seq<Request>, hs: Path, j: nat, n: nat, window: int, now: int)
    requires j <= n <= |hs|
    ensures UsedWithin(reqs, hs[..n], window, now) ==> UsedWithin(reqs, hs[..j], window, now)
  {
    forall k: nat | k < |reqs| && Begins(reqs, k, hs[..n]) ensures Begins(reqs, k, hs[..j]) {
      var own := Hashes(reqs[k].units);
      assert own[..j] == own[..n][..j] && hs[..j] == hs[..n][..j];
    }
  }
}
