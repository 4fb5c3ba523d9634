/** replay_truncate.go: cap a session at its first requests in capture order. */
module Truncation {
  import opened Options
  import opened Sets
  import InstanceActions

  /** A captured request: its id and its timestamp, None when unparseable. */
  datatype Request = Request(id: nat, at: Option<int>)

  datatype Instance = Instance(role: string, parentSpawn: nat, requests: seq<Request>)

  datatype Ref = Ref(inst: nat, req: nat, at: Option<int>)

  /** Timed before untimed, then by time, then by position in the file. */
  predicate Less(x: Ref, y: Ref)
  {
    if x.at.Some? != y.at.Some? then x.at.Some?
    else if x.at.Some? && x.at.value != y.at.value then x.at.value < y.at.value
    else if x.inst != y.inst then x.inst < y.inst
    else x.req < y.req
  }

  predicate IsRef(insts: seq<Instance>, r: Ref)
  {
    r.inst < |insts| && r.req < |insts[r.inst].requests| && r.at == insts[r.inst].requests[r.req].at
  }

  function RefAt(insts: seq<Instance>, i: nat, j: nat): (r: Ref)
    requires i < |insts| && j < |insts[i].requests|
    ensures IsRef(insts, r)
  {
    Ref(i, j, insts[i].requests[j].at)
  }

  /** The order is strict and total on a session's requests. */
  lemma LessIsStrictTotal(insts: seq<Instance>, x: Ref, y: Ref, z: Ref)
    requires IsRef(insts, x) && IsRef(insts, y) && IsRef(insts, z)
    ensures !Less(x, x)
    ensures Less(x, y) && Less(y, z) ==> Less(x, z)
    ensures x != y ==> Less(x, y) || Less(y, x)
  {
  }

  // ---- Sorting ----

  ghost predicate StrictlySorted(s: seq<Ref>)
  {
    forall a, b | 0 <= a < b < |s| :: Less(s[a], s[b])
  }

  function Elements(s: seq<Ref>): set<Ref> { set r | r in s }

  function Insert(s: seq<Ref>, r: Ref): (t: seq<Ref>)
  {
    if |s| == 0 || Less(r, s[0]) then [r] + s else [s[0]] + Insert(s[1..], r)
  }

  lemma {:induction false} InsertKeepsOrder(insts: seq<Instance>, s: seq<Ref>, r: Ref)
    requires IsRef(insts, r) && r !in s && forall x | x in s :: IsRef(insts, x)
    requires StrictlySorted(s)
    ensures StrictlySorted(Insert(s, r)) && |Insert(s, r)| == |s| + 1
    ensures forall x :: x in Insert(s, r) <==> x == r || x in s
  {
    if |s| == 0 {
    } else if Less(r, s[0]) {
      forall b | 0 <= b < |s| ensures Less(r, s[b]) {
        if b > 0 { LessIsStrictTotal(insts, r, s[0], s[b]); }
      }
    } else {
      LessIsStrictTotal(insts, r, s[0], s[0]);
      assert s[0] in s;
      InsertKeepsOrder(insts, s[1..], r);
      var t := Insert(s[1..], r);
      forall b | 0 <= b < |t| ensures Less(s[0], t[b]) {
        assert t[b] in t;
        if t[b] != r {
          var k :| 0 <= k < |s[1..]| && s[1..][k] == t[b];
          assert s[k + 1] == t[b];
        }
      }
    }
  }

  /** What sort.SliceStable makes of a list of distinct references. */
  function SortRefs(s: seq<Ref>): seq<Ref>
  {
    if |s| == 0 then [] else Insert(SortRefs(s[..|s| - 1]), s[|s| - 1])
  }

  lemma {:induction false} SortRefsSorts(insts: seq<Instance>, s: seq<Ref>)
    requires forall x | x in s :: IsRef(insts, x)
    requires forall a, b | 0 <= a < b < |s| :: s[a] != s[b]
    ensures StrictlySorted(SortRefs(s)) && |SortRefs(s)| == |s|
    ensures forall x :: x in SortRefs(s) <==> x in s
  {
    if |s| > 0 {
      var before, r := s[..|s| - 1], s[|s| - 1];
      SortRefsSorts(insts, before);
      InsertKeepsOrder(insts, SortRefs(before), r);
    }
  }

  // ---- Which requests survive ----

  function RefsTo(insts: seq<Instance>, n: nat): seq<Ref>
    requires n <= |insts|
  {
    if n == 0 then [] else RefsTo(insts, n - 1) + RowRefs(insts, n - 1, |insts[n - 1].requests|)
  }

  function RowRefs(insts: seq<Instance>, i: nat, m: nat): (row: seq<Ref>)
    requires i < |insts| && m <= |insts[i].requests|
    ensures |row| == m && forall j | 0 <= j < m :: row[j] == RefAt(insts, i, j)
  {
    seq(m, j requires 0 <= j < m => RefAt(insts, i, j))
  }

  lemma {:induction false} RefsToListsAll(insts: seq<Instance>, n: nat)
    requires n <= |insts|
    ensures forall x :: x in RefsTo(insts, n) <==> IsRef(insts, x) && x.inst < n
    ensures forall a, b | 0 <= a < b < |RefsTo(insts, n)| :: RefsTo(insts, n)[a] != RefsTo(insts, n)[b]
    ensures |RefsTo(insts, n)| == Count(insts, n)
  {
    if n > 0 {
      RefsToListsAll(insts, n - 1);
      var row, before := RowRefs(insts, n - 1, |insts[n - 1].requests|), RefsTo(insts, n - 1);
      forall x ensures x in row <==> IsRef(insts, x) && x.inst == n - 1 {
        if IsRef(insts, x) && x.inst == n - 1 { assert row[x.req] == x; }
      }
      forall a, b | 0 <= a < b < |before + row| ensures (before + row)[a] != (before + row)[b] {
        if a < |before| {
          assert before[a] in before;
          if b >= |before| { assert row[b - |before|] in row; }
        }
      }
    }
  }

  function Count(insts: seq<Instance>, n: nat): nat
    requires n <= |insts|
  {
    if n == 0 then 0 else Count(insts, n - 1) + |insts[n - 1].requests|
  }

  function AllRefs(insts: seq<Instance>): set<Ref> { Elements(RefsTo(insts, |insts|)) }

  /** The session's requests that come before r. */
  function Earlier(insts: seq<Instance>, r: Ref): set<Ref>
  {
    set x | x in AllRefs(insts) && Less(x, r)
  }

  /** A request survives exactly when fewer than `cap` requests come before it. */
  predicate Kept(insts: seq<Instance>, cap: int, i: nat, j: nat)
    requires i < |insts| && j < |insts[i].requests|
  {
    |Earlier(insts, RefAt(insts, i, j))| < cap
  }

  function KeptRequests(insts: seq<Instance>, cap: int, i: nat, m: nat): seq<Request>
    requires i < |insts| && m <= |insts[i].requests|
  {
    if m == 0 then []
    else KeptRequests(insts, cap, i, m - 1)
         + (if Kept(insts, cap, i, m - 1) then [insts[i].requests[m - 1]] else [])
  }

  /** The survivors in file order, instances left with none dropped. */
  function Truncated(insts: seq<Instance>, cap: int, n: nat): seq<Instance>
    requires n <= |insts|
  {
    if n == 0 then []
    else
      var reqs := KeptRequests(insts, cap, n - 1, |insts[n - 1].requests|);
      Truncated(insts, cap, n - 1) + (if reqs == [] then [] else [insts[n - 1].(requests := reqs)])
  }

  /** In sorted order the requests before the k-th are exactly the first k. */
  lemma PositionIsRank(insts: seq<Instance>, sorted: seq<Ref>, k: nat)
    requires StrictlySorted(sorted) && k < |sorted|
    requires forall x :: x in sorted <==> x in AllRefs(insts)
    ensures |Earlier(insts, sorted[k])| == k
  {
    RefsToListsAll(insts, |insts|);
    assert forall x | x in sorted :: x in AllRefs(insts) && IsRef(insts, x);
    assert sorted[k] in sorted;
    forall x ensures x in Earlier(insts, sorted[k]) <==> x in sorted[..k] {
      if x in Earlier(insts, sorted[k]) {
        var a :| 0 <= a < |sorted| && sorted[a] == x;
        LessIsStrictTotal(insts, x, sorted[k], x);
        assert a < k;
        assert sorted[..k][a] == x;
      }
    }
    assert Earlier(insts, sorted[k]) == Elements(sorted[..k]);
    ElementsSize(sorted, k);
  }

  lemma {:induction false} ElementsSize(s: seq<Ref>, k: nat)
    requires StrictlySorted(s) && k <= |s|
    ensures |Elements(s[..k])| == k
  {
    if k > 0 {
      ElementsSize(s, k - 1);
      assert s[..k] == s[..k - 1] + [s[k - 1]];
      NotAmong(s, k - 1, k - 1);
      OneMoreElement(s[..k - 1], s[k - 1]);
    }
  }

  lemma OneMoreElement(s: seq<Ref>, r: Ref)
    requires r !in s
    ensures |Elements(s + [r])| == |Elements(s)| + 1
  {
    assert Elements(s + [r]) == Elements(s) + {r};
  }

  class ReplaySession {
    var instances: seq<Instance>

    constructor (instances: seq<Instance>)
      ensures this.instances == instances
    {
      this.instances := instances;
    }

    /** Cap the session; returns how many requests were dropped. */
    method Truncate(maxRequests: int) returns (dropped: nat)
      modifies this
      ensures var total := Count(old(instances), |old(instances)|);
              if maxRequests <= 0 || total <= maxRequests
              then dropped == 0 && instances == old(instances)
              else dropped == total - maxRequests
                   && instances == Truncated(old(instances), maxRequests, |old(instances)|)
    {
      if maxRequests <= 0 {
        return 0;
      }
      var total := 0;
      for i := 0 to |instances|
        invariant instances == old(instances) && total == Count(instances, i)
      {
        total := total + |instances[i].requests|;
      }
      if total <= maxRequests {
        return 0;
      }

      var refs := [];
      for i := 0 to |instances|
        invariant instances == old(instances) && refs == RefsTo(instances, i)
      {
        ghost var before := refs;
        for j := 0 to |instances[i].requests|
          invariant instances == old(instances) && refs == before + RowRefs(instances, i, j)
        {
          refs := refs + [Ref(i, j, instances[i].requests[j].at)];
        }
      }
      RefsToListsAll(instances, |instances|);
      SortRefsSorts(instances, refs);
      refs := SortRefs(refs);

      var keep := MarkKept(instances, refs, maxRequests);
      instances := Rebuild(instances, keep, maxRequests);
      dropped := total - maxRequests;
    }
  }

  /** The keep table: the first `cap` references of the sorted list. */
  method MarkKept(insts: seq<Instance>, refs: seq<Ref>, cap: int) returns (keep: seq<seq<bool>>)
    requires StrictlySorted(refs) && 0 <= cap <= |refs|
    requires forall x :: x in refs <==> x in AllRefs(insts)
    ensures |keep| == |insts|
    ensures forall i | 0 <= i < |insts| :: |keep[i]| == |insts[i].requests|
    ensures forall i, j | 0 <= i < |insts| && 0 <= j < |insts[i].requests| :: keep[i][j] <==> Kept(insts, cap, i, j)
  {
    RefsToListsAll(insts, |insts|);
    keep := seq(|insts|, i requires 0 <= i < |insts| => seq(|insts[i].requests|, _ => false));
    for k := 0 to cap
      invariant |keep| == |insts| && forall i | 0 <= i < |insts| :: |keep[i]| == |insts[i].requests|
      invariant forall i, j | 0 <= i < |insts| && 0 <= j < |insts[i].requests| ::
                  keep[i][j] <==> RefAt(insts, i, j) in refs[..k]
    {
      var r := refs[k];
      assert r in refs && IsRef(insts, r);
      assert refs[..k + 1] == refs[..k] + [r];
      keep := keep[r.inst := keep[r.inst][r.req := true]];
    }
    forall i, j | 0 <= i < |insts| && 0 <= j < |insts[i].requests|
      ensures keep[i][j] <==> Kept(insts, cap, i, j)
    {
      var x := RefAt(insts, i, j);
      assert x in refs;
      var k :| 0 <= k < |refs| && refs[k] == x;
      PositionIsRank(insts, refs, k);
      if x in refs[..cap] {
        var a :| 0 <= a < cap && refs[a] == x;
        PositionIsRank(insts, refs, a);
      } else {
        assert k >= cap;
      }
    }
  }

  method Rebuild(insts: seq<Instance>, keep: seq<seq<bool>>, ghost cap: int) returns (kept: seq<Instance>)
    requires |keep| == |insts|
    requires forall i | 0 <= i < |insts| :: |keep[i]| == |insts[i].requests|
    requires forall i, j | 0 <= i < |insts| && 0 <= j < |insts[i].requests| :: keep[i][j] <==> Kept(insts, cap, i, j)
    ensures kept == Truncated(insts, cap, |insts|)
  {
    kept := [];
    for i := 0 to |insts|
      invariant kept == Truncated(insts, cap, i)
    {
      var reqs := [];
      for j := 0 to |insts[i].requests|
        invariant reqs == KeptRequests(insts, cap, i, j)
      {
        if keep[i][j] {
          reqs := reqs + [insts[i].requests[j]];
        }
      }
      if |reqs| == 0 {
        continue;
      }
      kept := kept + [insts[i].(requests := reqs)];
    }
  }

  // ---- What the cap keeps ----

  lemma EarlierIsMonotone(insts: seq<Instance>, x: Ref, y: Ref)
    requires IsRef(insts, x) && IsRef(insts, y)
    ensures Less(x, y) ==> |Earlier(insts, x)| < |Earlier(insts, y)|
  {
    RefsToListsAll(insts, |insts|);
    if Less(x, y) {
      forall z | z in Earlier(insts, x) ensures z in Earlier(insts, y) {
        LessIsStrictTotal(insts, z, x, y);
      }
      assert x in Earlier(insts, y) && x !in Earlier(insts, x);
      SubsetSize(Earlier(insts, x), Earlier(insts, y));
    }
  }

  /** The survivors are the earliest requests: whatever precedes a survivor survives. */
  lemma KeptIsDownwardClosed(insts: seq<Instance>, cap: int, x: Ref, y: Ref)
    requires IsRef(insts, x) && IsRef(insts, y) && Less(x, y) && Kept(insts, cap, y.inst, y.req)
    ensures Kept(insts, cap, x.inst, x.req)
  {
    assert x == RefAt(insts, x.inst, x.req) && y == RefAt(insts, y.inst, y.req);
    EarlierIsMonotone(insts, x, y);
  }

  /** A request comes before another in time: it is timed and the other is not, or both are
      and it is earlier. */
  predicate Sooner(a: Option<int>, b: Option<int>)
  {
    (a.Some? && b.None?) || (a.Some? && b.Some? && a.value < b.value)
  }

  /** The survivors are the first requests in time; where time does not tell two apart, the
      first in the file. */
  lemma EarliestSurvive(insts: seq<Instance>, cap: int, i: nat, j: nat, k: nat, l: nat)
    requires i < |insts| && j < |insts[i].requests| && k < |insts| && l < |insts[k].requests|
    requires Kept(insts, cap, k, l)
    ensures var x, y := insts[i].requests[j].at, insts[k].requests[l].at;
            Sooner(x, y) || (!Sooner(y, x) && (i < k || (i == k && j < l))) ==> Kept(insts, cap, i, j)
  {
    var x, y := RefAt(insts, i, j), RefAt(insts, k, l);
    if Less(x, y) { KeptIsDownwardClosed(insts, cap, x, y); }
  }

  lemma {:induction false} KeptRequestsAre(insts: seq<Instance>, cap: int, i: nat, m: nat)
    requires i < |insts| && m <= |insts[i].requests|
    ensures forall q :: q in KeptRequests(insts, cap, i, m)
              <==> exists j :: 0 <= j < m && Kept(insts, cap, i, j) && insts[i].requests[j] == q
  {
    if m > 0 { KeptRequestsAre(insts, cap, i, m - 1); }
  }

  /** A request id is present in a list of instances. */
  ghost predicate HasId(insts: seq<Instance>, id: nat)
  {
    exists i, j :: 0 <= i < |insts| && 0 <= j < |insts[i].requests| && insts[i].requests[j].id == id
  }

  ghost predicate KeepsId(insts: seq<Instance>, cap: int, n: nat, id: nat)
    requires n <= |insts|
  {
    exists i, j :: 0 <= i < n && 0 <= j < |insts[i].requests| && Kept(insts, cap, i, j) && insts[i].requests[j].id == id
  }

  ghost predicate RequestWithId(reqs: seq<Request>, id: nat)
  {
    exists q :: q in reqs && q.id == id
  }

  lemma HasIdAppend(before: seq<Instance>, inst: Instance, id: nat)
    ensures HasId(before + [inst], id) <==> HasId(before, id) || RequestWithId(inst.requests, id)
  {
    var all := before + [inst];
    if HasId(before, id) {
      var a, b :| 0 <= a < |before| && 0 <= b < |before[a].requests| && before[a].requests[b].id == id;
      assert all[a].requests[b].id == id;
    }
    if RequestWithId(inst.requests, id) {
      var q :| q in inst.requests && q.id == id;
      var b :| 0 <= b < |inst.requests| && inst.requests[b] == q;
      assert all[|before|].requests[b].id == id;
    }
    if HasId(all, id) {
      var a, b :| 0 <= a < |all| && 0 <= b < |all[a].requests| && all[a].requests[b].id == id;
      if a < |before| { assert before[a].requests[b].id == id; } else { assert inst.requests[b] in inst.requests; }
    }
  }

  ghost predicate RowKeepsId(insts: seq<Instance>, cap: int, i: nat, id: nat)
    requires i < |insts|
  {
    exists j :: 0 <= j < |insts[i].requests| && Kept(insts, cap, i, j) && insts[i].requests[j].id == id
  }

  lemma KeepsIdStep(insts: seq<Instance>, cap: int, n: nat, id: nat)
    requires n < |insts|
    ensures KeepsId(insts, cap, n + 1, id) <==> KeepsId(insts, cap, n, id) || RowKeepsId(insts, cap, n, id)
  {
    if KeepsId(insts, cap, n + 1, id) {
      var i, j :| 0 <= i < n + 1 && 0 <= j < |insts[i].requests| && Kept(insts, cap, i, j) && insts[i].requests[j].id == id;
      assert i == n ==> RowKeepsId(insts, cap, n, id);
    }
  }

  /** Rebuilding loses no survivor and invents none. */
  lemma {:induction false} TruncatedHasId(insts: seq<Instance>, cap: int, n: nat, id: nat)
    requires n <= |insts|
    ensures HasId(Truncated(insts, cap, n), id) <==> KeepsId(insts, cap, n, id)
  {
    if n > 0 {
      TruncatedHasId(insts, cap, n - 1, id);
      KeepsIdStep(insts, cap, n - 1, id);
      var reqs := KeptRequests(insts, cap, n - 1, |insts[n - 1].requests|);
      RowSurvivors(insts, cap, n - 1, id);
      var before, rebuilt := Truncated(insts, cap, n - 1), insts[n - 1].(requests := reqs);
      HasIdAppend(before, rebuilt, id);
      assert Truncated(insts, cap, n) == if reqs == [] then before else before + [rebuilt];
    }
  }

  lemma RowSurvivors(insts: seq<Instance>, cap: int, i: nat, id: nat)
    requires i < |insts|
    ensures RequestWithId(KeptRequests(insts, cap, i, |insts[i].requests|), id) <==> RowKeepsId(insts, cap, i, id)
  {
    KeptRequestsAre(insts, cap, i, |insts[i].requests|);
    if RowKeepsId(insts, cap, i, id) {
      var j :| 0 <= j < |insts[i].requests| && Kept(insts, cap, i, j) && insts[i].requests[j].id == id;
      assert insts[i].requests[j] in KeptRequests(insts, cap, i, |insts[i].requests|);
    }
  }

  /** Some request of instance i survives, so the instance does. */
  ghost predicate Survives(insts: seq<Instance>, cap: int, i: nat)
    requires i < |insts|
  {
    exists j :: 0 <= j < |insts[i].requests| && Kept(insts, cap, i, j)
  }

  /** A request carries the id the child was spawned by. */
  ghost predicate Carries(insts: seq<Instance>, r: Ref, i: nat)
    requires i < |insts|
  {
    IsRef(insts, r) && insts[r.inst].requests[r.req].id == insts[i].parentSpawn
  }

  /** No request of instance i comes before r. */
  ghost predicate First(insts: seq<Instance>, r: Ref, i: nat)
    requires i < |insts|
  {
    forall j | 0 <= j < |insts[i].requests| :: r == RefAt(insts, i, j) || Less(r, RefAt(insts, i, j))
  }

  /** What comes no later than any request of a surviving instance survives too. */
  lemma FirstSurvives(insts: seq<Instance>, cap: int, r: Ref, i: nat)
    requires i < |insts| && IsRef(insts, r) && First(insts, r, i) && Survives(insts, cap, i)
    ensures Kept(insts, cap, r.inst, r.req)
  {
    var j :| 0 <= j < |insts[i].requests| && Kept(insts, cap, i, j);
    if r != RefAt(insts, i, j) { KeptIsDownwardClosed(insts, cap, r, RefAt(insts, i, j)); }
  }

  /** A surviving child still finds its parent's request, if one came no later than the
      child's own. */
  lemma NoOrphans(insts: seq<Instance>, cap: int, spawn: Ref, i: nat)
    requires i < |insts| && Carries(insts, spawn, i) && First(insts, spawn, i) && Survives(insts, cap, i)
    ensures HasId(Truncated(insts, cap, |insts|), insts[i].parentSpawn)
  {
    FirstSurvives(insts, cap, spawn, i);
    TruncatedHasId(insts, cap, |insts|, insts[i].parentSpawn);
  }

  lemma {:induction false} LeastRequest(insts: seq<Instance>, i: nat, m: nat) returns (k: nat)
    requires i < |insts| && 0 < m <= |insts[i].requests|
    ensures k < m
    ensures forall j | 0 <= j < m :: RefAt(insts, i, k) == RefAt(insts, i, j) || Less(RefAt(insts, i, k), RefAt(insts, i, j))
  {
    if m == 1 {
      k := 0;
    } else {
      k := LeastRequest(insts, i, m - 1);
      var x, y := RefAt(insts, i, k), RefAt(insts, i, m - 1);
      LessIsStrictTotal(insts, x, y, x);
      if Less(y, x) {
        forall j | 0 <= j < m - 1 ensures Less(y, RefAt(insts, i, j)) {
          LessIsStrictTotal(insts, y, x, RefAt(insts, i, j));
        }
        k := m - 1;
      }
    }
  }

  /** If the cap that just keeps the child's least request keeps a carrier, that carrier
      comes first. */
  lemma CarrierAtLeastCap(insts: seq<Instance>, i: nat) returns (r: Ref)
    requires i < |insts| && insts[i].requests != []
    requires forall cap: int | Survives(insts, cap, i) :: HasId(Truncated(insts, cap, |insts|), insts[i].parentSpawn)
    ensures Carries(insts, r, i) && First(insts, r, i)
  {
    var k := LeastRequest(insts, i, |insts[i].requests|);
    var x := RefAt(insts, i, k);
    var cap := |Earlier(insts, x)| + 1;
    assert Kept(insts, cap, i, k);
    assert Survives(insts, cap, i);
    TruncatedHasId(insts, cap, |insts|, insts[i].parentSpawn);
    var a, b :| 0 <= a < |insts| && 0 <= b < |insts[a].requests| && Kept(insts, cap, a, b)
                && insts[a].requests[b].id == insts[i].parentSpawn;
    r := RefAt(insts, a, b);
    EarlierIsMonotone(insts, x, r);
    LessIsStrictTotal(insts, x, r, x);
    forall j | 0 <= j < |insts[i].requests| ensures r == RefAt(insts, i, j) || Less(r, RefAt(insts, i, j)) {
      LessIsStrictTotal(insts, r, x, RefAt(insts, i, j));
    }
  }

  /** For every session: no cap orphans instance i exactly when it has no requests, or a
      request with the id it was spawned by comes no later than any of its own. */
  lemma OrphanFreeIffSpawnPrecedes(insts: seq<Instance>, i: nat)
    requires i < |insts|
    ensures (insts[i].requests == [] || exists r :: Carries(insts, r, i) && First(insts, r, i))
       <==> forall cap: int | Survives(insts, cap, i) :: HasId(Truncated(insts, cap, |insts|), insts[i].parentSpawn)
  {
    if insts[i].requests != [] && exists r :: Carries(insts, r, i) && First(insts, r, i) {
      var r :| Carries(insts, r, i) && First(insts, r, i);
      forall cap: int | Survives(insts, cap, i) ensures HasId(Truncated(insts, cap, |insts|), insts[i].parentSpawn) {
        NoOrphans(insts, cap, r, i);
      }
    }
    if insts[i].requests != []
      && forall cap: int | Survives(insts, cap, i) :: HasId(Truncated(insts, cap, |insts|), insts[i].parentSpawn) {
      var r := CarrierAtLeastCap(insts, i);
    }
  }

  /** A parent of one request, and a child of one that the order puts first: the cap of one
      keeps the child alone. */
  lemma ChildFirstIsOrphaned(insts: seq<Instance>, i: nat, k: nat)
    requires |insts| == 2 && i < 2 && k < 2 && i != k
    requires |insts[0].requests| == |insts[1].requests| == 1
    requires insts[i].requests[0].id != insts[i].parentSpawn && Less(RefAt(insts, i, 0), RefAt(insts, k, 0))
    ensures Survives(insts, 1, i) && !HasId(Truncated(insts, 1, 2), insts[i].parentSpawn)
  {
    var x, y := RefAt(insts, i, 0), RefAt(insts, k, 0);
    RefsToListsAll(insts, 2);
    assert forall r | IsRef(insts, r) :: r == x || r == y;
    assert Earlier(insts, x) == {};
    assert x in Earlier(insts, y);
    assert Kept(insts, 1, i, 0) && !Kept(insts, 1, k, 0);
    TruncatedHasId(insts, 1, 2, insts[i].parentSpawn);
  }

  /** So a spawning request without a time stamp loses its child, which sorts before it. */
  lemma UntimedSpawnOrphans(p: nat, c: nat, t: int)
    requires c != p
    ensures var insts := [Instance("a", 0, [Request(p, None)]), Instance("b", p, [Request(c, Some(t))])];
            Survives(insts, 1, 1) && !HasId(Truncated(insts, 1, 2), p)
  {
    ChildFirstIsOrphaned([Instance("a", 0, [Request(p, None)]), Instance("b", p, [Request(c, Some(t))])], 1, 0);
  }

  /** And so does one at the very time of its child's, if the child stands earlier in the file. */
  lemma TiedSpawnOrphans(p: nat, c: nat, t: int)
    requires c != p
    ensures var insts := [Instance("b", p, [Request(c, Some(t))]), Instance("a", 0, [Request(p, Some(t))])];
            Survives(insts, 1, 0) && !HasId(Truncated(insts, 1, 2), p)
  {
    ChildFirstIsOrphaned([Instance("b", p, [Request(c, Some(t))]), Instance("a", 0, [Request(p, Some(t))])], 0, 1);
  }

  // ---- What that means for the session tree ----

  function Ids(reqs: seq<Request>): (ids: seq<nat>)
    ensures |ids| == |reqs| && forall j | 0 <= j < |reqs| :: ids[j] == reqs[j].id
  {
    seq(|reqs|, j requires 0 <= j < |reqs| => reqs[j].id)
  }

  function AsTree(insts: seq<Instance>): (sess: InstanceActions.Session)
    ensures |sess| == |insts|
  {
    seq(|insts|, i requires 0 <= i < |insts| =>
      InstanceActions.Instance(insts[i].role, insts[i].parentSpawn, Ids(insts[i].requests)))
  }

  /** No request id is used twice. */
  ghost predicate UniqueIds(insts: seq<Instance>)
  {
    forall r, q | IsRef(insts, r) && IsRef(insts, q) && insts[r.inst].requests[r.req].id == insts[q.inst].requests[q.req].id
      && insts[r.inst].requests[r.req].id != 0 :: r == q
  }

  /** Every spawning request that is there comes no later than its child's requests. */
  ghost predicate SpawnsComeFirst(insts: seq<Instance>)
  {
    forall i: nat, r | i < |insts| && insts[i].parentSpawn != 0 && Carries(insts, r, i) :: First(insts, r, i)
  }

  /** Where a surviving instance ends up. */
  function Place(insts: seq<Instance>, cap: int, i: nat): nat
    requires i <= |insts|
  {
    |Truncated(insts, cap, i)|
  }

  lemma {:induction false} PlacedThere(insts: seq<Instance>, cap: int, i: nat, n: nat)
    requires i < n <= |insts| && Survives(insts, cap, i)
    ensures Place(insts, cap, i) < Place(insts, cap, n)
    ensures Truncated(insts, cap, n)[Place(insts, cap, i)]
         == insts[i].(requests := KeptRequests(insts, cap, i, |insts[i].requests|))
    decreases n
  {
    if i == n - 1 {
      KeptRequestsAre(insts, cap, i, |insts[i].requests|);
      var j :| 0 <= j < |insts[i].requests| && Kept(insts, cap, i, j);
      assert insts[i].requests[j] in KeptRequests(insts, cap, i, |insts[i].requests|);
    } else {
      PlacedThere(insts, cap, i, n - 1);
    }
  }

  lemma {:induction false} PlaceHasSurvivor(insts: seq<Instance>, cap: int, n: nat, a: nat) returns (i: nat)
    requires n <= |insts| && a < Place(insts, cap, n)
    ensures i < n && Survives(insts, cap, i) && Place(insts, cap, i) == a
  {
    if a < Place(insts, cap, n - 1) {
      i := PlaceHasSurvivor(insts, cap, n - 1, a);
    } else {
      i := n - 1;
      var reqs := KeptRequests(insts, cap, i, |insts[i].requests|);
      KeptRequestsAre(insts, cap, i, |insts[i].requests|);
      assert reqs[0] in reqs;
    }
  }

  /** The ids an instance keeps are those of its kept requests. */
  lemma KeptIds(insts: seq<Instance>, cap: int, i: nat, id: nat)
    requires i < |insts|
    ensures id in Ids(KeptRequests(insts, cap, i, |insts[i].requests|)) <==> RowKeepsId(insts, cap, i, id)
  {
    var reqs := KeptRequests(insts, cap, i, |insts[i].requests|);
    RowSurvivors(insts, cap, i, id);
    if id in Ids(reqs) {
      var k :| 0 <= k < |reqs| && Ids(reqs)[k] == id;
      assert reqs[k] in reqs;
    }
    if RequestWithId(reqs, id) {
      var q :| q in reqs && q.id == id;
      var k :| 0 <= k < |reqs| && reqs[k] == q;
      assert Ids(reqs)[k] == id;
    }
  }

  /** Instance i at its place in the cut session. */
  ghost predicate Matches(insts: seq<Instance>, cap: int, i: nat)
  {
    && i < |insts| && Survives(insts, cap, i) && Place(insts, cap, i) < Place(insts, cap, |insts|)
    && Truncated(insts, cap, |insts|)[Place(insts, cap, i)]
         == insts[i].(requests := KeptRequests(insts, cap, i, |insts[i].requests|))
  }

  function Cut(insts: seq<Instance>, cap: int): InstanceActions.Session
  {
    AsTree(Truncated(insts, cap, |insts|))
  }

  /** A survivor's parent link means the same after the cut as before. */
  lemma LinkIsKept(insts: seq<Instance>, cap: int, i: nat)
    requires UniqueIds(insts) && SpawnsComeFirst(insts) && Matches(insts, cap, i) && insts[i].parentSpawn != 0
    ensures var was, now := InstanceActions.Owner(AsTree(insts), insts[i].parentSpawn),
                            InstanceActions.Owner(Cut(insts, cap), insts[i].parentSpawn);
            && (was.None? <==> now.None?)
            && (was.Some? ==> Matches(insts, cap, was.value) && now == Some(Place(insts, cap, was.value)))
  {
    var p := insts[i].parentSpawn;
    var was := InstanceActions.Owner(AsTree(insts), p);
    if was.Some? {
      OwnerIsKept(insts, cap, i, was.value);
    } else {
      forall a | 0 <= a < |Cut(insts, cap)| ensures p !in Cut(insts, cap)[a].requests {
        var k := PlaceHasSurvivor(insts, cap, |insts|, a);
        PlacedThere(insts, cap, k, |insts|);
        KeptIds(insts, cap, k, p);
        assert p !in AsTree(insts)[k].requests;
        NotKept(insts, cap, k, p);
      }
    }
  }

  lemma NotKept(insts: seq<Instance>, cap: int, k: nat, id: nat)
    requires k < |insts| && id !in Ids(insts[k].requests)
    ensures !RowKeepsId(insts, cap, k, id)
  {
    forall j | 0 <= j < |insts[k].requests| ensures insts[k].requests[j].id != id {
      assert Ids(insts[k].requests)[j] in Ids(insts[k].requests);
    }
  }

  lemma OwnerIsKept(insts: seq<Instance>, cap: int, i: nat, o: nat)
    requires UniqueIds(insts) && SpawnsComeFirst(insts) && Matches(insts, cap, i) && insts[i].parentSpawn != 0
    requires o < |insts| && insts[i].parentSpawn in Ids(insts[o].requests)
    ensures Matches(insts, cap, o)
    ensures InstanceActions.Owner(Cut(insts, cap), insts[i].parentSpawn) == Some(Place(insts, cap, o))
  {
    var p := insts[i].parentSpawn;
    var b :| 0 <= b < |insts[o].requests| && Ids(insts[o].requests)[b] == p;
    var r := RefAt(insts, o, b);
    assert Carries(insts, r, i);
    FirstSurvives(insts, cap, r, i);
    assert Survives(insts, cap, o);
    PlacedThere(insts, cap, o, |insts|);
    KeptIds(insts, cap, o, p);
    assert RowKeepsId(insts, cap, o, p);
    var sess, at := Cut(insts, cap), Place(insts, cap, o);
    forall a | 0 <= a < |sess| && p in sess[a].requests ensures a == at {
      var k := PlaceHasSurvivor(insts, cap, |insts|, a);
      PlacedThere(insts, cap, k, |insts|);
      KeptIds(insts, cap, k, p);
      var j :| 0 <= j < |insts[k].requests| && Kept(insts, cap, k, j) && insts[k].requests[j].id == p;
      assert RefAt(insts, k, j) == r;
    }
    InstanceActions.OnlyOwner(sess, p, at);
  }

  /** A survivor is the kind of instance it was, and its parent, if it waits on one, is the
      one it was. */
  lemma KindIsKept(insts: seq<Instance>, cap: int, inc: InstanceActions.RoleFilter, i: nat)
    requires UniqueIds(insts) && SpawnsComeFirst(insts) && Matches(insts, cap, i)
    ensures Place(insts, cap, i) < |Cut(insts, cap)|
    ensures var t, u, a := AsTree(insts), Cut(insts, cap), Place(insts, cap, i);
            && (InstanceActions.RootLike(t, inc, i) <==> InstanceActions.RootLike(u, inc, a))
            && (InstanceActions.Candidate(t, inc, i) <==> InstanceActions.Candidate(u, inc, a))
            && (InstanceActions.Candidate(t, inc, i) ==>
                  var o := InstanceActions.Owner(t, t[i].parentSpawn).value;
                  o < |insts| && Matches(insts, cap, o) && InstanceActions.Owner(u, u[a].parentSpawn) == Some(Place(insts, cap, o)))
  {
    if insts[i].parentSpawn != 0 {
      LinkIsKept(insts, cap, i);
    }
  }

  lemma {:induction false} ChainIsKept(insts: seq<Instance>, cap: int, inc: InstanceActions.RoleFilter, i: nat, n: nat)
    requires UniqueIds(insts) && SpawnsComeFirst(insts) && i < |insts| && Matches(insts, cap, i)
    ensures Place(insts, cap, i) < |Cut(insts, cap)|
    ensures var k := InstanceActions.Follow(AsTree(insts), inc, i, n);
            && Matches(insts, cap, k) && Place(insts, cap, k) < |Cut(insts, cap)|
            && InstanceActions.Follow(Cut(insts, cap), inc, Place(insts, cap, i), n) == Place(insts, cap, k)
            && (InstanceActions.RootLike(AsTree(insts), inc, k) <==> InstanceActions.RootLike(Cut(insts, cap), inc, Place(insts, cap, k)))
    decreases n
  {
    hide Matches, InstanceActions.Owner, InstanceActions.OwnerAmong, Truncated, UniqueIds, SpawnsComeFirst;
    KindIsKept(insts, cap, inc, i);
    var t := AsTree(insts);
    if n > 0 && InstanceActions.Candidate(t, inc, i) {
      ChainIsKept(insts, cap, inc, InstanceActions.Owner(t, t[i].parentSpawn).value, n - 1);
    }
  }

  /** With unique ids and spawning requests first, the cap changes nothing about how a
      surviving instance is launched. */
  lemma CutKeepsActions(insts: seq<Instance>, cap: int, inc: InstanceActions.RoleFilter, i: nat)
    requires UniqueIds(insts) && SpawnsComeFirst(insts) && i < |insts| && Survives(insts, cap, i)
    ensures Place(insts, cap, i) < |Cut(insts, cap)|
    ensures InstanceActions.ActionOf(Cut(insts, cap), inc, Place(insts, cap, i)) == InstanceActions.ActionOf(AsTree(insts), inc, i)
  {
    PlacedThere(insts, cap, i, |insts|);
    hide Truncated, UniqueIds, SpawnsComeFirst, Survives;
    KindIsKept(insts, cap, inc, i);
    var t, u, a := AsTree(insts), Cut(insts, cap), Place(insts, cap, i);
    if InstanceActions.Anchored(t, inc, i) {
      var n: nat :| InstanceActions.RootLike(t, inc, InstanceActions.Follow(t, inc, i, n));
      ChainIsKept(insts, cap, inc, i, n);
      assert InstanceActions.RootLike(u, inc, InstanceActions.Follow(u, inc, a, n));
    }
    if InstanceActions.Anchored(u, inc, a) {
      var n: nat :| InstanceActions.RootLike(u, inc, InstanceActions.Follow(u, inc, a, n));
      ChainIsKept(insts, cap, inc, i, n);
      assert InstanceActions.RootLike(t, inc, InstanceActions.Follow(t, inc, i, n));
    }
  }

  /** Without that, too, a child whose spawning request came first keeps an owner for its
      parent link: the cap does not turn it into a root. */
  lemma ChildStaysAChild(insts: seq<Instance>, cap: int, spawn: Ref, i: nat)
    requires i < |insts| && Carries(insts, spawn, i) && First(insts, spawn, i) && Survives(insts, cap, i)
    ensures InstanceActions.Owner(Cut(insts, cap), insts[i].parentSpawn).Some?
  {
    NoOrphans(insts, cap, spawn, i);
    var left := Truncated(insts, cap, |insts|);
    var a, b :| 0 <= a < |left| && 0 <= b < |left[a].requests| && left[a].requests[b].id == insts[i].parentSpawn;
    assert AsTree(left)[a].requests[b] == insts[i].parentSpawn;
  }

  // ---- How many survive ----

  function Survivors(insts: seq<Instance>, cap: int, n: nat, m: nat): set<Ref>
  {
    set x | x in AllRefs(insts) && |Earlier(insts, x)| < cap && (x.inst < n || (x.inst == n && x.req < m))
  }

  lemma {:induction false} RowSurvivorCount(insts: seq<Instance>, cap: int, i: nat, m: nat)
    requires i < |insts| && m <= |insts[i].requests|
    ensures |Survivors(insts, cap, i, m)| == |Survivors(insts, cap, i, 0)| + |KeptRequests(insts, cap, i, m)|
  {
    if m > 0 {
      hide Survivors, Kept, RefAt;
      RowSurvivorCount(insts, cap, i, m - 1);
      OneMoreSurvivor(insts, cap, i, m - 1);
    }
  }

  lemma OneMoreSurvivor(insts: seq<Instance>, cap: int, i: nat, j: nat)
    requires i < |insts| && j < |insts[i].requests|
    ensures |Survivors(insts, cap, i, j + 1)| == |Survivors(insts, cap, i, j)| + (if Kept(insts, cap, i, j) then 1 else 0)
  {
    hide Earlier, RefsTo;
    RefsToListsAll(insts, |insts|);
    var r := RefAt(insts, i, j);
    assert r in AllRefs(insts);
    forall x | x in AllRefs(insts) && x.inst == i && x.req == j ensures x == r {
      assert IsRef(insts, x);
    }
    assert r !in Survivors(insts, cap, i, j);
    assert Survivors(insts, cap, i, j + 1) == Survivors(insts, cap, i, j) + (if Kept(insts, cap, i, j) then {r} else {});
  }

  lemma {:induction false} SurvivorCount(insts: seq<Instance>, cap: int, n: nat)
    requires n <= |insts|
    ensures Count(Truncated(insts, cap, n), |Truncated(insts, cap, n)|) == |Survivors(insts, cap, n, 0)|
  {
    hide Survivors, Earlier;
    NobodyFirst(insts, cap);
    if n > 0 {
      SurvivorCount(insts, cap, n - 1);
      WholeRow(insts, cap, n - 1);
      var m := |insts[n - 1].requests|;
      RowSurvivorCount(insts, cap, n - 1, m);
      var before, reqs := Truncated(insts, cap, n - 1), KeptRequests(insts, cap, n - 1, m);
      if reqs != [] {
        var inst := insts[n - 1].(requests := reqs);
        CountAppend(before, inst, |before|);
        assert (before + [inst])[|before|] == inst;
      } else {
        assert before + [] == before;
      }
    }
  }

  lemma NobodyFirst(insts: seq<Instance>, cap: int)
    ensures Survivors(insts, cap, 0, 0) == {}
  {
  }

  lemma WholeRow(insts: seq<Instance>, cap: int, i: nat)
    requires i < |insts|
    ensures Survivors(insts, cap, i + 1, 0) == Survivors(insts, cap, i, |insts[i].requests|)
  {
    RefsToListsAll(insts, |insts|);
  }

  lemma {:induction false} CountAppend(insts: seq<Instance>, inst: Instance, n: nat)
    requires n <= |insts|
    ensures Count(insts + [inst], n) == Count(insts, n)
  {
    if n > 0 { CountAppend(insts, inst, n - 1); }
  }

  /** Exactly `cap` requests survive. */
  lemma ExactlyCapSurvive(insts: seq<Instance>, cap: nat)
    requires cap <= Count(insts, |insts|)
    ensures var t := Truncated(insts, cap, |insts|); Count(t, |t|) == cap
  {
    SurvivorCount(insts, cap, |insts|);
    RefsToListsAll(insts, |insts|);
    var refs := RefsTo(insts, |insts|);
    SortRefsSorts(insts, refs);
    var sorted := SortRefs(refs);
    SurvivorsAreTheFirst(insts, sorted, cap);
    ElementsSize(sorted, cap);
  }

  lemma SurvivorsAreTheFirst(insts: seq<Instance>, sorted: seq<Ref>, cap: nat)
    requires StrictlySorted(sorted) && cap <= |sorted|
    requires forall x :: x in sorted <==> x in AllRefs(insts)
    ensures Survivors(insts, cap, |insts|, 0) == Elements(sorted[..cap])
  {
    RefsToListsAll(insts, |insts|);
    forall x ensures x in Survivors(insts, cap, |insts|, 0) <==> x in sorted[..cap] {
      if x in AllRefs(insts) {
        var k :| 0 <= k < |sorted| && sorted[k] == x;
        PositionIsRank(insts, sorted, k);
        if k < cap {
          assert sorted[..cap][k] == x;
        } else {
          NotAmong(sorted, k, cap);
        }
      }
    }
  }

  lemma NotAmong(sorted: seq<Ref>, k: nat, cap: nat)
    requires StrictlySorted(sorted) && cap <= k < |sorted|
    ensures sorted[k] !in sorted[..cap]
  {
    forall a | 0 <= a < cap ensures sorted[a] != sorted[k] {
      assert Less(sorted[a], sorted[k]);
    }
  }

  lemma {:induction false} NoneIsEmpty(insts: seq<Instance>, cap: int, n: nat)
    requires n <= |insts|
    ensures forall t | t in Truncated(insts, cap, n) :: t.requests != []
  {
    if n > 0 { NoneIsEmpty(insts, cap, n - 1); }
  }
}
