/** timeline.go, subRowPacker: a request takes the first sub-row whose last request has
    ended by its start, or else opens one. */
module SubRows {
  import opened Options
  import opened Sets

  /** When a sub-row is free: at a moment, or never while its request still runs. */
  datatype Free = At(ms: real) | Never

  predicate FreeBy(f: Free, start: real)
  {
    f.At? && f.ms <= start
  }

  /** The first sub-row free by `start`, or one past the last. */
  function FirstFree(free: seq<Free>, start: real): (u: nat)
    ensures u <= |free|
    ensures u < |free| ==> FreeBy(free[u], start)
    ensures forall i | 0 <= i < u :: !FreeBy(free[i], start)
  {
    if |free| == 0 || FreeBy(free[0], start) then 0 else 1 + FirstFree(free[1..], start)
  }

  function Placed(free: seq<Free>, start: real, end: Free): seq<Free>
  {
    var u := FirstFree(free, start);
    if u < |free| then free[u := end] else free + [end]
  }

  class SubRowPacker {
    var free: seq<Free>

    constructor ()
      ensures free == []
    {
      free := [];
    }

    method Place(start: real, end: Free) returns (u: nat)
      modifies this
      ensures u == FirstFree(old(free), start) && free == Placed(old(free), start, end)
      ensures u < |free| && free[u] == end
      ensures forall i | 0 <= i < |old(free)| && i != u :: free[i] == old(free)[i]
    {
      for i := 0 to |free|
        invariant free == old(free) && forall k | 0 <= k < i :: !FreeBy(free[k], start)
      {
        if FreeBy(free[i], start) {
          FirstFreeIs(free, start, i);
          free := free[i := end];
          return i;
        }
      }
      FirstFreeIs(free, start, |free|);
      free := free + [end];
      return |free| - 1;
    }

    method Release(u: int, end: Free)
      modifies this
      ensures free == if 0 <= u < |old(free)| then old(free)[u := end] else old(free)
    {
      if u >= 0 && u < |free| {
        free := free[u := end];
      }
    }
  }

  lemma {:induction false} FirstFreeIs(free: seq<Free>, start: real, u: nat)
    requires u <= |free| && forall i | 0 <= i < u :: !FreeBy(free[i], start)
    requires u < |free| ==> FreeBy(free[u], start)
    ensures FirstFree(free, start) == u
  {
    if u > 0 { FirstFreeIs(free[1..], start, u - 1); }
  }

  // ---- A whole timeline ----

  /** A finished request: the row group it belongs to, its start and its duration. */
  datatype Request = Request(group: nat, start: real, duration: real)

  function End(q: Request): real { q.start + q.duration }

  predicate Running(q: Request, t: real)
  {
    q.start <= t < End(q)
  }

  predicate Sorted(reqs: seq<Request>)
  {
    forall i, j | 0 <= i < j < |reqs| :: reqs[i].start <= reqs[j].start
  }

  /** The sub-row table of one group after a run: requests of other groups leave it alone. */
  function Rows(reqs: seq<Request>, g: nat): seq<Free>
  {
    if |reqs| == 0 then []
    else
      var before, q := Rows(reqs[..|reqs| - 1], g), reqs[|reqs| - 1];
      if q.group == g then Placed(before, q.start, At(End(q))) else before
  }

  /** The sub-row request i is given. */
  function SubRowOf(reqs: seq<Request>, i: nat): nat
    requires i < |reqs|
  {
    FirstFree(Rows(reqs[..i], reqs[i].group), reqs[i].start)
  }

  /** One packer per group, created on first sight, as buildTimelineArm keeps them. */
  method PackTimeline(reqs: seq<Request>) returns (subs: seq<nat>)
    ensures |subs| == |reqs| && forall i | 0 <= i < |reqs| :: subs[i] == SubRowOf(reqs, i)
  {
    subs := [];
    var packers: map<nat, SubRowPacker> := map[];
    for i := 0 to |reqs|
      invariant |subs| == i && forall k | 0 <= k < i :: subs[k] == SubRowOf(reqs, k)
      invariant forall g | g in packers :: fresh(packers[g]) && packers[g].free == Rows(reqs[..i], g)
      invariant forall g, h | g in packers && h in packers && g != h :: packers[g] != packers[h]
      invariant forall g | g !in packers :: Rows(reqs[..i], g) == []
    {
      var q := reqs[i];
      assert reqs[..i + 1][..i] == reqs[..i] && reqs[..i + 1][i] == q;
      if q.group !in packers {
        var p := new SubRowPacker();
        packers := packers[q.group := p];
      }
      var u := packers[q.group].Place(q.start, At(End(q)));
      subs := subs + [u];
    }
  }

  // ---- Nothing overlaps in a sub-row ----

  /** Row u of group g is free from the end of the last request placed in it, and every
      request placed in it has ended by then. */
  ghost predicate RowHolds(reqs: seq<Request>, g: nat, u: nat, f: Free)
  {
    && f.At?
    && EndsIn(reqs, g, u, f.ms)
    && (exists i :: 0 <= i < |reqs| && reqs[i].group == g && SubRowOf(reqs, i) == u && End(reqs[i]) == f.ms)
  }

  ghost predicate TableOk(reqs: seq<Request>, g: nat)
  {
    && (forall u | 0 <= u < |Rows(reqs, g)| :: RowHolds(reqs, g, u, Rows(reqs, g)[u]))
    && (forall i | 0 <= i < |reqs| && reqs[i].group == g :: SubRowOf(reqs, i) < |Rows(reqs, g)|)
  }

  lemma SubRowInPrefix(reqs: seq<Request>, n: nat, i: nat)
    requires i < n <= |reqs|
    ensures SubRowOf(reqs[..n], i) == SubRowOf(reqs, i)
  {
    assert reqs[..n][..i] == reqs[..i];
  }

  /** Placing one more request: its row ends with it, the others are as they were. */
  lemma RowAfterPlacing(reqs: seq<Request>, g: nat, u: nat)
    requires |reqs| > 0 && Sorted(reqs) && reqs[|reqs| - 1].duration >= 0.0
    requires TableOk(reqs[..|reqs| - 1], g) && u < |Rows(reqs, g)|
    ensures RowHolds(reqs, g, u, Rows(reqs, g)[u])
  {
    var n := |reqs| - 1;
    var before, q := reqs[..n], reqs[n];
    assert reqs == before + [q];
    if q.group == g && u == FirstFree(Rows(before, g), q.start) {
      OwnRow(before, q, g, u);
    } else {
      OtherRow(before, q, g, u);
    }
  }

  ghost predicate EndsIn(reqs: seq<Request>, g: nat, u: nat, ms: real)
  {
    forall i | 0 <= i < |reqs| && reqs[i].group == g && SubRowOf(reqs, i) == u :: End(reqs[i]) <= ms
  }

  lemma EndsInExtension(before: seq<Request>, q: Request, g: nat, u: nat, ms: real)
    requires EndsIn(before, g, u, ms)
    requires q.group == g && u == FirstFree(Rows(before, g), q.start) ==> End(q) <= ms
    ensures EndsIn(before + [q], g, u, ms)
  {
    var reqs := before + [q];
    forall i | 0 <= i < |reqs| && reqs[i].group == g && SubRowOf(reqs, i) == u
      ensures End(reqs[i]) <= ms
    {
      assert reqs[..|before|] == before;
      if i < |before| { SubRowInPrefix(reqs, |before|, i); }
    }
  }

  lemma OwnRow(before: seq<Request>, q: Request, g: nat, u: nat)
    requires q.group == g && q.duration >= 0.0 && TableOk(before, g) && u == FirstFree(Rows(before, g), q.start)
    ensures u < |Rows(before + [q], g)| && RowHolds(before + [q], g, u, Rows(before + [q], g)[u])
  {
    var reqs := before + [q];
    assert reqs[..|before|] == before;
    if u < |Rows(before, g)| { assert RowHolds(before, g, u, Rows(before, g)[u]); }
    assert EndsIn(before, g, u, End(q));
    EndsInExtension(before, q, g, u, End(q));
    assert SubRowOf(reqs, |before|) == u && End(reqs[|before|]) == End(q);
  }

  lemma OtherRow(before: seq<Request>, q: Request, g: nat, u: nat)
    requires TableOk(before, g) && u < |Rows(before + [q], g)|
    requires q.group != g || u != FirstFree(Rows(before, g), q.start)
    ensures RowHolds(before + [q], g, u, Rows(before + [q], g)[u])
  {
    var reqs := before + [q];
    assert reqs[..|before|] == before;
    assert Rows(reqs, g)[u] == Rows(before, g)[u];
    var k := LastInRow(before, g, u);
    EndsInExtension(before, q, g, u, End(before[k]));
    SubRowInPrefix(reqs, |before|, k);
    assert reqs[k].group == g && SubRowOf(reqs, k) == u;
  }

  lemma LastInRow(reqs: seq<Request>, g: nat, u: nat) returns (k: nat)
    requires TableOk(reqs, g) && u < |Rows(reqs, g)|
    ensures k < |reqs| && reqs[k].group == g && SubRowOf(reqs, k) == u
    ensures Rows(reqs, g)[u] == At(End(reqs[k]))
    ensures forall i | 0 <= i < |reqs| && reqs[i].group == g && SubRowOf(reqs, i) == u :: End(reqs[i]) <= End(reqs[k])
  {
    assert RowHolds(reqs, g, u, Rows(reqs, g)[u]);
    k :| 0 <= k < |reqs| && reqs[k].group == g && SubRowOf(reqs, k) == u && End(reqs[k]) == Rows(reqs, g)[u].ms;
  }

  lemma {:induction false} TableStaysOk(reqs: seq<Request>, g: nat)
    requires Sorted(reqs) && forall i | 0 <= i < |reqs| :: reqs[i].duration >= 0.0
    ensures TableOk(reqs, g)
  {
    if |reqs| > 0 {
      var n := |reqs| - 1;
      TableStaysOk(reqs[..n], g);
      forall u | 0 <= u < |Rows(reqs, g)| ensures RowHolds(reqs, g, u, Rows(reqs, g)[u]) {
        RowAfterPlacing(reqs, g, u);
      }
      forall i | 0 <= i < |reqs| && reqs[i].group == g ensures SubRowOf(reqs, i) < |Rows(reqs, g)| {
        if i < n { SubRowInPrefix(reqs, n, i); }
      }
    }
  }

  /** Two requests of one sub-row never overlap: the later one starts after the earlier ends. */
  lemma NoOverlapInASubRow(reqs: seq<Request>, i: nat, j: nat)
    requires Sorted(reqs) && forall k | 0 <= k < |reqs| :: reqs[k].duration >= 0.0
    requires i < j < |reqs| && reqs[i].group == reqs[j].group && SubRowOf(reqs, i) == SubRowOf(reqs, j)
    ensures End(reqs[i]) <= reqs[j].start
  {
    var before, g := reqs[..j], reqs[j].group;
    TableStaysOk(before, g);
    SubRowInPrefix(reqs, j, i);
    assert before[i] == reqs[i];
    var u := SubRowOf(reqs, j);
    assert RowHolds(before, g, u, Rows(before, g)[u]);
  }

  // ---- As few sub-rows as possible ----

  /** The group's requests running at t. */
  function RunningAt(reqs: seq<Request>, g: nat, t: real): set<int>
  {
    set i | 0 <= i < |reqs| && reqs[i].group == g && Running(reqs[i], t)
  }

  /** At no moment does a group run more requests than it has sub-rows. */
  lemma NeverMoreThanRows(reqs: seq<Request>, g: nat, t: real)
    requires Sorted(reqs) && forall i | 0 <= i < |reqs| :: reqs[i].duration >= 0.0
    ensures |RunningAt(reqs, g, t)| <= |Rows(reqs, g)|
  {
    TableStaysOk(reqs, g);
    var s := RunningAt(reqs, g, t);
    forall i, j | i in s && j in s && i < j ensures SubRowOf(reqs, i) != SubRowOf(reqs, j) {
      if SubRowOf(reqs, i) == SubRowOf(reqs, j) { NoOverlapInASubRow(reqs, i, j); }
    }
    InjectiveImage(reqs, s, |Rows(reqs, g)|);
  }

  lemma InjectiveImage(reqs: seq<Request>, s: set<int>, n: nat)
    requires forall i | i in s :: 0 <= i < |reqs| && SubRowOf(reqs, i) < n
    requires forall i, j | i in s && j in s && i < j :: SubRowOf(reqs, i) != SubRowOf(reqs, j)
    ensures |s| <= n
  {
    SameSize(reqs, s);
    SubsetSize(Image(reqs, s), Range(n));
  }

  /** The sub-rows a set of requests occupies. */
  function Image(reqs: seq<Request>, s: set<int>): set<int>
    requires forall i | i in s :: 0 <= i < |reqs|
  {
    set i | i in s :: SubRowOf(reqs, i)
  }

  lemma {:induction false} SameSize(reqs: seq<Request>, s: set<int>)
    requires forall i | i in s :: 0 <= i < |reqs|
    requires forall i, j | i in s && j in s && i < j :: SubRowOf(reqs, i) != SubRowOf(reqs, j)
    ensures |Image(reqs, s)| == |s|
  {
    if s == {} {
      assert Image(reqs, s) == {};
    } else {
      var x := Member(s);
      SameSize(reqs, s - {x});
      assert Image(reqs, s) == Image(reqs, s - {x}) + {SubRowOf(reqs, x)};
      assert SubRowOf(reqs, x) !in Image(reqs, s - {x});
    }
  }

  /** What the group is already running when request i starts. */
  function Load(reqs: seq<Request>, g: nat, i: nat): nat
    requires i < |reqs|
  {
    |RunningAt(reqs[..i], g, reqs[i].start)|
  }

  /** A request and what runs when it starts all have sub-rows of their own. */
  lemma RowsCoverTheLoad(reqs: seq<Request>, g: nat, i: nat)
    requires Sorted(reqs) && forall k | 0 <= k < |reqs| :: reqs[k].duration >= 0.0
    requires i < |reqs| && reqs[i].group == g
    ensures Load(reqs, g, i) + 1 <= |Rows(reqs, g)|
  {
    TableStaysOk(reqs, g);
    var running := RunningAt(reqs[..i], g, reqs[i].start);
    var s := running + {i};
    assert forall k | k in running :: k in s && 0 <= k < i && reqs[..i][k] == reqs[k];
    forall j, k | j in s && k in s && j < k ensures SubRowOf(reqs, j) != SubRowOf(reqs, k) {
      if SubRowOf(reqs, j) == SubRowOf(reqs, k) { NoOverlapInASubRow(reqs, j, k); }
    }
    InjectiveImage(reqs, s, |Rows(reqs, g)|);
  }

  /** And some request starts with every other sub-row busy. */
  lemma {:induction false} SomeLoadFillsTheRows(reqs: seq<Request>, g: nat) returns (i: nat)
    requires Sorted(reqs) && forall k | 0 <= k < |reqs| :: reqs[k].duration >= 0.0
    requires Rows(reqs, g) != []
    ensures i < |reqs| && reqs[i].group == g && Load(reqs, g, i) + 1 == |Rows(reqs, g)|
  {
    var n := |reqs| - 1;
    var before, q := reqs[..n], reqs[n];
    var rows := Rows(before, g);
    if q.group == g && FirstFree(rows, q.start) == |rows| {
      i := n;
      EveryRowIsBusy(before, g, q.start);
      RowsCoverTheLoad(reqs, g, i);
    } else {
      i := SomeLoadFillsTheRows(before, g);
      assert before[..i] == reqs[..i];
    }
  }

  /** The sub-rows of a group number exactly the largest load any of its requests meets,
      plus one for itself. */
  lemma RowsAreThePeakLoad(reqs: seq<Request>, g: nat)
    requires Sorted(reqs) && forall k | 0 <= k < |reqs| :: reqs[k].duration >= 0.0
    ensures forall i: nat | i < |reqs| && reqs[i].group == g :: Load(reqs, g, i) + 1 <= |Rows(reqs, g)|
    ensures Rows(reqs, g) != [] ==> exists i: nat :: i < |reqs| && reqs[i].group == g && Load(reqs, g, i) + 1 == |Rows(reqs, g)|
  {
    forall i: nat | i < |reqs| && reqs[i].group == g ensures Load(reqs, g, i) + 1 <= |Rows(reqs, g)| {
      RowsCoverTheLoad(reqs, g, i);
    }
    if Rows(reqs, g) != [] {
      var i := SomeLoadFillsTheRows(reqs, g);
    }
  }

  /** A request that takes time runs at its own start, beside its load. */
  lemma LoadRuns(reqs: seq<Request>, g: nat, i: nat)
    requires i < |reqs| && reqs[i].group == g && reqs[i].duration > 0.0
    ensures |RunningAt(reqs, g, reqs[i].start)| >= Load(reqs, g, i) + 1
  {
    var t := reqs[i].start;
    var running := RunningAt(reqs[..i], g, t);
    assert forall k | k in running :: 0 <= k < i && reqs[..i][k] == reqs[k];
    assert |running + {i}| == |running| + 1;
    SubsetSize(running + {i}, RunningAt(reqs, g, t));
  }

  /** A request of no length that no moment's running requests outnumber the load of. */
  ghost predicate OpensAnIdleRow(reqs: seq<Request>, g: nat, i: nat)
    requires i < |reqs|
  {
    reqs[i].group == g && reqs[i].duration == 0.0 && forall t :: |RunningAt(reqs, g, t)| <= Load(reqs, g, i)
  }

  /** The sub-rows outnumber the running requests at all times exactly when such a request
      is there; otherwise some moment fills them. */
  lemma IdleRowsIff(reqs: seq<Request>, g: nat)
    requires Sorted(reqs) && forall k | 0 <= k < |reqs| :: reqs[k].duration >= 0.0
    ensures (forall t :: |RunningAt(reqs, g, t)| < |Rows(reqs, g)|)
       <==> exists i: nat :: i < |reqs| && OpensAnIdleRow(reqs, g, i)
    ensures forall t :: |RunningAt(reqs, g, t)| <= |Rows(reqs, g)|
  {
    forall t ensures |RunningAt(reqs, g, t)| <= |Rows(reqs, g)| {
      NeverMoreThanRows(reqs, g, t);
    }
    if i: nat :| i < |reqs| && OpensAnIdleRow(reqs, g, i) {
      RowsCoverTheLoad(reqs, g, i);
    }
    if forall t :: |RunningAt(reqs, g, t)| < |Rows(reqs, g)| {
      assert |RunningAt(reqs, g, 0.0)| < |Rows(reqs, g)|;
      var i := SomeLoadFillsTheRows(reqs, g);
      if reqs[i].duration > 0.0 { LoadRuns(reqs, g, i); }
      assert OpensAnIdleRow(reqs, g, i);
    }
  }

  /** With positive durations some moment runs exactly as many as there are sub-rows. */
  lemma SomeMomentFillsTheRows(reqs: seq<Request>, g: nat)
    requires Sorted(reqs) && forall k | 0 <= k < |reqs| :: reqs[k].duration > 0.0
    ensures exists t :: |RunningAt(reqs, g, t)| == |Rows(reqs, g)|
  {
    IdleRowsIff(reqs, g);
  }

  /** When no row is free, each holds a request that is running. */
  lemma EveryRowIsBusy(reqs: seq<Request>, g: nat, t: real)
    requires Sorted(reqs) && forall i | 0 <= i < |reqs| :: reqs[i].duration >= 0.0 && reqs[i].start <= t
    requires FirstFree(Rows(reqs, g), t) == |Rows(reqs, g)|
    ensures |RunningAt(reqs, g, t)| >= |Rows(reqs, g)|
  {
    TableStaysOk(reqs, g);
    BusyRows(reqs, g, t, |Rows(reqs, g)|);
  }

  /** The running requests in the first n rows. */
  function BusyBelow(reqs: seq<Request>, g: nat, t: real, n: nat): set<int>
  {
    set i | i in RunningAt(reqs, g, t) && SubRowOf(reqs, i) < n
  }

  lemma {:induction false} BusyRows(reqs: seq<Request>, g: nat, t: real, n: nat)
    requires TableOk(reqs, g) && n <= |Rows(reqs, g)|
    requires forall i | 0 <= i < |reqs| :: reqs[i].start <= t
    requires forall u | 0 <= u < |Rows(reqs, g)| :: !FreeBy(Rows(reqs, g)[u], t)
    ensures |BusyBelow(reqs, g, t, n)| >= n
    ensures |RunningAt(reqs, g, t)| >= n
  {
    if n > 0 {
      BusyRows(reqs, g, t, n - 1);
      var k := LastInRow(reqs, g, n - 1);
      assert !FreeBy(Rows(reqs, g)[n - 1], t);
      OneMoreBusy(reqs, g, t, n, k);
    }
    SubsetSize(BusyBelow(reqs, g, t, n), RunningAt(reqs, g, t));
  }

  lemma OneMoreBusy(reqs: seq<Request>, g: nat, t: real, n: nat, k: int)
    requires n > 0 && k in RunningAt(reqs, g, t) && SubRowOf(reqs, k) == n - 1
    ensures |BusyBelow(reqs, g, t, n)| >= |BusyBelow(reqs, g, t, n - 1)| + 1
  {
    SubsetSize(BusyBelow(reqs, g, t, n - 1) + {k}, BusyBelow(reqs, g, t, n));
  }

  /** Without positive durations the sub-rows can outnumber the running requests: a
      request of some length and one of none, starting together. */
  lemma InstantRequestsOpenIdleRows(a: Request, b: Request, t: real)
    requires a.group == b.group && a.start == b.start && a.duration > 0.0 && b.duration == 0.0
    ensures Sorted([a, b]) && |Rows([a, b], a.group)| == 2 && |RunningAt([a, b], a.group, t)| <= 1
  {
    TwoRows(a, b);
    assert !Running(b, t);
    SubsetSize(RunningAt([a, b], a.group, t), {0});
  }

  lemma RowsStep(before: seq<Request>, q: Request)
    ensures Rows(before + [q], q.group) == Placed(Rows(before, q.group), q.start, At(End(q)))
  {
    assert (before + [q])[..|before|] == before;
  }

  lemma TwoRows(a: Request, b: Request)
    requires a.group == b.group && a.start == b.start && a.duration > 0.0
    ensures |Rows([a, b], a.group)| == 2
  {
    RowsStep([], a);
    RowsStep([a], b);
    FirstFreeIs([], a.start, 0);
    assert [] + [a] == [a] && [a] + [b] == [a, b];
    assert Rows([a], a.group) == [At(End(a))];
    FirstFreeIs([At(End(a))], b.start, 1);
  }
}
