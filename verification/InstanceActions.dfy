/** replay_router.go: how each instance of a session is launched, decided up front from
    parent links that may dangle, form cycles or name role-excluded instances. */
module InstanceActions {
  import opened Options
  import opened Sets

  datatype Action = Wait | Fire | Drop

  /** An agent instance: its role, the request that spawned it (0 = none) and the ids of
      its own requests (0 = none). */
  datatype Instance = Instance(role: string, parentSpawn: nat, requests: seq<nat>)

  type Session = seq<Instance>
  type RoleFilter = string -> bool

  /** The instance owning a request id among the first n; the last one wins. */
  function OwnerAmong(sess: Session, id: nat, n: nat): (owner: Option<nat>)
    requires n <= |sess|
    ensures owner.Some? ==> owner.value < n && id in sess[owner.value].requests
    ensures owner.None? ==> forall i | 0 <= i < n :: id !in sess[i].requests
  {
    if n == 0 then None
    else if id in sess[n - 1].requests then Some(n - 1)
    else OwnerAmong(sess, id, n - 1)
  }

  function Owner(sess: Session, id: nat): Option<nat>
  {
    OwnerAmong(sess, id, |sess|)
  }

  /** Of several carriers of an id the last one owns it. */
  lemma {:induction false} OwnerIsTheLast(sess: Session, id: nat, n: nat)
    requires n <= |sess|
    ensures var o := OwnerAmong(sess, id, n);
            o.Some? ==> forall i | o.value < i < n :: id !in sess[i].requests
  {
    if n > 0 && id !in sess[n - 1].requests { OwnerIsTheLast(sess, id, n - 1); }
  }

  // ---- The four kinds of instance ----

  predicate Included(sess: Session, inc: RoleFilter, i: nat)
    requires i < |sess|
  {
    inc(sess[i].role)
  }

  /** Runs at once: it has no parent, or nobody owns the request it names. */
  predicate RootLike(sess: Session, inc: RoleFilter, i: nat)
    requires i < |sess|
  {
    Included(sess, inc, i) && (sess[i].parentSpawn == 0 || Owner(sess, sess[i].parentSpawn).None?)
  }

  /** Would run after its parent, which is included too. */
  predicate Candidate(sess: Session, inc: RoleFilter, i: nat)
    requires i < |sess|
  {
    && Included(sess, inc, i) && sess[i].parentSpawn != 0
    && Owner(sess, sess[i].parentSpawn).Some?
    && Included(sess, inc, Owner(sess, sess[i].parentSpawn).value)
  }

  /** Does not run: it, or its parent, is role-excluded. */
  predicate Dropped(sess: Session, inc: RoleFilter, i: nat)
    requires i < |sess|
  {
    !RootLike(sess, inc, i) && !Candidate(sess, inc, i)
  }

  /** n steps up the owner links, stopping at the first instance that would not wait. */
  function Follow(sess: Session, inc: RoleFilter, i: nat, n: nat): (j: nat)
    requires i < |sess|
    ensures j < |sess|
    decreases n
  {
    if n == 0 || !Candidate(sess, inc, i) then i
    else Follow(sess, inc, Owner(sess, sess[i].parentSpawn).value, n - 1)
  }

  ghost predicate Anchored(sess: Session, inc: RoleFilter, i: nat)
    requires i < |sess|
  {
    exists n: nat :: RootLike(sess, inc, Follow(sess, inc, i, n))
  }

  /** A would-be waiter whose chain never reaches a root. */
  ghost predicate Promoted(sess: Session, inc: RoleFilter, i: nat)
    requires i < |sess|
  {
    Candidate(sess, inc, i) && !Anchored(sess, inc, i)
  }

  ghost function ActionOf(sess: Session, inc: RoleFilter, i: nat): Action
    requires i < |sess|
  {
    if Dropped(sess, inc, i) then Drop
    else if Candidate(sess, inc, i) && Anchored(sess, inc, i) then Wait
    else Fire
  }

  /** What is decided without the rest of the chain: excluded instances and children of
      excluded ones are dropped, those with no parent link or a dangling one fire, and all
      others run. */
  lemma ActionsByParent(sess: Session, inc: RoleFilter, i: nat)
    requires i < |sess|
    ensures !inc(sess[i].role) ==> ActionOf(sess, inc, i) == Drop
    ensures inc(sess[i].role) && (sess[i].parentSpawn == 0 || forall k | 0 <= k < |sess| :: sess[i].parentSpawn !in sess[k].requests) ==>
              ActionOf(sess, inc, i) == Fire
    ensures forall o: nat | o < |sess| && sess[i].parentSpawn != 0 && inc(sess[i].role) && sess[i].parentSpawn in sess[o].requests
                       && (forall k | o < k < |sess| :: sess[i].parentSpawn !in sess[k].requests) ::
              ActionOf(sess, inc, i) == Drop <==> !inc(sess[o].role)
  {
    var p := sess[i].parentSpawn;
    OwnerIsTheLast(sess, p, |sess|);
    assert Owner(sess, p).Some? <==> exists k :: 0 <= k < |sess| && p in sess[k].requests;
  }

  ghost function PromotedSet(sess: Session, inc: RoleFilter, n: nat): set<nat>
    requires n <= |sess|
  {
    set i: nat | i < n && Promoted(sess, inc, i)
  }

  // ---- The fixpoint ----

  lemma AnchoredThroughOwner(sess: Session, inc: RoleFilter, i: nat)
    requires i < |sess| && Candidate(sess, inc, i)
    ensures Anchored(sess, inc, i) <==> Anchored(sess, inc, Owner(sess, sess[i].parentSpawn).value)
  {
    var o := Owner(sess, sess[i].parentSpawn).value;
    if Anchored(sess, inc, i) {
      var n: nat :| RootLike(sess, inc, Follow(sess, inc, i, n));
      assert RootLike(sess, inc, Follow(sess, inc, o, n - 1));
    }
    if Anchored(sess, inc, o) {
      var n: nat :| RootLike(sess, inc, Follow(sess, inc, o, n));
      assert Follow(sess, inc, i, n + 1) == Follow(sess, inc, o, n);
    }
  }

  /** A marking closed under the owner step that holds the roots holds everything anchored. */
  lemma {:induction false} ClosedMarkingIsComplete(sess: Session, inc: RoleFilter, mark: seq<bool>, i: nat, n: nat)
    requires |mark| == |sess| && i < |sess|
    requires forall k | 0 <= k < |sess| && RootLike(sess, inc, k) :: mark[k]
    requires forall k | 0 <= k < |sess| && Candidate(sess, inc, k) && mark[Owner(sess, sess[k].parentSpawn).value] :: mark[k]
    requires RootLike(sess, inc, Follow(sess, inc, i, n))
    ensures mark[i]
    decreases n
  {
    if n > 0 && Candidate(sess, inc, i) {
      ClosedMarkingIsComplete(sess, inc, mark, Owner(sess, sess[i].parentSpawn).value, n - 1);
    }
  }

  function Marked(mark: seq<bool>): set<int>
  {
    set i | 0 <= i < |mark| && mark[i]
  }

  lemma MarkedBound(mark: seq<bool>)
    ensures |Marked(mark)| <= |mark|
  {
    SubsetSize(Marked(mark), Range(|mark|));
  }

  ghost predicate IsOwnerMap(sess: Session, owner: map<nat, nat>)
  {
    && (forall id | id in owner :: id != 0 && Owner(sess, id) == Some(owner[id]))
    && (forall id | id != 0 && Owner(sess, id).Some? :: id in owner)
  }

  method OwnerMap(sess: Session) returns (owner: map<nat, nat>)
    ensures IsOwnerMap(sess, owner)
  {
    owner := map[];
    for i := 0 to |sess|
      invariant forall id | id in owner :: id != 0
      invariant forall id | id != 0 :: id in owner <==> OwnerAmong(sess, id, i).Some?
      invariant forall id | id in owner :: OwnerAmong(sess, id, i) == Some(owner[id])
    {
      owner := OwnAll(sess[i].requests, i, owner);
    }
  }

  /** Instance i takes every id it carries, whoever had it. */
  method OwnAll(reqs: seq<nat>, i: nat, before: map<nat, nat>) returns (owner: map<nat, nat>)
    ensures forall id :: id in owner <==> id in before || (id != 0 && id in reqs)
    ensures forall id | id in owner :: owner[id] == if id != 0 && id in reqs then i else before[id]
  {
    owner := before;
    for j := 0 to |reqs|
      invariant forall id :: id in owner <==> id in before || (id != 0 && id in reqs[..j])
      invariant forall id | id in owner :: owner[id] == if id != 0 && id in reqs[..j] then i else before[id]
    {
      assert reqs[..j + 1] == reqs[..j] + [reqs[j]];
      if reqs[j] != 0 {
        owner := owner[reqs[j] := i];
      }
    }
    assert reqs[..|reqs|] == reqs;
  }

  /** The action before anyone knows which chains reach a root. */
  function Provisional(sess: Session, inc: RoleFilter, i: nat): Action
    requires i < |sess|
  {
    if Dropped(sess, inc, i) then Drop else if RootLike(sess, inc, i) then Fire else Wait
  }

  method ResolveInstanceActions(sess: Session, inc: RoleFilter) returns (actions: array<Action>, promoted: nat)
    ensures fresh(actions) && actions.Length == |sess|
    ensures forall i | 0 <= i < |sess| :: actions[i] == ActionOf(sess, inc, i)
    ensures promoted == |PromotedSet(sess, inc, |sess|)|
  {
    var owner := OwnerMap(sess);
    actions := new Action[|sess|](_ => Wait);
    var anchored := new bool[|sess|](_ => false);
    Classify(sess, inc, owner, actions, anchored);
    Settle(sess, inc, owner, actions, anchored);

    promoted := PromoteUnanchored(sess, inc, actions, anchored);
  }

  /** Final pass: a waiter that never anchored fires after all. */
  method PromoteUnanchored(sess: Session, inc: RoleFilter, actions: array<Action>, anchored: array<bool>)
    returns (promoted: nat)
    requires actions.Length == |sess| == anchored.Length
    requires forall k | 0 <= k < |sess| :: actions[k] == Provisional(sess, inc, k)
    requires forall k | 0 <= k < |sess| :: anchored[k] <==> Anchored(sess, inc, k)
    modifies actions
    ensures forall k | 0 <= k < |sess| :: actions[k] == ActionOf(sess, inc, k)
    ensures promoted == |PromotedSet(sess, inc, |sess|)|
  {
    promoted := 0;
    for i := 0 to |sess|
      invariant forall k | 0 <= k < i :: actions[k] == ActionOf(sess, inc, k)
      invariant forall k | i <= k < |sess| :: actions[k] == Provisional(sess, inc, k)
      invariant promoted == |PromotedSet(sess, inc, i)|
    {
      OneMorePromoted(sess, inc, i);
      if actions[i] == Wait && !anchored[i] {
        actions[i] := Fire;
        promoted := promoted + 1;
      }
    }
  }

  /** First pass: what can be said of each instance on its own. */
  method Classify(sess: Session, inc: RoleFilter, owner: map<nat, nat>, actions: array<Action>, anchored: array<bool>)
    requires actions.Length == |sess| == anchored.Length
    requires IsOwnerMap(sess, owner) && forall k | 0 <= k < |sess| :: !anchored[k]
    modifies actions, anchored
    ensures forall k | 0 <= k < |sess| :: anchored[k] == RootLike(sess, inc, k)
    ensures forall k | 0 <= k < |sess| :: actions[k] == Provisional(sess, inc, k)
  {
    for i := 0 to |sess|
      invariant forall k | 0 <= k < i :: anchored[k] == RootLike(sess, inc, k)
      invariant forall k | i <= k < |sess| :: !anchored[k]
      invariant forall k | 0 <= k < i :: actions[k] == Provisional(sess, inc, k)
    {
      var p := sess[i].parentSpawn;
      if !inc(sess[i].role) {
        actions[i] := Drop;
      } else if p == 0 {
        actions[i], anchored[i] := Fire, true;
      } else if p !in owner {
        actions[i], anchored[i] := Fire, true;
      } else if !inc(sess[owner[p]].role) {
        actions[i] := Drop;
      } else {
        actions[i] := Wait;
      }
    }
  }

  /** The fixpoint: marks travel down the owner links until a pass changes nothing. */
  method Settle(sess: Session, inc: RoleFilter, owner: map<nat, nat>, actions: array<Action>, anchored: array<bool>)
    requires actions.Length == |sess| == anchored.Length && IsOwnerMap(sess, owner)
    requires forall k | 0 <= k < |sess| :: actions[k] == Provisional(sess, inc, k)
    requires forall k | 0 <= k < |sess| :: anchored[k] == RootLike(sess, inc, k)
    modifies anchored
    ensures forall k | 0 <= k < |sess| :: anchored[k] <==> Anchored(sess, inc, k)
  {
    hide Anchored, RootLike, Provisional;
    RootsAreAnchored(sess, inc);
    while true
      invariant forall k | 0 <= k < |sess| && RootLike(sess, inc, k) :: anchored[k]
      invariant forall k | 0 <= k < |sess| && anchored[k] :: Anchored(sess, inc, k)
      decreases |sess| - |Marked(anchored[..])|
    {
      ghost var mark := anchored[..];
      var changed := Sweep(sess, inc, owner, actions, anchored);
      MarkedBound(anchored[..]);
      if !changed {
        break;
      }
      GrownMarking(mark, anchored[..]);
    }
    SettledIsComplete(sess, inc, anchored[..]);
  }

  lemma RootsAreAnchored(sess: Session, inc: RoleFilter)
    ensures forall k | 0 <= k < |sess| && RootLike(sess, inc, k) :: Anchored(sess, inc, k)
  {
    forall k | 0 <= k < |sess| && RootLike(sess, inc, k) ensures Anchored(sess, inc, k) {
      assert Follow(sess, inc, k, 0) == k;
    }
  }

  lemma SettledIsComplete(sess: Session, inc: RoleFilter, mark: seq<bool>)
    requires |mark| == |sess|
    requires forall k | 0 <= k < |sess| && RootLike(sess, inc, k) :: mark[k]
    requires forall k | 0 <= k < |sess| && Candidate(sess, inc, k) && mark[Owner(sess, sess[k].parentSpawn).value] :: mark[k]
    ensures forall i | 0 <= i < |sess| && Anchored(sess, inc, i) :: mark[i]
  {
    forall i | 0 <= i < |sess| && Anchored(sess, inc, i) ensures mark[i] {
      var n: nat :| RootLike(sess, inc, Follow(sess, inc, i, n));
      ClosedMarkingIsComplete(sess, inc, mark, i, n);
    }
  }

  lemma OneMorePromoted(sess: Session, inc: RoleFilter, i: nat)
    requires i < |sess|
    ensures |PromotedSet(sess, inc, i + 1)| == |PromotedSet(sess, inc, i)| + (if Promoted(sess, inc, i) then 1 else 0)
  {
    assert PromotedSet(sess, inc, i + 1)
        == PromotedSet(sess, inc, i) + (if Promoted(sess, inc, i) then {i} else {});
  }

  lemma GrownMarking(a: seq<bool>, b: seq<bool>)
    requires |a| == |b| && a != b && forall k | 0 <= k < |a| && a[k] :: b[k]
    ensures |Marked(a)| < |Marked(b)|
  {
    var k :| 0 <= k < |a| && a[k] != b[k];
    assert k in Marked(b) && k !in Marked(a);
    SubsetSize(Marked(a), Marked(b));
  }

  /** One pass of the fixpoint, in place: later instances see earlier marks. */
  method Sweep(sess: Session, inc: RoleFilter, owner: map<nat, nat>, actions: array<Action>, anchored: array<bool>)
    returns (changed: bool)
    requires actions.Length == |sess| == anchored.Length
    requires IsOwnerMap(sess, owner)
    requires forall k | 0 <= k < |sess| :: actions[k] == Provisional(sess, inc, k)
    requires forall k | 0 <= k < |sess| && anchored[k] :: Anchored(sess, inc, k)
    modifies anchored
    ensures forall k | 0 <= k < |sess| && old(anchored[k]) :: anchored[k]
    ensures forall k | 0 <= k < |sess| && anchored[k] :: Anchored(sess, inc, k)
    ensures changed <==> anchored[..] != old(anchored[..])
    ensures !changed ==> forall k | 0 <= k < |sess| && Candidate(sess, inc, k)
                           && anchored[Owner(sess, sess[k].parentSpawn).value] :: anchored[k]
  {
    changed := false;
    for i := 0 to |sess|
      invariant forall k | 0 <= k < |sess| && old(anchored[k]) :: anchored[k]
      invariant forall k | 0 <= k < |sess| && anchored[k] :: Anchored(sess, inc, k)
      invariant !changed ==> anchored[..] == old(anchored[..])
      invariant changed ==> exists k :: 0 <= k < |sess| && anchored[k] && !old(anchored[k])
      invariant !changed ==> forall k | 0 <= k < i && Candidate(sess, inc, k)
                               && anchored[Owner(sess, sess[k].parentSpawn).value] :: anchored[k]
    {
      if actions[i] != Wait || anchored[i] {
        continue;
      }
      var o := owner[sess[i].parentSpawn];
      if anchored[o] {
        AnchoredThroughOwner(sess, inc, i);
        anchored[i] := true;
        changed := true;
      }
    }
  }

  // ---- What the result means for the run ----

  /** Steps from a waiter to the root it depends on. */
  ghost function Distance(sess: Session, inc: RoleFilter, i: nat): (d: nat)
    requires i < |sess| && Anchored(sess, inc, i)
    ensures RootLike(sess, inc, Follow(sess, inc, i, d))
    ensures forall n: nat | n < d :: !RootLike(sess, inc, Follow(sess, inc, i, n))
  {
    var n: nat :| RootLike(sess, inc, Follow(sess, inc, i, n));
    Least(sess, inc, i, n)
  }

  ghost function Least(sess: Session, inc: RoleFilter, i: nat, n: nat): (d: nat)
    requires i < |sess| && RootLike(sess, inc, Follow(sess, inc, i, n))
    ensures RootLike(sess, inc, Follow(sess, inc, i, d))
    ensures forall m: nat | m < d :: !RootLike(sess, inc, Follow(sess, inc, i, m))
    decreases n
  {
    if m: nat :| m < n && RootLike(sess, inc, Follow(sess, inc, i, m)) then Least(sess, inc, i, m) else n
  }

  /** Waiting is well founded: whoever an instance waits for runs, and is strictly
      closer to a root, so no two instances wait for each other. */
  lemma WaitGraphIsAcyclic(sess: Session, inc: RoleFilter, i: nat)
    requires i < |sess| && ActionOf(sess, inc, i) == Wait
    ensures var o := Owner(sess, sess[i].parentSpawn);
            && o.Some? && ActionOf(sess, inc, o.value) != Drop
            && !Promoted(sess, inc, o.value)
            && Anchored(sess, inc, o.value) && Distance(sess, inc, o.value) < Distance(sess, inc, i)
  {
    AnchoredThroughOwner(sess, inc, i);
    var o := Owner(sess, sess[i].parentSpawn).value;
    var d, e := Distance(sess, inc, i), Distance(sess, inc, o);
    assert d > 0;
    assert Follow(sess, inc, i, d) == Follow(sess, inc, o, d - 1);
    var n: nat :| RootLike(sess, inc, Follow(sess, inc, o, n));
  }

  /** Promotion means exactly: the chain of owners runs into a cycle, or into an
      instance that was dropped because its own parent is role-excluded. */
  lemma PromotedIffCycleOrDropped(sess: Session, inc: RoleFilter, i: nat)
    requires i < |sess| && Candidate(sess, inc, i)
    ensures Promoted(sess, inc, i) <==> HitsDropped(sess, inc, i) || HitsCycle(sess, inc, i)
  {
    if HitsDropped(sess, inc, i) {
      var n: nat :| Dropped(sess, inc, Follow(sess, inc, i, n));
      forall k: nat ensures !RootLike(sess, inc, Follow(sess, inc, i, k)) {
        StopsAt(sess, inc, i, n, k);
      }
    } else if HitsCycle(sess, inc, i) {
      var m: nat, n: nat :| OnCycle(sess, inc, i, m, n);
      forall k: nat ensures !RootLike(sess, inc, Follow(sess, inc, i, k)) {
        CycleGoesOn(sess, inc, i, m, n, k);
      }
    }
    if Promoted(sess, inc, i) && !HitsDropped(sess, inc, i) {
      forall n: nat ensures Candidate(sess, inc, Follow(sess, inc, i, n)) {
        assert !RootLike(sess, inc, Follow(sess, inc, i, n));
        assert !Dropped(sess, inc, Follow(sess, inc, i, n));
      }
      var m, n := Repeats(sess, inc, i, {}, 0);
      assert OnCycle(sess, inc, i, m, n);
    }
  }

  /** Promotion needs no cycle: an excluded instance drops its child, and that child's own
      child, waiting on someone who never runs, is promoted. */
  lemma PromotedWithoutCycle(inc: RoleFilter, out: string, role: string, a: nat, b: nat, c: nat)
    requires !inc(out) && inc(role) && a != 0 && b != 0 && a != b && b != c && a != c
    ensures var sess := [Instance(out, 0, [a]), Instance(role, a, [b]), Instance(role, b, [c])];
            Promoted(sess, inc, 2) && ActionOf(sess, inc, 2) == Fire && !HitsCycle(sess, inc, 2)
  {
    var sess := [Instance(out, 0, [a]), Instance(role, a, [b]), Instance(role, b, [c])];
    OnlyOwner(sess, a, 0);
    OnlyOwner(sess, b, 1);
    assert Dropped(sess, inc, 1) && Candidate(sess, inc, 2);
    assert Follow(sess, inc, 2, 1) == Follow(sess, inc, 1, 0) == 1;
    PromotedIffCycleOrDropped(sess, inc, 2);
    forall m: nat, n: nat ensures !OnCycle(sess, inc, 2, m, n) {
      assert m < n ==> n >= 1 && !Candidate(sess, inc, Follow(sess, inc, 2, 1));
    }
  }

  lemma OnlyOwner(sess: Session, id: nat, o: nat)
    requires o < |sess| && id in sess[o].requests && forall i | 0 <= i < |sess| && i != o :: id !in sess[i].requests
    ensures Owner(sess, id) == Some(o)
  {
  }

  ghost predicate HitsDropped(sess: Session, inc: RoleFilter, i: nat)
    requires i < |sess|
  {
    exists n: nat :: Dropped(sess, inc, Follow(sess, inc, i, n))
  }

  ghost predicate HitsCycle(sess: Session, inc: RoleFilter, i: nat)
    requires i < |sess|
  {
    exists m: nat, n: nat :: OnCycle(sess, inc, i, m, n)
  }

  /** The chain from i revisits an instance, every step being a wait. */
  ghost predicate OnCycle(sess: Session, inc: RoleFilter, i: nat, m: nat, n: nat)
    requires i < |sess|
  {
    && m < n && Follow(sess, inc, i, m) == Follow(sess, inc, i, n)
    && forall k: nat | k <= n :: Candidate(sess, inc, Follow(sess, inc, i, k))
  }

  lemma {:induction false} FollowAgain(sess: Session, inc: RoleFilter, i: nat, m: nat, n: nat)
    requires i < |sess|
    ensures Follow(sess, inc, i, m + n) == Follow(sess, inc, Follow(sess, inc, i, m), n)
    decreases m
  {
    if m > 0 && Candidate(sess, inc, i) {
      FollowAgain(sess, inc, Owner(sess, sess[i].parentSpawn).value, m - 1, n);
    }
  }

  lemma StopsAt(sess: Session, inc: RoleFilter, i: nat, n: nat, k: nat)
    requires i < |sess| && Dropped(sess, inc, Follow(sess, inc, i, n))
    ensures !RootLike(sess, inc, Follow(sess, inc, i, k))
  {
    if k >= n {
      FollowAgain(sess, inc, i, n, k - n);
    } else {
      FollowAgain(sess, inc, i, k, n - k);
    }
  }

  lemma {:induction false} CycleGoesOn(sess: Session, inc: RoleFilter, i: nat, m: nat, n: nat, k: nat)
    requires i < |sess| && OnCycle(sess, inc, i, m, n)
    ensures Candidate(sess, inc, Follow(sess, inc, i, k))
    decreases k
  {
    if k > n {
      FollowAgain(sess, inc, i, n, k - n);
      FollowAgain(sess, inc, i, m, k - n);
      CycleGoesOn(sess, inc, i, m, n, m + (k - n));
    }
  }

  lemma {:induction false} Repeats(sess: Session, inc: RoleFilter, i: nat, seen: set<int>, k: nat)
    returns (m: nat, n: nat)
    requires i < |sess|
    requires |seen| == k && forall x | x in seen :: VisitedBefore(sess, inc, i, x, k)
    ensures m < n && Follow(sess, inc, i, m) == Follow(sess, inc, i, n)
    decreases |sess| - k
  {
    SubsetSize(seen, Range(|sess|));
    var x := Follow(sess, inc, i, k);
    if x in seen {
      var j: nat :| j < k && Follow(sess, inc, i, j) == x;
      m, n := j, k;
    } else {
      SubsetSize(seen + {x}, Range(|sess|));
      forall y | y in seen + {x} ensures VisitedBefore(sess, inc, i, y, k + 1) {
        if y == x { assert Follow(sess, inc, i, k) == y; }
        else { var j: nat :| j < k && Follow(sess, inc, i, j) == y; }
      }
      m, n := Repeats(sess, inc, i, seen + {x}, k + 1);
    }
  }

  ghost predicate VisitedBefore(sess: Session, inc: RoleFilter, i: nat, x: int, k: nat)
    requires i < |sess|
  {
    exists j: nat :: j < k && Follow(sess, inc, i, j) == x
  }
}
