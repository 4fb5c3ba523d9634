/** Everything that can happen to the gate's callers, one lock section or channel
    operation at a time. */
module GateProtocol {
  import opened Options
  import opened Sets
  import opened Queues
  import opened ConcurrencyGates

  datatype State = State(
    gate: Gate,
    held: set<nat>,        // slots their holder will release
    pending: set<nat>,     // granted, the token still in the channel
    leaving: set<nat>,     // the select took ctx.Done, the lock section is still to come
    leaked: set<nat>,      // granted, but the caller had already chosen to leave
    used: set<nat>,        // every channel ever created
    granted: seq<nat>,     // waiters served, in order
    maxLimit: int)         // the largest limit ever set

  datatype Label =
    | Enter(ch: nat, cold: bool)
    | Receive(ch: nat)
    | TakeDone(ch: nat)
    | LeaveQueue(ch: nat, cold: bool)
    | Release(ch: nat)
    | SetLimit(limit: int)

  function Init(limit: int, randomOrder: bool): State
  {
    State(Gate(limit, 0, randomOrder, [], [], 0), {}, {}, {}, {}, {}, [], limit)
  }

  function Queued(g: Gate): set<nat>
  {
    Elems(g.waiters) + Elems(g.coldWaiters)
  }

  predicate Enabled(s: State, l: Label)
  {
    match l
    case Enter(ch, _) => ch !in s.used
    case Receive(ch) => ch in s.pending && ch !in s.leaving
    case TakeDone(ch) => ch in Queued(s.gate) + s.pending && ch !in s.leaving
    case LeaveQueue(ch, cold) => ch in s.leaving && (ch in s.gate.coldWaiters ==> cold) && (ch in s.gate.waiters ==> !cold)
    case Release(ch) => ch in s.held
    case SetLimit(_) => true
  }

  function Grant(s: State, g: Gate, ws: seq<nat>): State
  {
    s.(gate := g, pending := s.pending + Elems(ws), granted := s.granted + ws)
  }

  function Entered(s: State, ch: nat, cold: bool): State
  {
    if s.gate.active < s.gate.limit
    then s.(gate := s.gate.(active := s.gate.active + 1), held := s.held + {ch}, used := s.used + {ch})
    else s.(gate := Enqueue(s.gate, ch, cold), used := s.used + {ch})
  }

  function Received(s: State, ch: nat): State
  {
    s.(pending := s.pending - {ch}, held := s.held + {ch})
  }

  function Left(s: State, ch: nat, cold: bool): State
  {
    var left := s.(gate := Forget(s.gate, ch, cold), leaving := s.leaving - {ch});
    if ch in s.pending then left.(pending := s.pending - {ch}, leaked := s.leaked + {ch}) else left
  }

  function Released(s: State, rng: Rng, ch: nat): State
  {
    var freed := s.(held := s.held - {ch});
    if Next(s.gate, rng).Some?
    then Grant(freed, AfterServing(s.gate, rng), [Next(s.gate, rng).value])
    else freed.(gate := s.gate.(active := s.gate.active - 1))
  }

  function Limited(s: State, rng: Rng, limit: int): State
  {
    var r := Wake(s.gate.(limit := limit), rng);
    Grant(s, r.0, r.1).(maxLimit := if limit > s.maxLimit then limit else s.maxLimit)
  }

  function Apply(s: State, rng: Rng, l: Label): State
    requires Enabled(s, l)
  {
    match l
    case Enter(ch, cold) => Entered(s, ch, cold)
    case Receive(ch) => Received(s, ch)
    case TakeDone(ch) => s.(leaving := s.leaving + {ch})
    case LeaveQueue(ch, cold) => Left(s, ch, cold)
    case Release(ch) => Released(s, rng, ch)
    case SetLimit(limit) => Limited(s, rng, limit)
  }

  ghost function Run(s: State, rng: Rng, labels: seq<Label>): Option<State>
  {
    if |labels| == 0 then Some(s)
    else
      var before := Run(s, rng, labels[..|labels| - 1]);
      if before.Some? && Enabled(before.value, labels[|labels| - 1])
      then Some(Apply(before.value, rng, labels[|labels| - 1]))
      else None
  }

  // ---- The invariant ----

  ghost predicate GateOk(g: Gate)
  {
    Distinct(g.waiters) && Distinct(g.coldWaiters) && Elems(g.waiters) !! Elems(g.coldWaiters)
  }

  /** Work conservation: nobody queues while there is room. */
  ghost predicate Conserving(g: Gate)
  {
    Queued(g) != {} ==> g.active >= g.limit
  }

  /** Every channel is in at most one place, and only created channels are anywhere. */
  ghost predicate Placed(s: State)
  {
    && s.held !! s.pending && s.held + s.pending !! s.leaked
    && Queued(s.gate) !! s.held + s.pending + s.leaked
    && Queued(s.gate) + s.held + s.pending + s.leaked <= s.used
    && s.leaving <= Queued(s.gate) + s.pending
  }

  /** The slots charged are the slots held, on their way, or lost; and never more than
      the largest limit there has been. */
  ghost predicate Accounted(s: State)
  {
    && s.gate.active == |s.held| + |s.pending| + |s.leaked|
    && s.gate.limit <= s.maxLimit
    && (s.gate.active <= s.maxLimit || s.gate.active == 0)
  }

  /** Every waiter is served at most once, and a queued one has not been. */
  ghost predicate ServedOnce(s: State)
  {
    Distinct(s.granted) && Elems(s.granted) <= s.used && Elems(s.granted) !! Queued(s.gate)
  }

  ghost predicate Inv(s: State)
  {
    GateOk(s.gate) && Conserving(s.gate) && Placed(s) && Accounted(s) && ServedOnce(s)
  }

  lemma InitInv(limit: int, randomOrder: bool)
    ensures Inv(Init(limit, randomOrder))
  {
  }

  /** Serving takes the served waiter out of its queue and nobody else. */
  lemma ServingRemoves(g: Gate, rng: Rng)
    requires GateOk(g) && Next(g, rng).Some?
    ensures GateOk(AfterServing(g, rng))
    ensures Next(g, rng).value in Queued(g)
    ensures Queued(AfterServing(g, rng)) == Queued(g) - {Next(g, rng).value}
    ensures AfterServing(g, rng).active == g.active && AfterServing(g, rng).limit == g.limit
  {
    if |g.coldWaiters| > 0 {
      WithoutElems(g.coldWaiters, 0);
      assert Without(g.coldWaiters, 0) == g.coldWaiters[1..];
    } else {
      WithoutElems(g.waiters, Pick(g, rng));
      SwapRemoveElems(g.waiters, Pick(g, rng));
      if !g.randomOrder { assert Without(g.waiters, 0) == g.waiters[1..]; }
    }
  }

  /** SetLimit's wake-up serves distinct queued waiters, one slot each, until the limit
      is reached or nobody waits. */
  lemma {:induction false} WakeServes(g: Gate, rng: Rng)
    requires GateOk(g)
    ensures var r := Wake(g, rng);
            && GateOk(r.0) && Conserving(r.0) && r.0.limit == g.limit
            && Distinct(r.1) && Elems(r.1) <= Queued(g) && Queued(r.0) == Queued(g) - Elems(r.1)
            && r.0.active == g.active + |r.1|
            && (r.1 != [] ==> r.0.active <= g.limit)
    decreases |g.coldWaiters| + |g.waiters|
  {
    if g.active < g.limit && Next(g, rng).Some? {
      var w, g' := Next(g, rng).value, AfterServing(g, rng).(active := g.active + 1);
      ServingRemoves(g, rng);
      WakeServes(g', rng);
      var r := Wake(g', rng);
      assert Elems([w] + r.1) == {w} + Elems(r.1);
      assert w !in Elems(r.1);
    }
  }

  lemma DropRemoves(s: seq<nat>, ch: nat)
    requires Distinct(s)
    ensures Distinct(Drop(s, ch)) && Elems(Drop(s, ch)) == Elems(s) - {ch}
  {
    if IndexOf(s, ch) < |s| { WithoutElems(s, IndexOf(s, ch)); }
  }

  lemma ForgetRemoves(g: Gate, ch: nat, cold: bool)
    requires GateOk(g) && (ch in g.coldWaiters ==> cold) && (ch in g.waiters ==> !cold)
    ensures GateOk(Forget(g, ch, cold)) && Queued(Forget(g, ch, cold)) == Queued(g) - {ch}
  {
    DropRemoves(g.waiters, ch);
    DropRemoves(g.coldWaiters, ch);
  }

  lemma EnqueueAdds(g: Gate, ch: nat, cold: bool)
    requires GateOk(g) && ch !in Queued(g)
    ensures GateOk(Enqueue(g, ch, cold)) && Queued(Enqueue(g, ch, cold)) == Queued(g) + {ch}
  {
    if cold { AppendElems(g.coldWaiters, ch); } else { AppendElems(g.waiters, ch); }
  }

  lemma DisjointSizes(a: set<nat>, b: set<nat>)
    requires a !! b
    ensures |a + b| == |a| + |b|
  {
  }

  lemma AppendDistinct(a: seq<nat>, b: seq<nat>)
    requires Distinct(a) && Distinct(b) && Elems(a) !! Elems(b)
    ensures Distinct(a + b) && Elems(a + b) == Elems(a) + Elems(b)
  {
    forall i, j | 0 <= i < j < |a + b| ensures (a + b)[i] != (a + b)[j] {
      if i < |a| <= j { assert b[j - |a|] in Elems(b) && a[i] in Elems(a); }
    }
  }

  /** Granting moves distinct queued waiters to `pending`, each with a slot of its own. */
  lemma GrantKeeps(s: State, g: Gate, ws: seq<nat>)
    requires GateOk(s.gate) && Placed(s) && ServedOnce(s)
    requires Distinct(ws) && Elems(ws) <= Queued(s.gate) && Queued(g) == Queued(s.gate) - Elems(ws)
    ensures Placed(Grant(s, g, ws)) && ServedOnce(Grant(s, g, ws))
    ensures |Grant(s, g, ws).pending| == |s.pending| + |ws|
  {
    ElemsSize(ws);
    DisjointSizes(s.pending, Elems(ws));
    AppendDistinct(s.granted, ws);
  }

  lemma {:induction false} ElemsSize(s: seq<nat>)
    requires Distinct(s)
    ensures |Elems(s)| == |s|
  {
    if |s| > 0 {
      ElemsSize(s[1..]);
      assert Elems(s) == {s[0]} + Elems(s[1..]);
      assert s[0] !in s[1..];
    }
  }

  /** The holder's slot is free before anyone else gets it. */
  lemma FreeingKeeps(s: State, ch: nat)
    requires Inv(s) && ch in s.held
    ensures var freed := s.(held := s.held - {ch});
            Placed(freed) && ServedOnce(freed) && |freed.held| == |s.held| - 1
  {
  }

  lemma ReleaseKeepsInv(s: State, rng: Rng, ch: nat)
    requires Inv(s) && ch in s.held
    ensures Inv(Released(s, rng, ch))
  {
    hide Placed, ServedOnce, Distinct, AfterServing, Next;
    FreeingKeeps(s, ch);
    EmptyIffNoNext(s.gate, rng);
    var freed := s.(held := s.held - {ch});
    if Next(s.gate, rng).Some? {
      ServingRemoves(s.gate, rng);
      GrantSome(freed, AfterServing(s.gate, rng), [Next(s.gate, rng).value], s.maxLimit);
      assert Released(s, rng, ch) == Released(s, rng, ch).(maxLimit := s.maxLimit);
    } else {
      NobodyWaits(freed, Released(s, rng, ch));
    }
  }

  lemma NobodyWaits(s: State, t: State)
    requires Queued(s.gate) == {} && GateOk(s.gate) && Placed(s) && ServedOnce(s)
    requires t == s.(gate := s.gate.(active := t.gate.active)) && Accounted(t)
    ensures Inv(t)
  {
    assert Queued(t.gate) == {};
  }

  lemma SetLimitKeepsInv(s: State, rng: Rng, limit: int)
    requires Inv(s)
    ensures Inv(Limited(s, rng, limit))
  {
    var g := s.gate.(limit := limit);
    assert Queued(g) == Queued(s.gate);
    WakeServes(g, rng);
    GrantSome(s, Wake(g, rng).0, Wake(g, rng).1, if limit > s.maxLimit then limit else s.maxLimit);
  }

  /** Granting slots that are free restores the invariant. */
  lemma GrantSome(s: State, g: Gate, ws: seq<nat>, m: int)
    requires GateOk(s.gate) && Placed(s) && ServedOnce(s)
    requires GateOk(g) && Conserving(g) && Distinct(ws)
    requires Elems(ws) <= Queued(s.gate) && Queued(g) == Queued(s.gate) - Elems(ws)
    requires g.active == |s.held| + |s.pending| + |s.leaked| + |ws|
    requires g.limit <= m && (g.active <= m || g.active == 0)
    ensures Inv(Grant(s, g, ws).(maxLimit := m))
  {
    GrantKeeps(s, g, ws);
    SameElsewhere(Grant(s, g, ws), m);
  }

  lemma SameElsewhere(s: State, m: int)
    requires Placed(s) && ServedOnce(s)
    ensures Placed(s.(maxLimit := m)) && ServedOnce(s.(maxLimit := m))
  {
  }

  // The rest of Placed only sees the two sets together.
  lemma MoveKeepsPlaced(s: State, to: set<nat>, from: set<nat>, ch: nat)
    requires ch in from && to !! from
    ensures to + {ch} !! from - {ch} && (to + {ch}) + (from - {ch}) == to + from
    ensures to == s.held && from == s.pending ==>
              Queued(s.gate) + (to + {ch}) + (from - {ch}) == Queued(s.gate) + s.held + s.pending
  {
  }

  lemma ReceiveKeepsInv(s: State, ch: nat)
    requires Inv(s) && ch in s.pending && ch !in s.leaving
    ensures Inv(Received(s, ch))
  {
    hide Distinct, Elems, GateOk, Conserving, Queued;
    assert |s.pending - {ch}| == |s.pending| - 1 && |s.held + {ch}| == |s.held| + 1;
    MoveKeepsPlaced(s, s.held, s.pending, ch);
  }

  lemma AbsentStays(q: seq<nat>, ch: nat)
    requires ch !in q
    ensures Drop(q, ch) == q
  {
  }

  lemma LeaveKeepsInv(s: State, ch: nat, cold: bool)
    requires Inv(s) && Enabled(s, LeaveQueue(ch, cold))
    ensures Inv(Left(s, ch, cold))
  {
    if ch in s.pending {
      assert ch !in Queued(s.gate);
      AbsentStays(if cold then s.gate.coldWaiters else s.gate.waiters, ch);
      LeakKeepsInv(s, ch);
    } else {
      ForgetRemoves(s.gate, ch, cold);
      UnqueueKeepsInv(s, Forget(s.gate, ch, cold), ch);
    }
  }

  lemma LeakKeepsInv(s: State, ch: nat)
    requires Inv(s) && ch in s.pending && ch in s.leaving
    ensures Inv(s.(pending := s.pending - {ch}, leaked := s.leaked + {ch}, leaving := s.leaving - {ch}))
  {
    assert |s.pending - {ch}| == |s.pending| - 1 && |s.leaked + {ch}| == |s.leaked| + 1;
  }

  lemma UnqueueKeepsInv(s: State, g: Gate, ch: nat)
    requires Inv(s) && ch !in s.pending && GateOk(g) && Queued(g) == Queued(s.gate) - {ch}
    requires g.active == s.gate.active && g.limit == s.gate.limit
    ensures Inv(s.(gate := g, leaving := s.leaving - {ch}))
  {
  }

  lemma EnterKeepsInv(s: State, ch: nat, cold: bool)
    requires Inv(s) && ch !in s.used
    ensures Inv(Entered(s, ch, cold))
  {
    if s.gate.active < s.gate.limit {
      var g := s.gate.(active := s.gate.active + 1);
      assert Queued(g) == Queued(s.gate);
      TakeSlot(s, g, ch);
    } else {
      EnqueueAdds(s.gate, ch, cold);
      JoinQueue(s, Enqueue(s.gate, ch, cold), ch);
    }
  }

  lemma TakeSlot(s: State, g: Gate, ch: nat)
    requires Inv(s) && ch !in s.used && GateOk(g) && Queued(g) == Queued(s.gate) == {}
    requires g.active == s.gate.active + 1 <= s.gate.limit == g.limit
    ensures Inv(s.(gate := g, held := s.held + {ch}, used := s.used + {ch}))
  {
    assert |s.held + {ch}| == |s.held| + 1;
  }

  lemma JoinQueue(s: State, g: Gate, ch: nat)
    requires Inv(s) && ch !in s.used && GateOk(g) && Queued(g) == Queued(s.gate) + {ch}
    requires g.active == s.gate.active >= s.gate.limit == g.limit
    ensures Inv(s.(gate := g, used := s.used + {ch}))
  {
  }

  lemma StepKeepsInv(s: State, rng: Rng, l: Label)
    requires Inv(s) && Enabled(s, l)
    ensures Inv(Apply(s, rng, l))
  {
    match l
    case Enter(ch, cold) => EnterKeepsInv(s, ch, cold);
    case Receive(ch) => ReceiveKeepsInv(s, ch);
    case TakeDone(ch) =>
    case LeaveQueue(ch, cold) => LeaveKeepsInv(s, ch, cold);
    case Release(ch) => ReleaseKeepsInv(s, rng, ch);
    case SetLimit(limit) => SetLimitKeepsInv(s, rng, limit);
  }

  lemma EmptyIffNoNext(g: Gate, rng: Rng)
    ensures Queued(g) == {} <==> Next(g, rng).None?
    ensures Queued(g) == {} <==> g.waiters == [] && g.coldWaiters == []
  {
    assert g.waiters != [] ==> g.waiters[0] in Queued(g);
    assert g.coldWaiters != [] ==> g.coldWaiters[0] in Queued(g);
  }

  /** In every run of acquires, cancellations, releases and limit changes. */
  lemma {:induction false} RunKeepsInv(limit: int, randomOrder: bool, rng: Rng, labels: seq<Label>)
    requires Run(Init(limit, randomOrder), rng, labels).Some?
    ensures Inv(Run(Init(limit, randomOrder), rng, labels).value)
  {
    if |labels| == 0 {
      InitInv(limit, randomOrder);
    } else {
      var before := labels[..|labels| - 1];
      RunKeepsInv(limit, randomOrder, rng, before);
      StepKeepsInv(Run(Init(limit, randomOrder), rng, before).value, rng, labels[|labels| - 1]);
    }
  }

  // ---- Priority ----

  /** A wake-up serves the cold queue from its head, and normal waiters only after it. */
  lemma {:induction false} WakeServesColdFirst(g: Gate, rng: Rng)
    requires GateOk(g)
    ensures var served := Wake(g, rng).1;
            var n := if |served| < |g.coldWaiters| then |served| else |g.coldWaiters|;
            && Wake(g, rng).0.coldWaiters == g.coldWaiters[n..]
            && (forall i | 0 <= i < n :: served[i] == g.coldWaiters[i])
            && (forall i | n <= i < |served| :: served[i] in g.waiters)
    decreases |g.coldWaiters| + |g.waiters|
  {
    hide Distinct, Next, Elems;
    if g.active < g.limit && Next(g, rng).Some? {
      ServingRemoves(g, rng);
      LinesShrink(g, rng);
      WakeServesColdFirst(AfterServing(g, rng).(active := g.active + 1), rng);
    }
  }

  /** No step grants a normal waiter while a cold one is left waiting. */
  lemma ColdBeforeNormal(s: State, rng: Rng, l: Label, w: nat)
    requires Inv(s) && Enabled(s, l)
    requires w in s.gate.waiters && w in Apply(s, rng, l).pending
    ensures Apply(s, rng, l).gate.coldWaiters == []
  {
    hide Distinct, Wake, Accounted, ServedOnce, Conserving;
    assert w in Queued(s.gate) && w !in s.pending;
    if l.SetLimit? {
      ColdWokenFirst(s.gate.(limit := l.limit), rng, w);
    }
  }

  lemma ColdWokenFirst(g: Gate, rng: Rng, w: nat)
    requires GateOk(g) && w in g.waiters && w in Wake(g, rng).1
    ensures Wake(g, rng).0.coldWaiters == []
  {
    hide Distinct, Wake, AfterServing;
    WakeServesColdFirst(g, rng);
    var served := Wake(g, rng).1;
    var i :| 0 <= i < |served| && served[i] == w;
    assert w in Elems(g.waiters);
    assert i < |g.coldWaiters| ==> w in Elems(g.coldWaiters);
  }

  /** Nobody overtakes the queue: a caller that gets in at once finds it empty. */
  lemma NoBarging(s: State, ch: nat, cold: bool, rng: Rng)
    requires Inv(s) && Enabled(s, Enter(ch, cold)) && ch in Apply(s, rng, Enter(ch, cold)).held
    ensures s.gate.waiters == [] && s.gate.coldWaiters == []
  {
    EmptyIffNoNext(s.gate, rng);
  }

  // ---- First come, first served ----

  function Line(g: Gate, cold: bool): seq<nat>
  {
    if cold then g.coldWaiters else g.waiters
  }

  /** a stands before b, if b is there at all. */
  predicate Before(w: seq<nat>, a: nat, b: nat)
  {
    a in w && (b in w ==> IndexOf(w, a) < IndexOf(w, b))
  }

  lemma {:induction false} AppendKeepsBefore(w: seq<nat>, a: nat, b: nat, ch: nat)
    requires Before(w, a, b) && a != b && a != ch
    ensures Before(w + [ch], a, b)
  {
    assert IndexOf(w + [ch], a) <= IndexOf(w, a) by { FirstIs(w + [ch], a, IndexOf(w, a)); }
    if b in w + [ch] {
      var i := IndexOf(w + [ch], b);
      if i < |w| { FirstIs(w, b, i); }
    }
  }

  lemma FirstIs(w: seq<nat>, ch: nat, i: nat)
    requires i < |w| && w[i] == ch
    ensures IndexOf(w, ch) <= i
  {
  }

  lemma HeadKeepsBefore(w: seq<nat>, a: nat, b: nat)
    requires Distinct(w) && a != b && |w| > 0 && a in w[1..] && Before(w, a, b)
    ensures w[0] != b && Before(w[1..], a, b)
  {
    assert w[0] != a;
    assert IndexOf(w, a) == 1 + IndexOf(w[1..], a);
    if w[0] != b { assert IndexOf(w, b) == 1 + IndexOf(w[1..], b); }
  }

  lemma {:induction false} DropKeepsBefore(w: seq<nat>, a: nat, b: nat, ch: nat)
    requires Distinct(w) && |w| > 0 && a != b && a in Drop(w, ch) && Before(w, a, b)
    ensures Before(Drop(w, ch), a, b)
  {
    hide Distinct, Drop;
    TailDistinct(w);
    DropHead(w, ch);
    DropIsPart(w[1..], ch);
    if w[0] == ch {
      HeadKeepsBefore(w, a, b);
    } else if w[0] != a {
      HeadKeepsBefore(w, a, b);
      DropKeepsBefore(w[1..], a, b, ch);
    }
  }

  lemma TailDistinct(w: seq<nat>)
    requires Distinct(w) && |w| > 0
    ensures Distinct(w[1..])
  {
  }

  lemma DropHead(w: seq<nat>, ch: nat)
    requires |w| > 0
    ensures Drop(w, ch) == if w[0] == ch then w[1..] else [w[0]] + Drop(w[1..], ch)
  {
  }

  lemma DropIsPart(w: seq<nat>, ch: nat)
    ensures forall x | x in Drop(w, ch) :: x in w
  {
  }

  /** b is not served while a, who came to the same line before, is still in it. */
  ghost predicate InTurn(s: State, cold: bool, a: nat, b: nat)
  {
    a in Line(s.gate, cold) ==>
      && b !in s.granted && b !in s.held + s.pending + s.leaked
      && Orderly(s.gate, cold, a, b)
  }

  predicate Orderly(g: Gate, cold: bool, a: nat, b: nat)
  {
    Before(Line(g, cold), a, b) && b !in Line(g, !cold)
  }

  lemma ServingInTurn(g: Gate, rng: Rng, cold: bool, a: nat, b: nat)
    requires GateOk(g) && (cold || !g.randomOrder) && Next(g, rng).Some? && a != b
    requires a in Line(g, cold) ==> Orderly(g, cold, a, b)
    ensures AfterServing(g, rng).randomOrder == g.randomOrder
    ensures var g' := AfterServing(g, rng);
            a in Line(g', cold) ==> a in Line(g, cold) && Next(g, rng).value != b && Orderly(g', cold, a, b)
  {
    var g' := AfterServing(g, rng);
    var w := Line(g, cold);
    ServingRemoves(g, rng);
    LinesShrink(g, rng);
    if a in Line(g', cold) {
      if Line(g', cold) != w { HeadKeepsBefore(w, a, b); }
    }
  }

  lemma LinesShrink(g: Gate, rng: Rng)
    requires GateOk(g) && Next(g, rng).Some?
    ensures var g' := AfterServing(g, rng);
            && (forall x | x in g'.waiters :: x in g.waiters) && (forall x | x in g'.coldWaiters :: x in g.coldWaiters)
            && (g.coldWaiters != [] ==> g'.waiters == g.waiters && g'.coldWaiters == g.coldWaiters[1..] && Next(g, rng).value == g.coldWaiters[0])
            && (g.coldWaiters == [] ==> g'.coldWaiters == [] && Next(g, rng).value in g.waiters)
            && (g.coldWaiters == [] && !g.randomOrder ==> g'.waiters == g.waiters[1..] && Next(g, rng).value == g.waiters[0])
  {
    if g.coldWaiters == [] && g.randomOrder { SwapRemoveElems(g.waiters, Pick(g, rng)); }
  }

  lemma {:induction false} WakingInTurn(g: Gate, rng: Rng, cold: bool, a: nat, b: nat)
    requires GateOk(g) && (cold || !g.randomOrder) && a != b
    requires a in Line(g, cold) ==> Orderly(g, cold, a, b)
    ensures Wake(g, rng).0.randomOrder == g.randomOrder
    ensures var r := Wake(g, rng);
            a in Line(r.0, cold) ==> a in Line(g, cold) && b !in r.1 && Orderly(r.0, cold, a, b)
    decreases |g.coldWaiters| + |g.waiters|
  {
    hide Distinct, Before, Next, Elems;
    if g.active < g.limit && Next(g, rng).Some? {
      ServingRemoves(g, rng);
      ServingInTurn(g, rng, cold, a, b);
      WakingInTurn(AfterServing(g, rng).(active := g.active + 1), rng, cold, a, b);
    }
  }

  lemma ForgettingInTurn(g: Gate, ch: nat, leaves: bool, cold: bool, a: nat, b: nat)
    requires GateOk(g) && a != b && a in Line(Forget(g, ch, leaves), cold)
    requires a in Line(g, cold) ==> Orderly(g, cold, a, b)
    ensures a in Line(g, cold) && Orderly(Forget(g, ch, leaves), cold, a, b)
  {
    hide Distinct, Before;
    DropIsPart(g.waiters, ch);
    DropIsPart(g.coldWaiters, ch);
    if cold == leaves { DropKeepsBefore(Line(g, cold), a, b, ch); }
  }

  lemma StepInTurn(s: State, rng: Rng, l: Label, cold: bool, a: nat, b: nat)
    requires Inv(s) && Enabled(s, l) && a != b && a in s.used && b in s.used
    requires (cold || !s.gate.randomOrder) && InTurn(s, cold, a, b)
    ensures InTurn(Apply(s, rng, l), cold, a, b)
  {
    hide Placed, Accounted, ServedOnce, Conserving, Distinct, Before, Wake, Next, AfterServing, Forget;
    var t := Apply(s, rng, l);
    match l
    case Enter(ch, c) =>
      if a in Line(t.gate, cold) && c == cold && t.gate != s.gate.(active := t.gate.active) {
        AppendKeepsBefore(Line(s.gate, cold), a, b, ch);
      }
    case Receive(ch) =>
    case TakeDone(ch) =>
    case LeaveQueue(ch, c) => if a in Line(t.gate, cold) { ForgettingInTurn(s.gate, ch, c, cold, a, b); }
    case Release(ch) => if Next(s.gate, rng).Some? { ServingInTurn(s.gate, rng, cold, a, b); }
    case SetLimit(limit) => WakingInTurn(s.gate.(limit := limit), rng, cold, a, b);
  }

  lemma StepKeepsOrder(s: State, rng: Rng, l: Label)
    requires Enabled(s, l)
    ensures Apply(s, rng, l).gate.randomOrder == s.gate.randomOrder && s.used <= Apply(s, rng, l).used
    ensures l.Enter? ==> l.ch in Apply(s, rng, l).used
  {
    if l.SetLimit? { WakeKeepsOrder(s.gate.(limit := l.limit), rng); }
  }

  lemma {:induction false} WakeKeepsOrder(g: Gate, rng: Rng)
    ensures Wake(g, rng).0.randomOrder == g.randomOrder
    decreases |g.coldWaiters| + |g.waiters|
  {
    if g.active < g.limit && Next(g, rng).Some? {
      WakeKeepsOrder(AfterServing(g, rng).(active := g.active + 1), rng);
    }
  }

  lemma {:induction false} EnteredIsUsed(limit: int, randomOrder: bool, rng: Rng, labels: seq<Label>, k: nat)
    requires Run(Init(limit, randomOrder), rng, labels).Some?
    ensures Run(Init(limit, randomOrder), rng, labels).value.gate.randomOrder == randomOrder
    ensures k < |labels| && labels[k].Enter? ==> labels[k].ch in Run(Init(limit, randomOrder), rng, labels).value.used
  {
    if |labels| > 0 {
      hide Apply, Enabled;
      var n := |labels| - 1;
      EnteredIsUsed(limit, randomOrder, rng, labels[..n], k);
      StepKeepsOrder(Run(Init(limit, randomOrder), rng, labels[..n]).value, rng, labels[n]);
    }
  }

  /** First come, first served, over every run: of two callers of one kind, the later one
      neither gets in nor is granted while the earlier one is queued, and if it queues too
      it stands behind. For normal callers this needs the random order to be off. */
  lemma {:induction false} FirstComeFirstServed(
      limit: int, randomOrder: bool, rng: Rng, labels: seq<Label>, k: nat, l: nat, a: nat, b: nat, cold: bool)
    requires Run(Init(limit, randomOrder), rng, labels).Some? && (cold || !randomOrder)
    requires k < l < |labels| && labels[k] == Enter(a, cold) && labels[l] == Enter(b, cold)
    ensures a != b && InTurn(Run(Init(limit, randomOrder), rng, labels).value, cold, a, b)
  {
    hide Apply, Enabled, InTurn, Inv;
    var n, s0 := |labels| - 1, Init(limit, randomOrder);
    var before := Run(s0, rng, labels[..n]).value;
    RunKeepsInv(limit, randomOrder, rng, labels[..n]);
    EnteredIsUsed(limit, randomOrder, rng, labels[..n], k);
    if l < n {
      FirstComeFirstServed(limit, randomOrder, rng, labels[..n], k, l, a, b, cold);
      EnteredIsUsed(limit, randomOrder, rng, labels[..n], l);
      StepInTurn(before, rng, labels[n], cold, a, b);
    } else {
      JoinsBehind(before, rng, cold, a, b);
    }
  }

  /** Whoever comes later finds the earlier one used, and goes to the end of the line. */
  lemma JoinsBehind(s: State, rng: Rng, cold: bool, a: nat, b: nat)
    requires Inv(s) && Enabled(s, Enter(b, cold)) && a in s.used
    ensures a != b && InTurn(Apply(s, rng, Enter(b, cold)), cold, a, b)
  {
    hide Distinct, Accounted;
    EmptyIffNoNext(s.gate, rng);
    assert b !in Queued(s.gate);
    if a in Line(s.gate, cold) {
      var w := Line(s.gate, cold);
      FirstIs(w + [b], a, IndexOf(w, a));
    }
  }

  // ---- What cancellation and lowering the limit really do ----

  /** One step loses a slot exactly when a caller leaves after it was granted. */
  lemma LeakStep(s: State, rng: Rng, l: Label, ch: nat)
    requires Inv(s) && Enabled(s, l)
    ensures ch in Apply(s, rng, l).leaked <==>
              ch in s.leaked || (l.LeaveQueue? && l.ch == ch && ch in s.pending)
  {
    hide Inv, Wake, Elems, Queued, Forget, Enqueue, Next, AfterServing;
  }

  /** Step k of a run is ch's caller leaving with its grant undelivered. */
  ghost predicate LeavesAfterGrant(s: State, rng: Rng, labels: seq<Label>, k: nat, ch: nat)
  {
    && k < |labels| && labels[k].LeaveQueue? && labels[k].ch == ch
    && Run(s, rng, labels[..k]).Some? && ch in Run(s, rng, labels[..k]).value.pending
  }

  /** Over every run: a slot is lost exactly when its caller left after being granted. */
  lemma {:induction false} LeakedIffLeftAfterGrant(limit: int, randomOrder: bool, rng: Rng, labels: seq<Label>, ch: nat)
    requires Run(Init(limit, randomOrder), rng, labels).Some?
    ensures ch in Run(Init(limit, randomOrder), rng, labels).value.leaked
       <==> exists k: nat :: LeavesAfterGrant(Init(limit, randomOrder), rng, labels, k, ch)
  {
    if |labels| > 0 {
      hide Inv, Apply, Enabled, LeavesAfterGrant;
      var n, s0 := |labels| - 1, Init(limit, randomOrder);
      var before := labels[..n];
      LeakedIffLeftAfterGrant(limit, randomOrder, rng, before, ch);
      RunKeepsInv(limit, randomOrder, rng, before);
      LeakStep(Run(s0, rng, before).value, rng, labels[n], ch);
      LeavesSoFar(s0, rng, labels, ch);
    }
  }

  lemma LeavesSoFar(s: State, rng: Rng, labels: seq<Label>, ch: nat)
    requires |labels| > 0 && Run(s, rng, labels[..|labels| - 1]).Some?
    ensures var n, before := |labels| - 1, labels[..|labels| - 1];
            (exists k: nat :: LeavesAfterGrant(s, rng, labels, k, ch))
            <==> (exists k: nat :: LeavesAfterGrant(s, rng, before, k, ch))
                 || (labels[n].LeaveQueue? && labels[n].ch == ch && ch in Run(s, rng, before).value.pending)
  {
    hide Run;
    var n, before := |labels| - 1, labels[..|labels| - 1];
    forall k: nat | k < n ensures LeavesAfterGrant(s, rng, labels, k, ch) <==> LeavesAfterGrant(s, rng, before, k, ch) {
      assert before[..k] == labels[..k];
    }
    assert LeavesAfterGrant(s, rng, labels, n, ch) <==> labels[n].LeaveQueue? && labels[n].ch == ch && ch in Run(s, rng, before).value.pending;
  }

  /** Nobody holds a slot or has one coming, and none is free. */
  ghost predicate Starved(s: State)
  {
    s.held == {} && s.pending == {} && s.gate.active >= s.gate.limit
  }

  lemma StarvationStays(s: State, rng: Rng, l: Label)
    requires Inv(s) && Starved(s) && Enabled(s, l) && !l.SetLimit?
    ensures Starved(Apply(s, rng, l)) && Apply(s, rng, l).granted == s.granted
  {
    hide Inv, Wake, Queued, Next, AfterServing;
  }

  /** What lost slots cost: with every slot lost, no caller gets in or is granted again
      until the limit is changed. */
  lemma {:induction false} StarvedUntilSetLimit(s: State, rng: Rng, labels: seq<Label>)
    requires Inv(s) && Starved(s) && Run(s, rng, labels).Some?
    requires forall k | 0 <= k < |labels| :: !labels[k].SetLimit?
    ensures var t := Run(s, rng, labels).value; Inv(t) && Starved(t) && t.granted == s.granted
  {
    if |labels| > 0 {
      hide Inv, Apply, Enabled;
      var n := |labels| - 1;
      StarvedUntilSetLimit(s, rng, labels[..n]);
      var t := Run(s, rng, labels[..n]).value;
      StepKeepsInv(t, rng, labels[n]);
      StarvationStays(t, rng, labels[n]);
    }
  }

  /** Lost slots are never returned: each run ends with at least that many charged. */
  lemma {:induction false} LeaksAreForGood(limit: int, randomOrder: bool, rng: Rng, labels: seq<Label>, more: seq<Label>)
    requires Run(Init(limit, randomOrder), rng, labels + more).Some?
    ensures Run(Init(limit, randomOrder), rng, labels).Some?
    ensures var s, t := Run(Init(limit, randomOrder), rng, labels).value, Run(Init(limit, randomOrder), rng, labels + more).value;
            s.leaked <= t.leaked && |s.leaked| <= t.gate.active
  {
    if |more| == 0 {
      assert labels + more == labels;
      RunKeepsInv(limit, randomOrder, rng, labels);
    } else {
      var before := more[..|more| - 1];
      assert (labels + more)[..|labels + more| - 1] == labels + before;
      LeaksAreForGood(limit, randomOrder, rng, labels, before);
      RunKeepsInv(limit, randomOrder, rng, labels + more);
      var s, t := Run(Init(limit, randomOrder), rng, labels).value, Run(Init(limit, randomOrder), rng, labels + more).value;
      SubsetSize(s.leaked, t.leaked);
    }
  }

  /** Release hands its slot to a waiter however far the limit has been lowered: the
      number of charged slots falls on a release exactly when nobody waits. */
  lemma ReleaseIgnoresTheLimit(s: State, rng: Rng, ch: nat)
    requires Inv(s) && Enabled(s, Release(ch))
    ensures var s' := Apply(s, rng, Release(ch));
            s'.gate.active == s.gate.active - (if Queued(s.gate) == {} then 1 else 0)
  {
    EmptyIffNoNext(s.gate, rng);
  }
}
