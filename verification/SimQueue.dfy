// The event queue of the admission model (benchmark/admission_sim.go): its order, and the
// sums over it that the invariants are written with.

module SimQueues {

  datatype Kind = Arrive | Done | Admit

  // `sess` and `srv` are 0 where the kind does not use them.
  datatype Event = Event(at: real, kind: Kind, sess: nat, srv: nat)

  function Rank(k: Kind): nat {
    match k case Arrive => 0 case Done => 1 case Admit => 2
  }

  // The heap's order.
  predicate Before(a: Event, b: Event) {
    a.at < b.at || (a.at == b.at && Rank(a.kind) < Rank(b.kind))
  }

  ghost predicate IsFirst(e: Event, q: seq<Event>) {
    forall f :: f in q ==> !Before(f, e)
  }

  // What is counted: a session's events, a server's completions, all completions, all
  // arrivals, all admission ticks, or the ticks still to come.
  datatype Measure =
    | OfSession(s: nat)
    | OfServer(i: nat)
    | Completions
    | Arrivals
    | Ticks
    | TicksToCome(every: real, horizon: real)

  function TicksFrom(at: real, every: real, horizon: real): (n: nat)
    ensures at <= horizon ==> n > 0
  {
    if every <= 0.0 || at > horizon then (if at <= horizon then 1 else 0)
    else
      assert (horizon - at) / every >= 0.0;
      1 + ((horizon - at) / every).Floor
  }

  // Every tick that schedules another one leaves fewer to come.
  lemma TicksRunOut(at: real, every: real, horizon: real)
    requires every > 0.0 && at + every <= horizon
    ensures TicksFrom(at + every, every, horizon) < TicksFrom(at, every, horizon)
  {
    OneStepDown(horizon - at, every);
  }

  lemma OneStepDown(y: real, d: real)
    requires d != 0.0
    ensures (y - d) / d == y / d - 1.0
  {
    var x, z := y / d, (y - d) / d;
    assert x * d == y && z * d == y - d;
    var gap := x - 1.0 - z;
    assert gap * d == x * d - d - z * d == 0.0;
    assert gap == 0.0;
  }

  function Weight(e: Event, m: Measure): nat {
    match m
    case OfSession(s) => if e.kind != Admit && e.sess == s then 1 else 0
    case OfServer(i) => if e.kind == Done && e.srv == i then 1 else 0
    case Completions => if e.kind == Done then 1 else 0
    case Arrivals => if e.kind == Arrive then 1 else 0
    case Ticks => if e.kind == Admit then 1 else 0
    case TicksToCome(every, horizon) => if e.kind == Admit then TicksFrom(e.at, every, horizon) else 0
  }

  function Tally(q: seq<Event>, m: Measure): nat {
    if q == [] then 0 else Weight(q[0], m) + Tally(q[1..], m)
  }

  lemma TallyPush(e: Event, q: seq<Event>, m: Measure)
    ensures Tally([e] + q, m) == Weight(e, m) + Tally(q, m)
  {
    assert ([e] + q)[1..] == q;
  }

  lemma {:induction false} TallyPop(q: seq<Event>, k: nat, m: Measure)
    requires k < |q|
    ensures Tally(q, m) == Weight(q[k], m) + Tally(q[..k] + q[k + 1..], m)
  {
    if k == 0 {
      assert q[..0] + q[1..] == q[1..];
    } else {
      TallyPop(q[1..], k - 1, m);
      var rest := q[..k] + q[k + 1..];
      assert rest[1..] == q[1..][..k - 1] + q[1..][k..];
    }
  }

  lemma {:induction false} TallyPositive(q: seq<Event>, e: Event, m: Measure)
    requires e in q && Weight(e, m) > 0
    ensures Tally(q, m) > 0
  {
    if q[0] != e {
      TallyPositive(q[1..], e, m);
    }
  }

  lemma NoneOf(q: seq<Event>, s: nat)
    requires Tally(q, OfSession(s)) == 0
    ensures forall e :: e in q && e.kind != Admit ==> e.sess != s
  {
    forall e | e in q && e.kind != Admit ensures e.sess != s {
      if e.sess == s {
        TallyPositive(q, e, OfSession(s));
      }
    }
  }

  // Time the requests in flight have been open, given when each session last sent one.
  function OpenSecs(q: seq<Event>, begun: seq<real>, now: real): real {
    if q == [] then 0.0
    else (if q[0].kind == Done && q[0].sess < |begun| then now - begun[q[0].sess] else 0.0) + OpenSecs(q[1..], begun, now)
  }

  function OpenOne(e: Event, begun: seq<real>, now: real): real {
    if e.kind == Done && e.sess < |begun| then now - begun[e.sess] else 0.0
  }

  lemma OpenPush(e: Event, q: seq<Event>, begun: seq<real>, now: real)
    ensures OpenSecs([e] + q, begun, now) == OpenOne(e, begun, now) + OpenSecs(q, begun, now)
  {
    assert ([e] + q)[1..] == q;
  }

  lemma {:induction false} OpenPop(q: seq<Event>, k: nat, begun: seq<real>, now: real)
    requires k < |q|
    ensures OpenSecs(q, begun, now) == OpenOne(q[k], begun, now) + OpenSecs(q[..k] + q[k + 1..], begun, now)
  {
    if k == 0 {
      assert q[..0] + q[1..] == q[1..];
    } else {
      OpenPop(q[1..], k - 1, begun, now);
      var rest := q[..k] + q[k + 1..];
      assert rest[1..] == q[1..][..k - 1] + q[1..][k..];
    }
  }

  // Only the sessions with a request in flight matter.
  lemma {:induction false} OpenFrame(q: seq<Event>, b: seq<real>, c: seq<real>, now: real)
    requires forall e :: e in q && e.kind == Done ==> e.sess < |b| && e.sess < |c| && b[e.sess] == c[e.sess]
    ensures OpenSecs(q, b, now) == OpenSecs(q, c, now)
  {
    if q != [] {
      assert q[0] in q;
      OpenFrame(q[1..], b, c, now);
    }
  }

  lemma {:induction false} OpenGrows(q: seq<Event>, begun: seq<real>, now: real, d: real)
    requires forall e :: e in q && e.kind == Done ==> e.sess < |begun|
    ensures OpenSecs(q, begun, now + d) == OpenSecs(q, begun, now) + (Tally(q, Completions) as real) * d
  {
    if q != [] {
      assert q[0] in q;
      OpenGrows(q[1..], begun, now, d);
      var n := Tally(q[1..], Completions);
      assert (n + 1) as real * d == n as real * d + d;
    }
  }

  lemma FirstExists(q: seq<Event>) returns (k: nat)
    requires q != []
    ensures k < |q| && IsFirst(q[k], q)
  {
    k := 0;
    var j: nat := 1;
    while j < |q|
      invariant k < j <= |q|
      invariant forall f :: f in q[..j] ==> !Before(f, q[k])
    {
      assert q[..j + 1] == q[..j] + [q[j]];
      if Before(q[j], q[k]) {
        k := j;
      }
      j := j + 1;
    }
    assert q[..j] == q;
  }

  /** The heap's pop: some event that no other one precedes, and the rest. */
  method PopFirst(q: seq<Event>) returns (e: Event, rest: seq<Event>)
    requires q != []
    ensures e in q && IsFirst(e, q) && multiset(q) == multiset(rest) + multiset{e}
    ensures forall m :: Tally(q, m) == Weight(e, m) + Tally(rest, m)
    ensures forall b, t :: OpenSecs(q, b, t) == OpenOne(e, b, t) + OpenSecs(rest, b, t)
    ensures forall f :: f in rest ==> f in q && f.at >= e.at
  {
    ghost var found := FirstExists(q);
    assert IsFirstAt(q, found) by {
      forall j: nat | j < |q| ensures !Before(q[j], q[found]) {
        assert q[j] in q;
      }
    }
    var k: nat :| k < |q| && IsFirstAt(q, k);
    e, rest := q[k], q[..k] + q[k + 1..];
    forall f | f in q ensures !Before(f, e) {
      var j: nat :| j < |q| && q[j] == f;
      assert IsFirstAt(q, k);
      assert !Before(q[j], q[k]);
    }
    forall m ensures Tally(q, m) == Weight(e, m) + Tally(rest, m) {
      TallyPop(q, k, m);
    }
    forall b, t ensures OpenSecs(q, b, t) == OpenOne(e, b, t) + OpenSecs(rest, b, t) {
      OpenPop(q, k, b, t);
    }
    assert q == q[..k] + [q[k]] + q[k + 1..];
  }

  predicate IsFirstAt(q: seq<Event>, k: nat)
    requires k < |q|
  {
    forall j: nat :: j < |q| ==> !Before(q[j], q[k])
  }

  // The comment on the order promises completions before arrivals at the same instant; the
  // order of the kinds gives the reverse.
  lemma ArrivalsComeFirst(a: Event, d: Event, q: seq<Event>)
    requires a.at == d.at && a.kind == Arrive && d.kind == Done
    requires a in q
    ensures !IsFirst(d, q)
  {
    assert Before(a, d);
  }
}
