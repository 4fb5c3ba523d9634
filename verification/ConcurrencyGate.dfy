/** auto.go, concurrencyGate: a limit on parallel requests that can change while requests
    run, with two waiting queues. A waiter is the channel it blocks on. */
module ConcurrencyGates {
  import opened Options
  import opened Queues

  datatype Gate = Gate(
    limit: int, active: int, randomOrder: bool, waiters: seq<nat>, coldWaiters: seq<nat>, drawn: nat)

  /** rand.IntN: the k-th draw, an arbitrary function. */
  type Rng = nat -> nat

  function Pick(g: Gate, rng: Rng): (i: nat)
    requires |g.waiters| > 0
    ensures i < |g.waiters|
  {
    if g.randomOrder then rng(g.drawn) % |g.waiters| else 0
  }

  function AfterPop(g: Gate, rng: Rng): Gate
    requires |g.waiters| > 0
  {
    if g.randomOrder then g.(waiters := SwapRemove(g.waiters, Pick(g, rng)), drawn := g.drawn + 1)
    else g.(waiters := g.waiters[1..])
  }

  /** The next waiter to serve: cold ones first and in order, then a normal one. */
  function Next(g: Gate, rng: Rng): Option<nat>
  {
    if |g.coldWaiters| > 0 then Some(g.coldWaiters[0])
    else if |g.waiters| > 0 then Some(g.waiters[Pick(g, rng)])
    else None
  }

  function AfterServing(g: Gate, rng: Rng): Gate
  {
    if |g.coldWaiters| > 0 then g.(coldWaiters := g.coldWaiters[1..])
    else if |g.waiters| > 0 then AfterPop(g, rng)
    else g
  }

  /** Serve waiters while the limit leaves room. */
  function Wake(g: Gate, rng: Rng): (r: (Gate, seq<nat>))
    decreases |g.coldWaiters| + |g.waiters|
  {
    if g.active < g.limit && Next(g, rng).Some? then
      var r := Wake(AfterServing(g, rng).(active := g.active + 1), rng);
      (r.0, [Next(g, rng).value] + r.1)
    else (g, [])
  }

  function Enqueue(g: Gate, ch: nat, cold: bool): Gate
  {
    if cold then g.(coldWaiters := g.coldWaiters + [ch]) else g.(waiters := g.waiters + [ch])
  }

  function IndexOf(s: seq<nat>, ch: nat): (i: nat)
    ensures i <= |s| && (i < |s| ==> s[i] == ch) && (ch in s ==> i < |s|)
    ensures forall j | 0 <= j < i :: s[j] != ch
  {
    if |s| == 0 || s[0] == ch then 0 else 1 + IndexOf(s[1..], ch)
  }

  function Drop(s: seq<nat>, ch: nat): seq<nat>
  {
    if IndexOf(s, ch) < |s| then Without(s, IndexOf(s, ch)) else s
  }

  function Forget(g: Gate, ch: nat, cold: bool): Gate
  {
    if cold then g.(coldWaiters := Drop(g.coldWaiters, ch)) else g.(waiters := Drop(g.waiters, ch))
  }

  class ConcurrencyGate {
    const randomOrder: bool
    const rng: Rng
    var limit: int
    var active: int
    var waiters: seq<nat>
    var coldWaiters: seq<nat>
    var drawn: nat

    ghost function State(): Gate
      reads this
    {
      Gate(limit, active, randomOrder, waiters, coldWaiters, drawn)
    }

    constructor (limit: int, randomOrder: bool, rng: Rng)
      ensures State() == Gate(limit, 0, randomOrder, [], [], 0) && this.rng == rng
    {
      this.limit, this.randomOrder, this.rng := limit, randomOrder, rng;
      active, waiters, coldWaiters, drawn := 0, [], [], 0;
    }

    method PopNormalWaiter() returns (w: Option<nat>)
      modifies this`waiters, this`drawn
      ensures if |old(waiters)| == 0 then w == None && State() == old(State())
              else w == Some(old(waiters)[Pick(old(State()), rng)]) && State() == AfterPop(old(State()), rng)
      ensures w.Some? && !randomOrder ==> w == Some(old(waiters)[0]) && waiters == old(waiters)[1..]
    {
      var n := |waiters|;
      if n == 0 {
        return None;
      }
      if !randomOrder {
        w := Some(waiters[0]);
        waiters := waiters[1..];
        return;
      }
      var i := rng(drawn) % n;
      drawn := drawn + 1;
      w := Some(waiters[i]);
      waiters := waiters[i := waiters[n - 1]];
      waiters := waiters[..n - 1];
    }

    /** The first lock section of Acquire and AcquireCold: take a slot or queue up. */
    method Enter(ch: nat, cold: bool) returns (granted: bool)
      modifies this
      ensures granted <==> old(active) < old(limit)
      ensures State() == if granted then old(State()).(active := old(active) + 1) else Enqueue(old(State()), ch, cold)
    {
      if active < limit {
        active := active + 1;
        return true;
      }
      if cold {
        coldWaiters := coldWaiters + [ch];
      } else {
        waiters := waiters + [ch];
      }
      return false;
    }

    /** The lock section of the ctx.Done branch: leave the queue if still in it. */
    method LeaveQueue(ch: nat, cold: bool)
      modifies this`waiters, this`coldWaiters
      ensures State() == Forget(old(State()), ch, cold)
    {
      var queue := if cold then coldWaiters else waiters;
      var i := 0;
      while i < |queue|
        invariant 0 <= i <= |queue| && forall j | 0 <= j < i :: queue[j] != ch
      {
        if queue[i] == ch {
          queue := queue[..i] + queue[i + 1..];
          break;
        }
        i := i + 1;
      }
      if cold {
        coldWaiters := queue;
      } else {
        waiters := queue;
      }
    }

    /** Free a slot, or hand it on: the limit is not looked at. */
    method Release() returns (granted: Option<nat>)
      modifies this
      ensures granted == Next(old(State()), rng)
      ensures State() == if granted.Some? then AfterServing(old(State()), rng)
                         else old(State()).(active := old(active) - 1)
      ensures if |old(coldWaiters)| > 0 then granted == Some(old(coldWaiters)[0]) && coldWaiters == old(coldWaiters)[1..]
              else if |old(waiters)| > 0 && !randomOrder then granted == Some(old(waiters)[0]) && waiters == old(waiters)[1..]
              else granted.Some? <==> |old(waiters)| > 0
    {
      if |coldWaiters| > 0 {
        granted := Some(coldWaiters[0]);
        coldWaiters := coldWaiters[1..];
        return;
      }
      granted := PopNormalWaiter();
      if granted.Some? {
        return;
      }
      active := active - 1;
    }

    /** One turn of the wake-up loop: serve the next waiter, if any, with a new slot. */
    method ServeOne() returns (w: Option<nat>)
      modifies this
      ensures w == Next(old(State()), rng)
      ensures State() == if w.Some? then AfterServing(old(State()), rng).(active := old(active) + 1) else old(State())
    {
      if |coldWaiters| > 0 {
        w := Some(coldWaiters[0]);
        coldWaiters := coldWaiters[1..];
        active := active + 1;
        return;
      }
      w := PopNormalWaiter();
      if w.Some? {
        active := active + 1;
      }
    }

    method SetLimit(newLimit: int) returns (granted: seq<nat>)
      modifies this
      ensures (State(), granted) == Wake(old(State()).(limit := newLimit), rng)
    {
      limit := newLimit;
      granted := [];
      ghost var all := Wake(State(), rng);
      while active < limit
        invariant all.0 == Wake(State(), rng).0 && all.1 == granted + Wake(State(), rng).1
        invariant all == Wake(old(State()).(limit := newLimit), rng)
        decreases |coldWaiters| + |waiters|
      {
        ghost var now := State();
        var w := ServeOne();
        if w.None? {
          break;
        }
        assert granted + Wake(now, rng).1 == granted + [w.value] + Wake(State(), rng).1;
        granted := granted + [w.value];
      }
      assert Wake(State(), rng) == (State(), []) && granted + [] == granted;
    }
  }
}
