/** live_view.go: the bounded log of completed requests and the incremental poll that
    reads it. The full history of completions is kept as a ghost, to compare with. */
module LiveViews {

  datatype Done<T> = Done(seqNo: nat, req: T)

  /** The response of /api/data, as far as the log is concerned. */
  datatype Data<T> = Data(seqNo: nat, reset: bool, dropped: nat, reqs: seq<T>)

  class LiveArm<T> {
    const max: nat
    var seqNo: nat
    var done: seq<Done<T>>
    var dropped: nat
    ghost var history: seq<T>    // every request ever completed, in order

    /** The log is the tail of the history, each entry numbered by its place in it. */
    ghost predicate Valid()
      reads this
    {
      && max > 0
      && seqNo == |history| && dropped + |done| == seqNo
      && |done| <= max + max / 10
      && (forall i | 0 <= i < |done| :: done[i] == Done(dropped + i + 1, history[dropped + i]))
      && (seqNo > 0 ==> |done| > 0)
    }

    /** The log as the protocol sees it. */
    ghost function State(): Server<T>
      reads this
    {
      Server(history, dropped)
    }

    lemma ValidIsServerOk()
      requires Valid()
      ensures ServerOk(State())
    {
    }

    constructor (max: nat)
      requires max > 0
      ensures Valid() && history == [] && this.max == max
    {
      this.max, seqNo, done, dropped, history := max, 0, [], 0, [];
    }

    /** Record a result; once the log is a tenth over its bound, drop the excess. */
    method Complete(req: T)
      requires Valid()
      modifies this
      ensures Valid() && history == old(history) + [req]
      ensures dropped == if |old(done)| + 1 - max > max / 10 then old(dropped) + |old(done)| + 1 - max else old(dropped)
      ensures State() == Recorded(old(State()), req, max)
    {
      seqNo := seqNo + 1;
      done := done + [Done(seqNo, req)];
      history := history + [req];
      var over := |done| - max;
      if over > max / 10 {
        done := done[over..];
        dropped := dropped + over;
      }
    }

    /** sort.Search for the first entry after `since`. */
    method FirstAfter(since: nat) returns (i: nat)
      requires Valid()
      ensures i == Later(since)
      ensures i <= |done| && forall k | 0 <= k < |done| :: done[k].seqNo > since <==> k >= i
    {
      var lo, hi := 0, |done|;
      while lo < hi
        invariant 0 <= lo <= Later(since) <= hi <= |done|
      {
        var mid := (lo + hi) / 2;
        if done[mid].seqNo > since {
          hi := mid;
        } else {
          lo := mid + 1;
        }
      }
      i := lo;
    }

    /** How many retained entries a cursor at `since` has already passed. */
    ghost function Later(since: nat): nat
      reads this
      requires Valid()
    {
      if since <= dropped then 0 else if since - dropped <= |done| then since - dropped else |done|
    }

    method From(i: nat) returns (reqs: seq<T>)
      requires Valid() && i <= |done|
      ensures dropped + i <= |history| && reqs == history[dropped + i..]
    {
      reqs := [];
      for k := i to |done|
        invariant reqs == history[dropped + i..dropped + k]
      {
        assert history[dropped + i..dropped + k + 1] == history[dropped + i..dropped + k] + [history[dropped + k]];
        reqs := reqs + [done[k].req];
      }
    }

    /** What a client whose cursor stands at `since0` is sent. */
    method Snapshot(since0: nat) returns (d: Data<T>)
      requires Valid()
      ensures d == Answer(State().history, State().dropped, since0)
    {
      var since, reset := since0, false;
      if |done| > 0 && since > 0 && done[0].seqNo > since + 1 {
        reset, since := true, 0;
      }
      if since > seqNo {
        reset, since := true, 0;
      }
      var i := FirstAfter(since);
      var reqs := From(i);
      d := Data(seqNo, reset, dropped, reqs);
    }
  }

  /** The poll's answer in terms of what ever happened: everything after the cursor, or,
      when some of that is gone or the cursor is from another life, everything retained. */
  function Answer<T>(history: seq<T>, dropped: nat, since: nat): (d: Data<T>)
    requires dropped <= |history|
  {
    var reset := (since > 0 && dropped > since) || since > |history|;
    var from := if reset || since < dropped then dropped else since;
    Data(|history|, reset, dropped, history[from..])
  }

  // ---- A client that polls ----

  /** The page: what it holds, its cursor, and an answer on its way to it, if any. */
  datatype Client<T> = Client(held: seq<T>, cursor: nat, inTransit: seq<Data<T>>)

  /** The server as a client sees it. */
  datatype Server<T> = Server(history: seq<T>, dropped: nat)

  datatype Label<T> =
    | Complete(req: T)
    | Trim(dropped: nat)      // the log gives up older entries, never its last
    | Poll                    // the server answers with the client's cursor
    | Deliver                 // the answer reaches the client

  predicate Enabled<T>(sv: Server<T>, c: Client<T>, l: Label<T>)
  {
    match l
    case Complete(_) => true
    case Trim(n) => sv.dropped <= n < |sv.history|
    case Poll => c.inTransit == [] && sv.dropped <= |sv.history|
    case Deliver => c.inTransit != []
  }

  /** Discard on reset, otherwise append. */
  function Receive<T>(c: Client<T>, d: Data<T>): Client<T>
  {
    Client(if d.reset then d.reqs else c.held + d.reqs, d.seqNo, [])
  }

  function Apply<T>(sv: Server<T>, c: Client<T>, l: Label<T>): (Server<T>, Client<T>)
    requires Enabled(sv, c, l)
  {
    match l
    case Complete(req) => (sv.(history := sv.history + [req]), c)
    case Trim(n) => (sv.(dropped := n), c)
    case Poll => (sv, c.(inTransit := [Answer(sv.history, sv.dropped, c.cursor)]))
    case Deliver => (sv, Receive(c, c.inTransit[0]))
  }

  ghost predicate Run<T>(sv: Server<T>, c: Client<T>, labels: seq<Label<T>>, sv': Server<T>, c': Client<T>)
    decreases |labels|
  {
    if |labels| == 0 then sv == sv' && c == c'
    else
      Enabled(sv, c, labels[0])
      && var next := Apply(sv, c, labels[0]);
         Run(next.0, next.1, labels[1..], sv', c')
  }

  /** What a client holds is one contiguous stretch of the history: no gap, nothing
      twice, ending at its cursor and reaching back over all the server retains. */
  ghost predicate HoldsStretch<T>(sv: Server<T>, c: Client<T>)
  {
    && |c.held| <= c.cursor <= |sv.history|
    && c.held == sv.history[c.cursor - |c.held|..c.cursor]
    && (c.cursor > 0 ==> c.cursor - |c.held| <= sv.dropped)
    && (c.cursor > 0 ==> c.held != [])
  }

  /** The log never gives up its last entry. */
  ghost predicate ServerOk<T>(sv: Server<T>)
  {
    sv.dropped <= |sv.history| && (|sv.history| > 0 ==> sv.dropped < |sv.history|)
  }

  /** So is what it will hold once the answer under way has arrived. */
  ghost predicate Inv<T>(sv: Server<T>, c: Client<T>)
  {
    && ServerOk(sv)
    && HoldsStretch(sv, c)
    && |c.inTransit| <= 1
    && (c.inTransit != [] ==> HoldsStretch(sv, Receive(c, c.inTransit[0])))
  }

  /** A server that has recorded nothing, and a page that has not polled yet. */
  predicate Fresh<T>(sv: Server<T>, c: Client<T>)
  {
    sv.history == [] && sv.dropped == 0 && c.held == [] && c.cursor == 0 && c.inTransit == []
  }

  lemma InitInv<T>(sv: Server<T>, c: Client<T>)
    requires Fresh(sv, c)
    ensures Inv(sv, c)
  {
    hide Receive;
    var none := sv.history[0..0];
    assert |none| == 0 && none == c.held;
    assert HoldsStretch(sv, c);
  }

  /** Polling brings a client fully up to date, whatever was trimmed since its last poll. */
  lemma PollBringsUpToDate<T>(sv: Server<T>, c: Client<T>)
    requires Inv(sv, c)
    ensures var got := Receive(c, Answer(sv.history, sv.dropped, c.cursor));
            HoldsStretch(sv, got) && got.cursor == |sv.history|
  {
    hide Answer, HoldsStretch;
    AnswerCatchesUp(sv, c);
  }

  lemma AnswerCatchesUp<T>(sv: Server<T>, c: Client<T>)
    requires ServerOk(sv) && HoldsStretch(sv, c)
    ensures var got := Receive(c, Answer(sv.history, sv.dropped, c.cursor));
            HoldsStretch(sv, got) && got.cursor == |sv.history|
  {
    Stretches(sv.history, c.cursor - |c.held|, c.cursor);
    Stretches(sv.history, sv.dropped, sv.dropped);
    assert c.cursor == 0 ==> c.held == [];
  }

  lemma Stretches<T>(h: seq<T>, lo: nat, mid: nat)
    requires lo <= mid <= |h|
    ensures h[lo..mid] + h[mid..] == h[lo..|h|] == h[lo..]
  {
  }

  lemma StretchSurvivesCompletion<T>(sv: Server<T>, c: Client<T>, req: T)
    requires HoldsStretch(sv, c)
    ensures HoldsStretch(sv.(history := sv.history + [req]), c)
  {
    var lo, h := c.cursor - |c.held|, sv.history + [req];
    assert h[lo..c.cursor] == sv.history[lo..c.cursor];
  }

  lemma CompleteKeepsInv<T>(sv: Server<T>, c: Client<T>, req: T)
    requires Inv(sv, c)
    ensures Inv(sv.(history := sv.history + [req]), c)
  {
    hide HoldsStretch;
    StretchSurvivesCompletion(sv, c, req);
    if c.inTransit != [] { StretchSurvivesCompletion(sv, Receive(c, c.inTransit[0]), req); }
  }

  lemma StepKeepsInv<T>(sv: Server<T>, c: Client<T>, l: Label<T>)
    requires Inv(sv, c) && Enabled(sv, c, l)
    ensures Inv(Apply(sv, c, l).0, Apply(sv, c, l).1)
  {
    match l
    case Complete(req) => CompleteKeepsInv(sv, c, req);
    case Trim(_) =>
    case Poll => PollBringsUpToDate(sv, c);
    case Deliver =>
  }

  /** For any interleaving of completions, trims and polls. */
  lemma {:induction false} RunKeepsInv<T>(sv: Server<T>, c: Client<T>, labels: seq<Label<T>>, sv': Server<T>, c': Client<T>)
    requires Inv(sv, c) && Run(sv, c, labels, sv', c')
    ensures Inv(sv', c')
    decreases |labels|
  {
    if |labels| > 0 {
      StepKeepsInv(sv, c, labels[0]);
      var next := Apply(sv, c, labels[0]);
      RunKeepsInv(next.0, next.1, labels[1..], sv', c');
    }
  }

  /** So from a fresh server and a fresh page on, in every run. */
  lemma {:induction false} EveryRunIsInOrder<T>(sv0: Server<T>, c0: Client<T>, labels: seq<Label<T>>, sv: Server<T>, c: Client<T>)
    requires Fresh(sv0, c0) && Run(sv0, c0, labels, sv, c)
    ensures Inv(sv, c)
  {
    InitInv(sv0, c0);
    RunKeepsInv(sv0, c0, labels, sv, c);
  }

  /** A client outlives a server restart unharmed exactly when its cursor is not one the new
      server can answer from, so that it starts over, or when it happens to hold what the
      new history has in the same place. */
  lemma RestartHarmlessIff<T>(before: Server<T>, c: Client<T>, after: Server<T>)
    requires Inv(before, c) && c.cursor > 0
    requires after.dropped <= |after.history|
    ensures var got := Receive(c, Answer(after.history, after.dropped, c.cursor));
            (|got.held| <= got.cursor && got.held == after.history[got.cursor - |got.held|..])
            <==> after.dropped > c.cursor || c.cursor > |after.history|
                 || c.held == after.history[c.cursor - |c.held|..c.cursor]
  {
    var h := after.history;
    var d := Answer(h, after.dropped, c.cursor);
    if !d.reset {
      var lo := c.cursor - |c.held|;
      assert h[lo..] == h[lo..c.cursor] + h[c.cursor..];
      assert (c.held + d.reqs)[..|c.held|] == c.held && h[lo..][..|c.held|] == h[lo..c.cursor];
    }
  }

  /** A restart that does harm: the client's cursor is valid in the new life, so it is sent
      only what follows, and keeps requests the new server never had. */
  lemma RestartCanMixLives<T>(was: seq<T>, now: seq<T>, next: seq<T>)
    requires |was| == |now| > 0 && was != now
    ensures Inv(Server(was, 0), Client(was, |was|, []))
    ensures var got := Receive(Client(was, |was|, []), Answer(now + next, 0, |was|));
            got.cursor == |now + next| == |got.held| && got.held == was + next != now + next
  {
    hide Inv, HoldsStretch;
    UpToDate(was);
    SameEndOtherBeginning(was, now, next);
    assert Answer(now + next, 0, |was|) == Data(|now + next|, false, 0, next);
  }

  lemma UpToDate<T>(was: seq<T>)
    requires |was| > 0
    ensures Inv(Server(was, 0), Client(was, |was|, []))
  {
    assert was[0..|was|] == was;
  }

  lemma SameEndOtherBeginning<T>(was: seq<T>, now: seq<T>, next: seq<T>)
    requires |was| == |now| && was != now
    ensures (now + next)[|was|..] == next && was + next != now + next
  {
    assert (was + next)[..|was|] == was && (now + next)[..|was|] == now;
  }

  // ---- The class and the protocol ----

  predicate Overfull<T>(sv: Server<T>, max: nat)
  {
    |sv.history| - sv.dropped - max > max / 10
  }

  /** What recording a request makes of the log. */
  function Recorded<T>(sv: Server<T>, req: T, max: nat): Server<T>
  {
    var completed := sv.(history := sv.history + [req]);
    if Overfull(completed, max) then completed.(dropped := |completed.history| - max) else completed
  }

  /** The class's critical section is a run of the protocol: its completion, and then, when
      the log is a tenth over its bound, its trim. */
  lemma CompleteIsCompleteThenTrim<T>(sv: Server<T>, req: T, max: nat, c: Client<T>)
    requires max > 0 && ServerOk(sv)
    ensures var completed := sv.(history := sv.history + [req]);
            var trim: seq<Label<T>> := if Overfull(completed, max) then [Trim(|completed.history| - max)] else [];
            Run(sv, c, [Complete(req)] + trim, Recorded(sv, req, max), c)
    ensures ServerOk(Recorded(sv, req, max))
  {
    var completed, recorded := sv.(history := sv.history + [req]), Recorded(sv, req, max);
    if Overfull(completed, max) {
      var trim: seq<Label<T>> := [Trim(|completed.history| - max)];
      assert Enabled(completed, c, trim[0]) && Apply(completed, c, trim[0]) == (recorded, c);
      assert trim[1..] == [];
      assert Run(completed, c, trim, recorded, c);
      assert ([Complete(req)] + trim)[1..] == trim;
    } else {
      assert Run(completed, c, [], recorded, c);
      assert ([Complete(req)] + [])[1..] == [];
    }
  }
}
