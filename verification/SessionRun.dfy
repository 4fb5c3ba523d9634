/** replay_router.go: runRouterReplaySession runs one goroutine per instance; a waiting
    instance blocks on its spawning request's done-channel, and every instance that ran
    sweeps its own channels closed on the way out. Each atomic action is one step. */
module SessionRun {
  import opened Options
  import opened InstanceActions

  /** Why a done-channel is being closed: its request was answered, the instance could
      not be configured, or the deferred sweep is running. */
  datatype Mode = Normal | Failing | Sweeping

  /** A goroutine's position. closeOnce looks at the channel and then closes it, which
      is two actions: Check and Closing. */
  datatype Pc =
    | NotRun               // dropped up front
    | Blocked              // on the parent's done-channel
    | Entry                // runRouterReplayInstance entered, its sweep deferred
    | Turn(t: nat)         // top of the request loop
    | InFlight(t: nat)     // the request is out
    | Answered(t: nat)     // the response is in, requestEnd not yet stored
    | Check(mode: Mode, t: nat)
    | Closing(mode: Mode, t: nat)
    | Finished             // swept and gone
    | Cancelled            // left from Blocked on cancellation, sweeping nothing

  datatype State = State(
    pcs: seq<Pc>,
    closed: set<nat>,    // request ids whose done-channel is closed
    ended: set<nat>,     // request ids whose requestEnd is stored
    cancelled: bool,     // benchCtx
    panicked: bool)      // a closed channel was closed again

  /** What the environment decides where the code branches on it. */
  datatype Choice = Proceed | Leave | Misconfigured

  datatype Label = Cancel | Move(i: nat, choice: Choice)

  /** A done-channel exists for every request id of an included instance. */
  ghost predicate HasChannel(sess: Session, inc: RoleFilter, id: nat)
  {
    id != 0 && exists i :: 0 <= i < |sess| && Included(sess, inc, i) && id in sess[i].requests
  }

  ghost function Start(sess: Session, inc: RoleFilter, i: nat): Pc
    requires i < |sess|
  {
    match ActionOf(sess, inc, i)
    case Drop => NotRun
    case Wait => Blocked
    case Fire => Entry
  }

  ghost function Init(sess: Session, inc: RoleFilter): State
  {
    State(seq(|sess|, i requires 0 <= i < |sess| => Start(sess, inc, i)), {}, {}, false, false)
  }

  ghost predicate Enabled(sess: Session, s: State, l: Label)
    requires |s.pcs| == |sess|
  {
    match l
    case Cancel => !s.cancelled
    case Move(i, choice) =>
      i < |sess| &&
      match s.pcs[i]
      case Blocked => (choice == Proceed && sess[i].parentSpawn in s.closed) || (choice == Leave && s.cancelled)
      case Entry => true
      case Turn(_) => choice != Misconfigured
      case InFlight(_) => choice != Misconfigured
      case Answered(_) => choice == Proceed
      case Check(_, _) => choice == Proceed
      case Closing(_, _) => choice == Proceed
      case _ => false
  }

  /** Past one channel: on to the next turn, or to the next channel to close. */
  function Past(mode: Mode, t: nat): Pc
  {
    if mode == Normal then Turn(t + 1) else Check(mode, t + 1)
  }

  ghost function MovePc(sess: Session, inc: RoleFilter, s: State, i: nat, choice: Choice): Pc
    requires |s.pcs| == |sess| && Enabled(sess, s, Move(i, choice))
  {
    var reqs := sess[i].requests;
    match s.pcs[i]
    case Blocked => if choice == Proceed then Entry else Cancelled
    case Entry =>
      if choice == Proceed then Turn(0)
      else if choice == Misconfigured then Check(Failing, 0)
      else Check(Sweeping, 0)
    case Turn(t) => if choice == Proceed && t < |reqs| then InFlight(t) else Check(Sweeping, 0)
    case InFlight(t) => if choice == Proceed then Answered(t) else Check(Sweeping, 0)
    case Answered(t) => Check(Normal, t)
    case Check(mode, t) =>
      if t >= |reqs| then (if mode == Sweeping then Finished else Check(Sweeping, 0))
      else if !HasChannel(sess, inc, reqs[t]) || reqs[t] in s.closed then Past(mode, t)
      else Closing(mode, t)
    case Closing(mode, t) => Past(mode, t)
  }

  ghost function Apply(sess: Session, inc: RoleFilter, s: State, l: Label): State
    requires |s.pcs| == |sess| && Enabled(sess, s, l)
  {
    match l
    case Cancel => s.(cancelled := true)
    case Move(i, choice) =>
      var reqs := sess[i].requests;
      var moved := s.(pcs := s.pcs[i := MovePc(sess, inc, s, i, choice)]);
      match s.pcs[i]
      case Answered(t) =>
        if t < |reqs| && HasChannel(sess, inc, reqs[t]) then moved.(ended := s.ended + {reqs[t]}) else moved
      case Closing(_, t) =>
        if t < |reqs| then
          moved.(closed := s.closed + {reqs[t]}, panicked := s.panicked || reqs[t] in s.closed)
        else moved
      case _ => moved
  }

  /** A run: the labels in order, each enabled where it is taken. */
  ghost function Run(sess: Session, inc: RoleFilter, labels: seq<Label>): (s: Option<State>)
    ensures s.Some? ==> |s.value.pcs| == |sess|
  {
    if |labels| == 0 then Some(Init(sess, inc))
    else
      var before := Run(sess, inc, labels[..|labels| - 1]);
      if before.Some? && Enabled(sess, before.value, labels[|labels| - 1])
      then Some(Apply(sess, inc, before.value, labels[|labels| - 1]))
      else None
  }

  // ---- The invariant ----

  /** Ids among the first k requests of an instance all have their channel closed. */
  ghost predicate ClosedTo(sess: Session, inc: RoleFilter, s: State, i: nat, k: nat)
    requires i < |sess| && k <= |sess[i].requests|
  {
    forall j | 0 <= j < k && HasChannel(sess, inc, sess[i].requests[j]) :: sess[i].requests[j] in s.closed
  }

  /** Leaving: sweeping, failing or gone. */
  predicate Exiting(pc: Pc)
  {
    pc.Finished? || ((pc.Check? || pc.Closing?) && pc.mode != Normal)
  }

  ghost predicate PcOk(sess: Session, inc: RoleFilter, s: State, i: nat)
    requires |s.pcs| == |sess| && i < |sess|
  {
    var n := |sess[i].requests|;
    && (ActionOf(sess, inc, i) == Drop <==> s.pcs[i] == NotRun)
    && (ActionOf(sess, inc, i) == Fire ==> s.pcs[i] != Blocked && s.pcs[i] != Cancelled)
    && (match s.pcs[i]
        case Cancelled => s.cancelled
        case Turn(t) => t <= n && ClosedTo(sess, inc, s, i, t)
        case InFlight(t) => t < n && ClosedTo(sess, inc, s, i, t)
        case Answered(t) => t < n && ClosedTo(sess, inc, s, i, t)
        case Check(mode, t) => t <= n && (mode == Normal ==> t < n) && ClosedTo(sess, inc, s, i, t)
        case Closing(mode, t) => t < n && HasChannel(sess, inc, sess[i].requests[t]) && ClosedTo(sess, inc, s, i, t)
        case Finished => ClosedTo(sess, inc, s, i, n)
        case _ => true)
    && (match s.pcs[i]
        case Check(Normal, t) => HasChannel(sess, inc, sess[i].requests[t]) ==> sess[i].requests[t] in s.ended
        case Closing(Normal, t) => sess[i].requests[t] in s.ended
        case _ => true)
  }

  /** An instance that waits starts only once its spawning request's channel is closed. */
  ghost predicate StartedInOrder(sess: Session, inc: RoleFilter, s: State, i: nat)
    requires |s.pcs| == |sess| && i < |sess|
  {
    ActionOf(sess, inc, i) == Wait && s.pcs[i] != Blocked && s.pcs[i] != Cancelled
    ==> sess[i].parentSpawn in s.closed
  }

  /** A channel closes because its request ended or because an instance owning it is leaving. */
  ghost predicate ClosedForAReason(sess: Session, inc: RoleFilter, s: State, id: nat)
    requires |s.pcs| == |sess|
  {
    && HasChannel(sess, inc, id)
    && (id in s.ended || exists j :: 0 <= j < |sess| && id in sess[j].requests && Exiting(s.pcs[j]))
  }

  ghost predicate Inv(sess: Session, inc: RoleFilter, s: State)
  {
    && |s.pcs| == |sess|
    && (forall i | 0 <= i < |sess| :: PcOk(sess, inc, s, i))
    && (forall i | 0 <= i < |sess| :: StartedInOrder(sess, inc, s, i))
    && (forall id | id in s.closed :: ClosedForAReason(sess, inc, s, id))
  }

  lemma InitInv(sess: Session, inc: RoleFilter)
    ensures Inv(sess, inc, Init(sess, inc))
  {
  }

  lemma PcOkElsewhere(sess: Session, inc: RoleFilter, s: State, s': State, j: nat)
    requires |s.pcs| == |sess| == |s'.pcs| && j < |sess| && PcOk(sess, inc, s, j)
    requires s'.pcs[j] == s.pcs[j] && s.closed <= s'.closed && s.ended <= s'.ended
    requires s.cancelled ==> s'.cancelled
    ensures PcOk(sess, inc, s', j)
  {
  }

  lemma PcOkMoved(sess: Session, inc: RoleFilter, s: State, i: nat, choice: Choice)
    requires Inv(sess, inc, s) && Enabled(sess, s, Move(i, choice))
    ensures PcOk(sess, inc, Apply(sess, inc, s, Move(i, choice)), i)
  {
    hide ActionOf, HasChannel;
    assert PcOk(sess, inc, s, i);
  }

  lemma ReasonKept(sess: Session, inc: RoleFilter, s: State, l: Label, id: nat)
    requires Inv(sess, inc, s) && Enabled(sess, s, l)
    requires id in Apply(sess, inc, s, l).closed
    ensures ClosedForAReason(sess, inc, Apply(sess, inc, s, l), id)
  {
    var s' := Apply(sess, inc, s, l);
    if id in s.closed {
      assert ClosedForAReason(sess, inc, s, id);
      if id !in s.ended {
        var j :| 0 <= j < |sess| && id in sess[j].requests && Exiting(s.pcs[j]);
        assert Exiting(s'.pcs[j]);
      }
    } else {
      var i := l.i;
      assert PcOk(sess, inc, s, i);
      if s.pcs[i].mode != Normal { assert Exiting(s'.pcs[i]); }
    }
  }

  lemma StepKeepsInv(sess: Session, inc: RoleFilter, s: State, l: Label)
    requires Inv(sess, inc, s) && Enabled(sess, s, l)
    ensures Inv(sess, inc, Apply(sess, inc, s, l))
  {
    var s' := Apply(sess, inc, s, l);
    forall j | 0 <= j < |sess| ensures PcOk(sess, inc, s', j) && StartedInOrder(sess, inc, s', j) {
      assert PcOk(sess, inc, s, j) && StartedInOrder(sess, inc, s, j);
      if l.Move? && l.i == j { PcOkMoved(sess, inc, s, j, l.choice); }
      else { PcOkElsewhere(sess, inc, s, s', j); }
    }
    forall id | id in s'.closed ensures ClosedForAReason(sess, inc, s', id) {
      ReasonKept(sess, inc, s, l, id);
    }
  }

  /** The invariant holds after every run, whatever the interleaving. */
  lemma {:induction false} RunKeepsInv(sess: Session, inc: RoleFilter, labels: seq<Label>)
    requires Run(sess, inc, labels).Some?
    ensures Inv(sess, inc, Run(sess, inc, labels).value)
  {
    if |labels| == 0 {
      InitInv(sess, inc);
    } else {
      var before := labels[..|labels| - 1];
      RunKeepsInv(sess, inc, before);
      StepKeepsInv(sess, inc, Run(sess, inc, before).value, labels[|labels| - 1]);
    }
  }

  // ---- Every run ends ----

  /** Actions an instance with n requests still has in front of it, at most. */
  function Rank(pc: Pc, n: nat): nat
  {
    var sweep := 2 * n + 1;
    match pc
    case Blocked => sweep + 5 * n + 4
    case Entry => sweep + 5 * n + 3
    case Turn(t) => if t <= n then sweep + 1 + 5 * (n - t) else 0
    case InFlight(t) => if t < n then sweep + 5 * (n - t) else 0
    case Answered(t) => if t < n then sweep + 5 * (n - t) - 1 else 0
    case Check(mode, t) =>
      if t > n then 0
      else if mode == Sweeping then 2 * (n - t) + 1
      else if mode == Failing then sweep + 1 + 2 * (n - t)
      else if t < n then sweep + 5 * (n - t) - 2 else 0
    case Closing(mode, t) =>
      if t >= n then 0
      else if mode == Sweeping then 2 * (n - t)
      else if mode == Failing then sweep + 2 * (n - t)
      else sweep + 5 * (n - t) - 3
    case _ => 0
  }

  ghost function Remaining(sess: Session, pcs: seq<Pc>, k: nat): nat
    requires k <= |pcs| == |sess|
  {
    if k == 0 then 0 else Remaining(sess, pcs, k - 1) + Rank(pcs[k - 1], |sess[k - 1].requests|)
  }

  /** A bound on the steps any run can still take. */
  ghost function Measure(sess: Session, s: State): nat
    requires |s.pcs| == |sess|
  {
    Remaining(sess, s.pcs, |sess|) + (if s.cancelled then 0 else 1)
  }

  lemma {:induction false} RemainingOfUpdate(sess: Session, pcs: seq<Pc>, i: nat, pc: Pc, k: nat)
    requires i < |pcs| == |sess| && k <= |pcs|
    ensures Remaining(sess, pcs[i := pc], k)
         == Remaining(sess, pcs, k) + (if i < k then Rank(pc, |sess[i].requests|) - Rank(pcs[i], |sess[i].requests|) else 0)
  {
    if k > 0 { RemainingOfUpdate(sess, pcs, i, pc, k - 1); }
  }

  lemma RankDrops(sess: Session, inc: RoleFilter, s: State, i: nat, choice: Choice)
    requires Inv(sess, inc, s) && Enabled(sess, s, Move(i, choice))
    ensures Rank(MovePc(sess, inc, s, i, choice), |sess[i].requests|) < Rank(s.pcs[i], |sess[i].requests|)
  {
    assert PcOk(sess, inc, s, i);
  }

  lemma StepDrops(sess: Session, inc: RoleFilter, s: State, l: Label)
    requires Inv(sess, inc, s) && Enabled(sess, s, l)
    ensures Measure(sess, Apply(sess, inc, s, l)) < Measure(sess, s)
  {
    if l.Move? {
      RankDrops(sess, inc, s, l.i, l.choice);
      RemainingOfUpdate(sess, s.pcs, l.i, MovePc(sess, inc, s, l.i, l.choice), |sess|);
    }
  }

  /** No run is longer than the work the session holds, so every run ends. */
  lemma {:induction false} RunsAreBounded(sess: Session, inc: RoleFilter, labels: seq<Label>)
    requires Run(sess, inc, labels).Some?
    ensures |labels| + Measure(sess, Run(sess, inc, labels).value) <= Measure(sess, Init(sess, inc))
  {
    if |labels| > 0 {
      var before := labels[..|labels| - 1];
      RunsAreBounded(sess, inc, before);
      RunKeepsInv(sess, inc, before);
      StepDrops(sess, inc, Run(sess, inc, before).value, labels[|labels| - 1]);
    }
  }

  // ---- No run gets stuck ----

  predicate Over(pc: Pc)
  {
    pc.NotRun? || pc.Finished? || pc.Cancelled?
  }

  /** Some goroutine can move; the cancellation of the whole run is not counted. */
  ghost predicate CanMove(sess: Session, s: State)
    requires |s.pcs| == |sess|
  {
    exists i: nat, choice :: Enabled(sess, s, Move(i, choice))
  }

  /** While an instance is blocked, someone on the way to its root can move. */
  lemma {:induction false} BlockedMeansProgress(sess: Session, inc: RoleFilter, s: State, i: nat)
    requires Inv(sess, inc, s) && i < |sess| && s.pcs[i] == Blocked
    ensures CanMove(sess, s)
    decreases if Anchored(sess, inc, i) then Distance(sess, inc, i) else 0
  {
    assert PcOk(sess, inc, s, i);
    WaitGraphIsAcyclic(sess, inc, i);
    var o := Owner(sess, sess[i].parentSpawn).value;
    assert PcOk(sess, inc, s, o);
    if s.cancelled {
      assert Enabled(sess, s, Move(i, Leave));
    } else if s.pcs[o] == Blocked {
      BlockedMeansProgress(sess, inc, s, o);
    } else if s.pcs[o] == Finished {
      var j :| 0 <= j < |sess[o].requests| && sess[o].requests[j] == sess[i].parentSpawn;
      assert HasChannel(sess, inc, sess[o].requests[j]);
      assert Enabled(sess, s, Move(i, Proceed));
    } else {
      assert Enabled(sess, s, Move(o, Proceed));
    }
  }

  lemma NeverStuck(sess: Session, inc: RoleFilter, labels: seq<Label>)
    requires Run(sess, inc, labels).Some?
    ensures var s := Run(sess, inc, labels).value;
            (forall i | 0 <= i < |sess| :: Over(s.pcs[i])) || CanMove(sess, s)
  {
    var s := Run(sess, inc, labels).value;
    RunKeepsInv(sess, inc, labels);
    if i :| 0 <= i < |sess| && !Over(s.pcs[i]) {
      if s.pcs[i] == Blocked { BlockedMeansProgress(sess, inc, s, i); }
      else { assert Enabled(sess, s, Move(i, Proceed)); }
    }
  }

  // ---- What has happened when it ends ----

  /** A run that cannot go on has every goroutine gone; unless it was cancelled, every
      instance that was to run has swept, so every channel it owns is closed. */
  lemma EndedRunIsComplete(sess: Session, inc: RoleFilter, labels: seq<Label>, i: nat, id: nat)
    requires Run(sess, inc, labels).Some?
    requires !CanMove(sess, Run(sess, inc, labels).value)
    requires i < |sess| && ActionOf(sess, inc, i) != Drop && id in sess[i].requests && id != 0
    ensures var s := Run(sess, inc, labels).value; id in s.closed || s.cancelled
  {
    var s := Run(sess, inc, labels).value;
    RunKeepsInv(sess, inc, labels);
    NeverStuck(sess, inc, labels);
    assert PcOk(sess, inc, s, i);
    var j :| 0 <= j < |sess[i].requests| && sess[i].requests[j] == id;
    assert HasChannel(sess, inc, sess[i].requests[j]);
  }

  /** A child runs only after its spawning request ended, or an instance owning that
      request is on its way out. */
  lemma ChildStartsAfterSpawn(sess: Session, inc: RoleFilter, labels: seq<Label>, i: nat)
    requires Run(sess, inc, labels).Some? && i < |sess| && ActionOf(sess, inc, i) == Wait
    ensures var s, p := Run(sess, inc, labels).value, sess[i].parentSpawn;
            s.pcs[i] == Blocked || s.pcs[i] == Cancelled
            || (p in s.closed
                && (p in s.ended || exists j :: 0 <= j < |sess| && p in sess[j].requests && Exiting(s.pcs[j])))
  {
    RunKeepsInv(sess, inc, labels);
    var s := Run(sess, inc, labels).value;
    assert StartedInOrder(sess, inc, s, i);
    if sess[i].parentSpawn in s.closed {
      assert ClosedForAReason(sess, inc, s, sess[i].parentSpawn);
    }
  }

  // ---- What an undisturbed run sends ----

  /** Nothing is cancelled, nobody leaves early and everyone is configured. */
  ghost predicate Undisturbed(labels: seq<Label>)
  {
    forall k | 0 <= k < |labels| :: labels[k].Move? && labels[k].choice == Proceed
  }

  /** The first k requests of an instance were answered and their ends stored. */
  ghost predicate EndedTo(sess: Session, s: State, i: nat, k: nat)
    requires i < |sess| && k <= |sess[i].requests|
  {
    forall j | 0 <= j < k && sess[i].requests[j] != 0 :: sess[i].requests[j] in s.ended
  }

  /** Whoever has come to turn t has sent and finished every request before it, and whoever
      sweeps or is gone has finished all of its own. */
  ghost predicate SentInTurn(sess: Session, s: State, i: nat)
    requires |s.pcs| == |sess| && i < |sess|
  {
    var n := |sess[i].requests|;
    match s.pcs[i]
    case Turn(t) => t <= n && EndedTo(sess, s, i, t)
    case InFlight(t) => t < n && EndedTo(sess, s, i, t)
    case Answered(t) => t < n && EndedTo(sess, s, i, t)
    case Check(mode, t) =>
      if mode == Normal then t < n && EndedTo(sess, s, i, t + 1) else mode == Sweeping && EndedTo(sess, s, i, n)
    case Closing(mode, t) =>
      if mode == Normal then t < n && EndedTo(sess, s, i, t + 1) else mode == Sweeping && EndedTo(sess, s, i, n)
    case Finished => EndedTo(sess, s, i, n)
    case Cancelled => false
    case _ => true
  }

  lemma OwnIdHasChannel(sess: Session, inc: RoleFilter, s: State, i: nat, j: nat)
    requires Inv(sess, inc, s) && i < |sess| && s.pcs[i] != NotRun && j < |sess[i].requests| && sess[i].requests[j] != 0
    ensures HasChannel(sess, inc, sess[i].requests[j])
  {
    assert PcOk(sess, inc, s, i);
    assert sess[i].requests[j] in sess[i].requests;
  }

  lemma SentElsewhere(sess: Session, s: State, s': State, j: nat)
    requires |s.pcs| == |sess| == |s'.pcs| && j < |sess| && s'.pcs[j] == s.pcs[j] && s.ended <= s'.ended
    requires SentInTurn(sess, s, j)
    ensures SentInTurn(sess, s', j)
  {
  }

  lemma SendingStep(sess: Session, inc: RoleFilter, s: State, i: nat)
    requires Inv(sess, inc, s) && Enabled(sess, s, Move(i, Proceed)) && SentInTurn(sess, s, i)
    ensures SentInTurn(sess, Apply(sess, inc, s, Move(i, Proceed)), i)
  {
    hide HasChannel, ActionOf;
    assert PcOk(sess, inc, s, i);
    if s.pcs[i].Answered? && sess[i].requests[s.pcs[i].t] != 0 {
      OwnIdHasChannel(sess, inc, s, i, s.pcs[i].t);
    }
  }

  /** In every undisturbed run each instance sends its requests in turn, and sweeps only
      when it has sent them all. */
  lemma {:induction false} UndisturbedRunsSend(sess: Session, inc: RoleFilter, labels: seq<Label>)
    requires Run(sess, inc, labels).Some? && Undisturbed(labels)
    ensures var s := Run(sess, inc, labels).value;
            !s.cancelled && forall i | 0 <= i < |sess| :: SentInTurn(sess, s, i)
  {
    if |labels| > 0 {
      var before, l := labels[..|labels| - 1], labels[|labels| - 1];
      UndisturbedRunsSend(sess, inc, before);
      RunKeepsInv(sess, inc, before);
      var s := Run(sess, inc, before).value;
      var s' := Apply(sess, inc, s, l);
      forall i | 0 <= i < |sess| ensures SentInTurn(sess, s', i) {
        if i == l.i { SendingStep(sess, inc, s, i); } else { SentElsewhere(sess, s, s', i); }
      }
    }
  }

  /** An undisturbed run that cannot go on has finished every request of every instance
      that was to run. */
  lemma UndisturbedRunsFinish(sess: Session, inc: RoleFilter, labels: seq<Label>, i: nat, id: nat)
    requires Run(sess, inc, labels).Some? && Undisturbed(labels)
    requires !CanMove(sess, Run(sess, inc, labels).value)
    requires i < |sess| && ActionOf(sess, inc, i) != Drop && id in sess[i].requests && id != 0
    ensures id in Run(sess, inc, labels).value.ended && id in Run(sess, inc, labels).value.closed
  {
    var s := Run(sess, inc, labels).value;
    UndisturbedRunsSend(sess, inc, labels);
    EndedRunIsComplete(sess, inc, labels, i, id);
    RunKeepsInv(sess, inc, labels);
    NeverStuck(sess, inc, labels);
    assert PcOk(sess, inc, s, i) && SentInTurn(sess, s, i);
  }

  // ---- Closed at most once ----

  /** `reqs` brings p before any id: whoever works through it closes p with id still open. */
  predicate Brings(reqs: seq<nat>, p: nat, id: nat)
  {
    exists q :: 0 <= q < |reqs| && reqs[q] == p && id !in reqs[..q + 1]
  }

  /** Instance i can get going while the channel of `id` is open: it fires, or someone who
      can do so closes the channel it waits on first. At most n links of the chain. */
  ghost predicate CanStart(sess: Session, inc: RoleFilter, id: nat, i: nat, n: nat)
    requires i < |sess|
    decreases n
  {
    || ActionOf(sess, inc, i) == Fire
    || (&& ActionOf(sess, inc, i) == Wait && n > 0
        && exists k :: 0 <= k < |sess| && CanStart(sess, inc, id, k, n - 1) && Brings(sess[k].requests, sess[i].parentSpawn, id))
  }

  ghost predicate StartsBefore(sess: Session, inc: RoleFilter, id: nat, i: nat)
    requires i < |sess|
  {
    exists n: nat :: CanStart(sess, inc, id, i, n)
  }

  /** Two owners of one id can both get going before its channel is closed. */
  ghost predicate Race(sess: Session, inc: RoleFilter, id: nat, i: nat, j: nat)
  {
    && i < |sess| && j < |sess| && i != j
    && id != 0 && id in sess[i].requests && id in sess[j].requests
    && StartsBefore(sess, inc, id, i) && StartsBefore(sess, inc, id, j)
  }

  ghost predicate Races(sess: Session, inc: RoleFilter)
  {
    exists id, i, j :: Race(sess, inc, id, i, j)
  }

  predicate Started(pc: Pc)
  {
    !pc.NotRun? && !pc.Blocked? && !pc.Cancelled?
  }

  /** Someone who can get going before id brings p before it. */
  ghost predicate Brought(sess: Session, inc: RoleFilter, id: nat, p: nat)
  {
    exists k :: 0 <= k < |sess| && StartsBefore(sess, inc, id, k) && Brings(sess[k].requests, p, id)
  }

  /** While id is open, only those who can start before it have, and whatever is closed
      they closed. */
  ghost predicate OpenStory(sess: Session, inc: RoleFilter, s: State, id: nat)
    requires |s.pcs| == |sess|
  {
    && (forall i | 0 <= i < |sess| && Started(s.pcs[i]) :: StartsBefore(sess, inc, id, i))
    && (forall p | p in s.closed :: Brought(sess, inc, id, p))
  }

  ghost predicate OpenStories(sess: Session, inc: RoleFilter, s: State)
    requires |s.pcs| == |sess|
  {
    forall id | HasChannel(sess, inc, id) && id !in s.closed :: OpenStory(sess, inc, s, id)
  }

  lemma FiringStarts(sess: Session, inc: RoleFilter, id: nat, i: nat)
    requires i < |sess| && ActionOf(sess, inc, i) == Fire
    ensures StartsBefore(sess, inc, id, i)
  {
    assert CanStart(sess, inc, id, i, 0);
  }

  lemma WaiterStarts(sess: Session, inc: RoleFilter, id: nat, i: nat)
    requires i < |sess| && ActionOf(sess, inc, i) == Wait && Brought(sess, inc, id, sess[i].parentSpawn)
    ensures StartsBefore(sess, inc, id, i)
  {
    var k :| 0 <= k < |sess| && StartsBefore(sess, inc, id, k) && Brings(sess[k].requests, sess[i].parentSpawn, id);
    var n: nat :| CanStart(sess, inc, id, k, n);
    assert CanStart(sess, inc, id, i, n + 1);
  }

  /** What an instance closes with id open, it brings before id. */
  lemma CloserBrings(sess: Session, inc: RoleFilter, s: State, i: nat, id: nat)
    requires Inv(sess, inc, s) && i < |sess| && s.pcs[i].Closing? && HasChannel(sess, inc, id)
    requires id !in s.closed && s.pcs[i].t < |sess[i].requests| && id != sess[i].requests[s.pcs[i].t]
    ensures Brings(sess[i].requests, sess[i].requests[s.pcs[i].t], id)
  {
    assert PcOk(sess, inc, s, i);
    var t, reqs := s.pcs[i].t, sess[i].requests;
    var upTo := reqs[..t + 1];
    forall x | x in upTo ensures x != id {
      var j :| 0 <= j < t + 1 && reqs[j] == x;
    }
  }

  lemma StepKeepsStory(sess: Session, inc: RoleFilter, s: State, l: Label, id: nat)
    requires Inv(sess, inc, s) && Enabled(sess, s, l) && OpenStories(sess, inc, s)
    requires HasChannel(sess, inc, id) && id !in Apply(sess, inc, s, l).closed
    ensures OpenStory(sess, inc, Apply(sess, inc, s, l), id)
  {
    hide StartsBefore, Brought, ActionOf;
    var s' := Apply(sess, inc, s, l);
    assert OpenStory(sess, inc, s, id);
    if l.Move? {
      var i := l.i;
      assert PcOk(sess, inc, s, i);
      if s.pcs[i] == Blocked && l.choice == Proceed {
        BlockedWaits(sess, inc, s, i);
        WaiterStarts(sess, inc, id, i);
      }
      if s.pcs[i].Closing? {
        CloserBrings(sess, inc, s, i, id);
        BroughtBy(sess, inc, id, i, sess[i].requests[s.pcs[i].t]);
      }
    }
  }

  lemma BroughtBy(sess: Session, inc: RoleFilter, id: nat, k: nat, p: nat)
    requires k < |sess| && StartsBefore(sess, inc, id, k) && Brings(sess[k].requests, p, id)
    ensures Brought(sess, inc, id, p)
  {
  }

  lemma BlockedWaits(sess: Session, inc: RoleFilter, s: State, i: nat)
    requires Inv(sess, inc, s) && i < |sess| && s.pcs[i] == Blocked
    ensures ActionOf(sess, inc, i) == Wait
  {
    assert PcOk(sess, inc, s, i);
  }

  lemma InitStories(sess: Session, inc: RoleFilter)
    ensures OpenStories(sess, inc, Init(sess, inc))
  {
    var s := Init(sess, inc);
    forall id, i | HasChannel(sess, inc, id) && 0 <= i < |sess| && Started(s.pcs[i])
      ensures StartsBefore(sess, inc, id, i)
    {
      FiringStarts(sess, inc, id, i);
    }
  }

  /** A goroutine between closeOnce's look and its close finds the channel still open. */
  ghost predicate ClosesOpenChannels(sess: Session, s: State)
    requires |s.pcs| == |sess|
  {
    && !s.panicked
    && forall i | 0 <= i < |sess| && s.pcs[i].Closing? ::
         s.pcs[i].t < |sess[i].requests| && sess[i].requests[s.pcs[i].t] !in s.closed
  }

  /** Two instances never stand before the same close. */
  lemma ClosersDiffer(sess: Session, inc: RoleFilter, s: State, i: nat, j: nat)
    requires !Races(sess, inc) && Inv(sess, inc, s) && OpenStories(sess, inc, s) && ClosesOpenChannels(sess, s)
    requires i < |sess| && j < |sess| && i != j && s.pcs[i].Closing? && s.pcs[j].Closing?
    ensures sess[i].requests[s.pcs[i].t] != sess[j].requests[s.pcs[j].t]
  {
    assert PcOk(sess, inc, s, i) && PcOk(sess, inc, s, j);
    var id := sess[i].requests[s.pcs[i].t];
    assert OpenStory(sess, inc, s, id);
    assert !Race(sess, inc, id, i, j);
  }

  lemma StepClosesOpen(sess: Session, inc: RoleFilter, s: State, l: Label)
    requires !Races(sess, inc) && Inv(sess, inc, s) && Enabled(sess, s, l)
    requires OpenStories(sess, inc, s) && ClosesOpenChannels(sess, s)
    ensures ClosesOpenChannels(sess, Apply(sess, inc, s, l))
  {
    hide Races, OpenStories, ActionOf;
    var s' := Apply(sess, inc, s, l);
    forall i | 0 <= i < |sess| && s'.pcs[i].Closing?
      ensures s'.pcs[i].t < |sess[i].requests| && sess[i].requests[s'.pcs[i].t] !in s'.closed
    {
      if l.Move? && l.i != i && s.pcs[l.i].Closing? {
        ClosersDiffer(sess, inc, s, i, l.i);
      }
    }
  }

  /** Without a race no channel is ever closed twice, whatever the interleaving. */
  lemma {:induction false} NoDoubleClose(sess: Session, inc: RoleFilter, labels: seq<Label>)
    requires !Races(sess, inc) && Run(sess, inc, labels).Some?
    ensures OpenStories(sess, inc, Run(sess, inc, labels).value)
    ensures ClosesOpenChannels(sess, Run(sess, inc, labels).value)
  {
    if |labels| == 0 {
      InitStories(sess, inc);
    } else {
      hide Races;
      var before, l := labels[..|labels| - 1], labels[|labels| - 1];
      NoDoubleClose(sess, inc, before);
      RunKeepsInv(sess, inc, before);
      var s := Run(sess, inc, before).value;
      forall id | HasChannel(sess, inc, id) && id !in Apply(sess, inc, s, l).closed
        ensures OpenStory(sess, inc, Apply(sess, inc, s, l), id)
      {
        StepKeepsStory(sess, inc, s, l, id);
      }
      StepClosesOpen(sess, inc, s, l);
    }
  }

  // ---- A race double-closes ----

  /** A run in which every instance that started has left at once and stands in its sweep
      before its first `id`, whose channel is open. */
  ghost predicate Poised(sess: Session, inc: RoleFilter, labels: seq<Label>, s: State, id: nat)
  {
    && Run(sess, inc, labels) == Some(s) && id !in s.closed
    && forall i | 0 <= i < |sess| && Started(s.pcs[i]) :: StandsBefore(sess, s, id, i)
  }

  ghost predicate StandsBefore(sess: Session, s: State, id: nat, i: nat)
    requires |s.pcs| == |sess| && i < |sess|
  {
    match s.pcs[i]
    case Check(mode, t) => mode == Sweeping && t <= |sess[i].requests| && id !in sess[i].requests[..t]
    case Entry => true
    case _ => false
  }

  lemma RunExtends(sess: Session, inc: RoleFilter, labels: seq<Label>, l: Label, s: State)
    requires Run(sess, inc, labels) == Some(s) && Enabled(sess, s, l)
    ensures Run(sess, inc, labels + [l]) == Some(Apply(sess, inc, s, l))
  {
    assert (labels + [l])[..|labels|] == labels;
  }

  lemma Take(sess: Session, inc: RoleFilter, labels: seq<Label>, s: State, l: Label) returns (labels': seq<Label>, s': State)
    requires Run(sess, inc, labels) == Some(s) && Enabled(sess, s, l)
    ensures s' == Apply(sess, inc, s, l) && Run(sess, inc, labels') == Some(s')
  {
    RunExtends(sess, inc, labels, l, s);
    labels', s' := labels + [l], Apply(sess, inc, s, l);
  }

  /** Only instance i has moved, and nothing closed has opened. */
  ghost predicate Moved(s: State, s': State, i: nat)
  {
    && |s.pcs| == |s'.pcs| && i < |s.pcs| && s.closed <= s'.closed && s'.cancelled == s.cancelled
    && forall j | 0 <= j < |s.pcs| && j != i :: s'.pcs[j] == s.pcs[j]
  }

  lemma StillPoised(sess: Session, inc: RoleFilter, labels: seq<Label>, s: State, labels': seq<Label>, s': State, id: nat, i: nat)
    requires Poised(sess, inc, labels, s, id) && Run(sess, inc, labels') == Some(s')
    requires Moved(s, s', i) && id !in s'.closed && i < |sess| && StandsBefore(sess, s', id, i)
    ensures Poised(sess, inc, labels', s', id)
  {
    forall j | 0 <= j < |sess| && Started(s'.pcs[j]) ensures StandsBefore(sess, s', id, j) {
      if j != i {
        assert StandsBefore(sess, s, id, j);
      }
    }
  }

  /** A started instance sweeps up to position `to`, where id has not yet come. */
  lemma {:induction false} SweepTo(sess: Session, inc: RoleFilter, labels: seq<Label>, s: State, id: nat, i: nat, to: nat)
    returns (labels': seq<Label>, s': State)
    requires Poised(sess, inc, labels, s, id) && i < |sess| && Started(s.pcs[i])
    requires to <= |sess[i].requests| && id !in sess[i].requests[..to]
    ensures Poised(sess, inc, labels', s', id) && Moved(s, s', i)
    ensures s'.pcs[i].Check? && s'.pcs[i].mode == Sweeping && s'.pcs[i].t >= to
    ensures s'.pcs[i].t == if s.pcs[i].Check? && s.pcs[i].t > to then s.pcs[i].t else to
    decreases (if s.pcs[i] == Entry then 1 else 0), if s.pcs[i].Check? && s.pcs[i].t <= to then to - s.pcs[i].t else 0
  {
    assert StandsBefore(sess, s, id, i);
    if s.pcs[i].Check? && s.pcs[i].t >= to {
      labels', s' := labels, s;
    } else {
      labels', s' := OneFurther(sess, inc, labels, s, id, i, to);
      labels', s' := SweepTo(sess, inc, labels', s', id, i, to);
    }
  }

  lemma OneFurther(sess: Session, inc: RoleFilter, labels: seq<Label>, s: State, id: nat, i: nat, to: nat)
    returns (labels': seq<Label>, s': State)
    requires Poised(sess, inc, labels, s, id) && i < |sess| && Started(s.pcs[i])
    requires to <= |sess[i].requests| && id !in sess[i].requests[..to]
    requires s.pcs[i] == Entry || (s.pcs[i].Check? && s.pcs[i].t < to)
    ensures Poised(sess, inc, labels', s', id) && Moved(s, s', i)
    ensures s'.pcs[i] == Check(Sweeping, if s.pcs[i] == Entry then 0 else s.pcs[i].t + 1)
  {
    assert StandsBefore(sess, s, id, i);
    if s.pcs[i] == Entry {
      labels', s' := Take(sess, inc, labels, s, Move(i, Leave));
    } else {
      var t, reqs := s.pcs[i].t, sess[i].requests;
      assert reqs[..to][t] == reqs[t] && reqs[t] in reqs[..to];
      labels', s' := Take(sess, inc, labels, s, Move(i, Proceed));
      if s'.pcs[i].Closing? {
        labels', s' := Take(sess, inc, labels', s', Move(i, Proceed));
      }
      forall x | x in reqs[..t + 1] ensures x in reqs[..to] {
        var j :| 0 <= j < t + 1 && reqs[j] == x;
        assert reqs[..to][j] == x;
      }
    }
    StillPoised(sess, inc, labels, s, labels', s', id, i);
  }

  /** Whoever can start before id is closed can be started with everyone still poised. */
  lemma {:induction false} StartUp(sess: Session, inc: RoleFilter, labels: seq<Label>, s: State, id: nat, i: nat, n: nat)
    returns (labels': seq<Label>, s': State)
    requires Poised(sess, inc, labels, s, id) && i < |sess| && CanStart(sess, inc, id, i, n) && !s.cancelled
    ensures Poised(sess, inc, labels', s', id) && Started(s'.pcs[i]) && !s'.cancelled
    ensures forall j | 0 <= j < |sess| && Started(s.pcs[j]) :: Started(s'.pcs[j])
    decreases n
  {
    RunKeepsInv(sess, inc, labels);
    assert PcOk(sess, inc, s, i);
    if Started(s.pcs[i]) {
      labels', s' := labels, s;
    } else {
      var k :| 0 <= k < |sess| && CanStart(sess, inc, id, k, n - 1) && Brings(sess[k].requests, sess[i].parentSpawn, id);
      labels', s' := StartUp(sess, inc, labels, s, id, k, n - 1);
      labels', s' := Unblock(sess, inc, labels', s', id, i, k);
    }
  }

  /** Once k has swept past the request i waits on, i can start. */
  lemma Unblock(sess: Session, inc: RoleFilter, labels: seq<Label>, s: State, id: nat, i: nat, k: nat)
    returns (labels': seq<Label>, s': State)
    requires Poised(sess, inc, labels, s, id) && i < |sess| && k < |sess| && !s.cancelled
    requires Started(s.pcs[k]) && ActionOf(sess, inc, i) == Wait && Brings(sess[k].requests, sess[i].parentSpawn, id)
    ensures Poised(sess, inc, labels', s', id) && Started(s'.pcs[i]) && !s'.cancelled
    ensures forall j | 0 <= j < |sess| && Started(s.pcs[j]) :: Started(s'.pcs[j])
  {
    var p := sess[i].parentSpawn;
    var q :| 0 <= q < |sess[k].requests| && sess[k].requests[q] == p && id !in sess[k].requests[..q + 1];
    labels', s' := SweepTo(sess, inc, labels, s, id, k, q + 1);
    RunKeepsInv(sess, inc, labels');
    SweptIsClosed(sess, inc, s', k, q);
    assert PcOk(sess, inc, s', i);
    if s'.pcs[i] == Blocked {
      ghost var was := s';
      labels', s' := Take(sess, inc, labels', s', Move(i, Proceed));
    }
  }

  lemma SweptIsClosed(sess: Session, inc: RoleFilter, s: State, k: nat, q: nat)
    requires Inv(sess, inc, s) && k < |sess| && s.pcs[k].Check? && q < s.pcs[k].t <= |sess[k].requests|
    requires sess[k].requests[q] != 0
    ensures sess[k].requests[q] in s.closed
  {
    assert PcOk(sess, inc, s, k);
    assert sess[k].requests[q] in sess[k].requests;
    assert HasChannel(sess, inc, sess[k].requests[q]);
  }

  /** The first position of an id. */
  lemma {:induction false} FirstAt(reqs: seq<nat>, id: nat) returns (f: nat)
    requires id in reqs
    ensures f < |reqs| && reqs[f] == id && id !in reqs[..f]
  {
    if reqs[0] == id {
      f := 0;
    } else {
      f := FirstAt(reqs[1..], id);
      f := f + 1;
      assert reqs[..f] == [reqs[0]] + reqs[1..][..f - 1];
    }
  }

  lemma BeforeFirst(sess: Session, s: State, id: nat, i: nat, f: nat)
    requires |s.pcs| == |sess| && i < |sess| && StandsBefore(sess, s, id, i) && s.pcs[i].Check? && s.pcs[i].t >= f
    requires f < |sess[i].requests| && sess[i].requests[f] == id
    ensures s.pcs[i] == Check(Sweeping, f)
  {
    var t, reqs := s.pcs[i].t, sess[i].requests;
    forall k | 0 <= k < t ensures reqs[k] != id {
      assert reqs[..t][k] == reqs[k];
    }
  }

  lemma BothClose(sess: Session, inc: RoleFilter, labels0: seq<Label>, s0: State, id: nat, i: nat, f: nat, j: nat, g: nat)
    returns (labels: seq<Label>)
    requires Run(sess, inc, labels0) == Some(s0) && i < |sess| && j < |sess| && i != j
    requires s0.pcs[i] == Check(Sweeping, f) && f < |sess[i].requests| && sess[i].requests[f] == id
    requires s0.pcs[j] == Check(Sweeping, g) && g < |sess[j].requests| && sess[j].requests[g] == id
    requires HasChannel(sess, inc, id) && id !in s0.closed
    ensures Run(sess, inc, labels).Some? && Run(sess, inc, labels).value.panicked
  {
    var s;
    labels, s := Take(sess, inc, labels0, s0, Move(i, Proceed));
    labels, s := Take(sess, inc, labels, s, Move(j, Proceed));
    labels, s := Take(sess, inc, labels, s, Move(i, Proceed));
    labels, s := Take(sess, inc, labels, s, Move(j, Proceed));
  }

  /** Every race is run by some interleaving: both owners start, sweep up to the id, look at
      its open channel, and close it, one after the other. */
  lemma RaceDoubleCloses(sess: Session, inc: RoleFilter, id: nat, i: nat, j: nat) returns (labels: seq<Label>)
    requires Race(sess, inc, id, i, j)
    ensures Run(sess, inc, labels).Some? && Run(sess, inc, labels).value.panicked
  {
    var s := Init(sess, inc);
    labels := [];
    forall k | 0 <= k < |sess| && Started(s.pcs[k]) ensures StandsBefore(sess, s, id, k) {
    }
    var n: nat :| CanStart(sess, inc, id, i, n);
    var m: nat :| CanStart(sess, inc, id, j, m);
    labels, s := StartUp(sess, inc, labels, s, id, i, n);
    labels, s := StartUp(sess, inc, labels, s, id, j, m);
    var f := FirstAt(sess[i].requests, id);
    var g := FirstAt(sess[j].requests, id);
    labels, s := SweepTo(sess, inc, labels, s, id, i, f);
    BeforeFirst(sess, s, id, i, f);
    labels, s := SweepTo(sess, inc, labels, s, id, j, g);
    BeforeFirst(sess, s, id, j, g);
    labels := BothClose(sess, inc, labels, s, id, i, f, j, g);
  }

  /** A channel can be closed twice exactly when two owners of its id can both get going
      while it is open. */
  lemma DoubleCloseIffRace(sess: Session, inc: RoleFilter)
    ensures (exists labels :: Run(sess, inc, labels).Some? && Run(sess, inc, labels).value.panicked) <==> Races(sess, inc)
  {
    if Races(sess, inc) {
      var id, i, j :| Race(sess, inc, id, i, j);
      var labels := RaceDoubleCloses(sess, inc, id, i, j);
    } else {
      forall labels | Run(sess, inc, labels).Some? ensures !Run(sess, inc, labels).value.panicked {
        NoDoubleClose(sess, inc, labels);
      }
    }
  }

  /** No request id belongs to two instances. */
  predicate UniqueOwners(sess: Session)
  {
    forall i, j | 0 <= i < j < |sess| ::
      forall id | id in sess[i].requests && id in sess[j].requests :: id == 0
  }

  lemma UniqueOwnersNeverRace(sess: Session, inc: RoleFilter)
    requires UniqueOwners(sess)
    ensures !Races(sess, inc)
  {
  }

  /** Two firing owners of one id always race. */
  lemma FiringOwnersRace(sess: Session, inc: RoleFilter, id: nat, i: nat, j: nat)
    requires i < |sess| && j < |sess| && i != j && id != 0 && id in sess[i].requests && id in sess[j].requests
    requires ActionOf(sess, inc, i) == Fire && ActionOf(sess, inc, j) == Fire
    ensures Race(sess, inc, id, i, j)
  {
    FiringStarts(sess, inc, id, i);
    FiringStarts(sess, inc, id, j);
  }

  /** A child that shares the very id it waits on never races for it. */
  lemma ChildOfTheIdNeverRaces(sess: Session, inc: RoleFilter, i: nat, j: nat)
    requires i < |sess| && j < |sess| && ActionOf(sess, inc, i) == Wait
    ensures !Race(sess, inc, sess[i].parentSpawn, i, j)
  {
    var id := sess[i].parentSpawn;
    forall n: nat ensures !CanStart(sess, inc, id, i, n) {
      NobodyBringsItself(sess, id);
    }
  }

  lemma NobodyBringsItself(sess: Session, id: nat)
    ensures forall k | 0 <= k < |sess| :: !Brings(sess[k].requests, id, id)
  {
    forall k, q | 0 <= k < |sess| && 0 <= q < |sess[k].requests| && sess[k].requests[q] == id
      ensures id in sess[k].requests[..q + 1]
    {
      assert sess[k].requests[..q + 1][q] == id;
    }
  }
}
