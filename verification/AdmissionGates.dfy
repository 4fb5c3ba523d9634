/** The admission gate exists twice: admitSeries (replay_realtime.go) governs a real run,
    and SimulateDataset (dataset_sim.go) carries a copy that clears `blocked` elsewhere. */
module AdmissionGates {

  /** Open intervals in a row before admission resumes after a block. */
  const UNBLOCK_INTERVALS := 3

  datatype Config = Config(admitCount: int, maxSeries: int)

  datatype Gate = Gate(sustained: bool, blocked: bool, good: nat)

  const FreshGate := Gate(true, false, 0)

  /** What one interval brings: the gate's samples, its state at the tick, and the slots
      running then. */
  datatype Interval = Interval(samples: seq<bool>, tick: bool, running: int)

  predicate Open(iv: Interval)
  {
    (forall k | 0 <= k < |iv.samples| :: iv.samples[k]) && iv.tick
  }

  function Sampled(g: Gate, samples: seq<bool>): Gate
  {
    if |samples| == 0 then g
    else
      var before := Sampled(g, samples[..|samples| - 1]);
      if samples[|samples| - 1] then before else before.(sustained := false)
  }

  function Batch(cfg: Config, running: int): int
  {
    var count := if cfg.admitCount > 1 then cfg.admitCount else 1;
    if cfg.maxSeries > 0 && cfg.maxSeries - running < count then cfg.maxSeries - running else count
  }

  function Counted(g: Gate, open: bool): Gate
  {
    if open then Gate(true, g.blocked, g.good + 1) else Gate(true, true, 0)
  }

  predicate Full(cfg: Config, running: int)
  {
    cfg.maxSeries > 0 && running >= cfg.maxSeries
  }

  /** admitSeries at a tick: (gate, slots to spawn). `blocked` is cleared only when a
      batch is admitted. */
  function LiveTick(cfg: Config, g: Gate, open: bool, running: int): (r: (Gate, int))
  {
    var c := Counted(g, open);
    if Full(cfg, running) || !open || (c.blocked && c.good < UNBLOCK_INTERVALS) then (c, 0)
    else (c.(blocked := false), Batch(cfg, running))
  }

  /** SimulateDataset at a tick: `blocked` is cleared as soon as the third open interval
      is in, whether or not anything can be admitted. */
  function SimTick(cfg: Config, g: Gate, open: bool, running: int): (r: (Gate, int))
  {
    var c := Counted(g, open);
    var u := if open && c.blocked && c.good >= UNBLOCK_INTERVALS then c.(blocked := false) else c;
    if open && !u.blocked && !Full(cfg, running) then (u, Batch(cfg, running)) else (u, 0)
  }

  // ---- The two gates as the code runs them ----

  datatype Outcome = Spawn(count: nat) | Hold | Capped

  /** The loop of admitSeries; each case of its select is a method. */
  class SeriesAdmitter {
    const cfg: Config
    const realtime: bool
    const retire: bool
    var sustained: bool
    var blocked: bool
    var good: nat
    var next: int

    ghost function State(): Gate
      reads this
    {
      Gate(sustained, blocked, good)
    }

    constructor (cfg: Config, realtime: bool, retire: bool, startSeries: int)
      ensures this.cfg == cfg && this.realtime == realtime && this.retire == retire
      ensures State() == FreshGate && next == startSeries
    {
      this.cfg, this.realtime, this.retire := cfg, realtime, retire;
      sustained, blocked, good, next := true, false, 0, startSeries;
    }

    method Sample(open: bool)
      modifies this`sustained
      ensures State() == Sampled(old(State()), [open])
    {
      if !open {
        sustained := false;
      }
      assert [open][..0] == [];
    }

    /** The admission tick. `active` is how many slots still run; without retirement the
        number ever spawned stands in for it. */
    method Tick(tickOpen: bool, active: int) returns (r: Outcome)
      modifies this
      ensures var running := if retire then active else old(next);
              var open := !realtime || (old(sustained) && tickOpen);
              && State() == LiveTick(cfg, old(State()), open, running).0
              && (r.Capped? <==> !retire && Full(cfg, running))
              && (r.Spawn? <==> LiveTick(cfg, old(State()), open, running).1 > 0)
              && (r.Spawn? ==> r.count == LiveTick(cfg, old(State()), open, running).1)
              && next == old(next) + (if r.Spawn? then r.count else 0)
    {
      var open := !realtime || (sustained && tickOpen);
      sustained := true;
      if open {
        good := good + 1;
      } else {
        good, blocked := 0, true;
      }
      var running := next;
      if retire {
        running := active;
      }
      if cfg.maxSeries > 0 && running >= cfg.maxSeries {
        return if retire then Hold else Capped;
      }
      if !open || (blocked && good < UNBLOCK_INTERVALS) {
        return Hold;
      }
      blocked := false;
      var count := if cfg.admitCount > 1 then cfg.admitCount else 1;
      if cfg.maxSeries > 0 && cfg.maxSeries - running < count {
        count := cfg.maxSeries - running;
      }
      next := next + count;
      r := Spawn(count);
    }
  }

  /** The gate part of SimulateDataset's event loop. */
  class DatasetGate {
    const cfg: Config
    var sustained: bool
    var blocked: bool
    var good: nat

    ghost function State(): Gate
      reads this
    {
      Gate(sustained, blocked, good)
    }

    constructor (cfg: Config)
      ensures this.cfg == cfg && State() == FreshGate
    {
      this.cfg := cfg;
      sustained, blocked, good := true, false, 0;
    }

    method Sample(under: bool)
      modifies this`sustained
      ensures State() == Sampled(old(State()), [under])
    {
      if !under {
        sustained := false;
      }
      assert [under][..0] == [];
    }

    method Tick(under: bool, live: int) returns (count: int)
      modifies this
      ensures (State(), count) == SimTick(cfg, old(State()), old(sustained) && under, live)
    {
      var open := sustained && under;
      sustained := true;
      if open {
        good := good + 1;
      } else {
        good, blocked := 0, true;
      }
      if open && blocked && good >= UNBLOCK_INTERVALS {
        blocked := false;
      }
      count := 0;
      if open && !blocked && (cfg.maxSeries <= 0 || live < cfg.maxSeries) {
        count := if cfg.admitCount > 1 then cfg.admitCount else 1;
        if cfg.maxSeries > 0 && cfg.maxSeries - live < count {
          count := cfg.maxSeries - live;
        }
      }
    }
  }

  // ---- Whole runs ----

  lemma {:induction false} SampledMeansAllOpen(g: Gate, samples: seq<bool>)
    ensures Sampled(g, samples) == g.(sustained := g.sustained && forall k | 0 <= k < |samples| :: samples[k])
  {
    if |samples| > 0 {
      SampledMeansAllOpen(g, samples[..|samples| - 1]);
      var before := samples[..|samples| - 1];
      assert forall k | 0 <= k < |before| :: before[k] == samples[k];
    }
  }

  /** An interval through the live gate: its samples, then its tick. */
  function LiveInterval(cfg: Config, g: Gate, iv: Interval): (Gate, int)
  {
    var s := Sampled(g, iv.samples);
    LiveTick(cfg, s, s.sustained && iv.tick, iv.running)
  }

  function SimInterval(cfg: Config, g: Gate, iv: Interval): (Gate, int)
  {
    var s := Sampled(g, iv.samples);
    SimTick(cfg, s, s.sustained && iv.tick, iv.running)
  }

  function LiveRun(cfg: Config, ivs: seq<Interval>): (r: (Gate, seq<int>))
    ensures |r.1| == |ivs|
  {
    if |ivs| == 0 then (FreshGate, [])
    else
      var before := LiveRun(cfg, ivs[..|ivs| - 1]);
      var r := LiveInterval(cfg, before.0, ivs[|ivs| - 1]);
      (r.0, before.1 + [r.1])
  }

  function SimRun(cfg: Config, ivs: seq<Interval>): (r: (Gate, seq<int>))
    ensures |r.1| == |ivs|
  {
    if |ivs| == 0 then (FreshGate, [])
    else
      var before := SimRun(cfg, ivs[..|ivs| - 1]);
      var r := SimInterval(cfg, before.0, ivs[|ivs| - 1]);
      (r.0, before.1 + [r.1])
  }

  // ---- When may a batch go out: a definition without any gate state ----

  predicate AllOpen(ivs: seq<Interval>, from: nat)
    requires from <= |ivs|
  {
    forall k | from <= k < |ivs| :: Open(ivs[k])
  }

  /** At the end of these intervals: either the gate has never been closed, or the last
      UNBLOCK_INTERVALS of them were open. */
  predicate MayAdmit(ivs: seq<Interval>)
  {
    |ivs| > 0 && (AllOpen(ivs, 0) || (|ivs| >= UNBLOCK_INTERVALS && AllOpen(ivs, |ivs| - UNBLOCK_INTERVALS)))
  }

  function Due(cfg: Config, ivs: seq<Interval>): int
    requires |ivs| > 0
  {
    var last := ivs[|ivs| - 1];
    if MayAdmit(ivs) && !Full(cfg, last.running) then Batch(cfg, last.running) else 0
  }

  /** How many of the latest intervals were open. */
  function OpenStreak(ivs: seq<Interval>): (n: nat)
    ensures n <= |ivs| && AllOpen(ivs, |ivs| - n) && (n < |ivs| ==> !Open(ivs[|ivs| - n - 1]))
  {
    if |ivs| == 0 || !Open(ivs[|ivs| - 1]) then 0
    else
      var n := OpenStreak(ivs[..|ivs| - 1]);
      assert forall k | |ivs| - n - 1 <= k < |ivs| - 1 :: ivs[k] == ivs[..|ivs| - 1][k];
      n + 1
  }

  lemma StreakDecides(ivs: seq<Interval>)
    requires |ivs| > 0
    ensures MayAdmit(ivs) <==> OpenStreak(ivs) == |ivs| || OpenStreak(ivs) >= UNBLOCK_INTERVALS
  {
    var n := OpenStreak(ivs);
    if n < |ivs| { assert !Open(ivs[|ivs| - n - 1]); }
  }

  /** Both gates' states, and their latest decision, in terms of the intervals alone. */
  lemma {:induction false} GatesAreDetermined(cfg: Config, ivs: seq<Interval>)
    ensures var live, sim, n := LiveRun(cfg, ivs).0, SimRun(cfg, ivs).0, OpenStreak(ivs);
            && live.sustained && sim.sustained && live.good == sim.good == n
            && (sim.blocked <==> n < |ivs| && n < UNBLOCK_INTERVALS)
            && (live.blocked ==> n < |ivs|)
            && (n < |ivs| && n < UNBLOCK_INTERVALS ==> live.blocked)
    ensures |ivs| > 0 ==> LiveRun(cfg, ivs).1[|ivs| - 1] == SimRun(cfg, ivs).1[|ivs| - 1] == Due(cfg, ivs)
  {
    if |ivs| > 0 {
      var before, last := ivs[..|ivs| - 1], ivs[|ivs| - 1];
      GatesAreDetermined(cfg, before);
      SampledMeansAllOpen(LiveRun(cfg, before).0, last.samples);
      SampledMeansAllOpen(SimRun(cfg, before).0, last.samples);
      StreakDecides(ivs);
    }
  }

  /** A closed interval with no batch due since. */
  ghost predicate ClosedSince(cfg: Config, ivs: seq<Interval>, k: nat)
  {
    k < |ivs| && !Open(ivs[k]) && NothingDueAfter(cfg, ivs, k)
  }

  ghost predicate NothingDueAfter(cfg: Config, ivs: seq<Interval>, k: nat)
  {
    forall j: nat | k < j < |ivs| :: NothingDueAt(cfg, ivs, j)
  }

  ghost predicate NothingDueAt(cfg: Config, ivs: seq<Interval>, j: nat)
    requires j < |ivs|
  {
    Due(cfg, ivs[..j + 1]) == 0
  }

  lemma ClosedSinceStep(cfg: Config, ivs: seq<Interval>, k: nat)
    requires |ivs| > 0
    ensures var n := |ivs| - 1;
            ClosedSince(cfg, ivs, k) <==> (k == n && !Open(ivs[n])) || (k < n && ClosedSince(cfg, ivs[..n], k) && Due(cfg, ivs) == 0)
  {
    var n := |ivs| - 1;
    assert ivs[..n + 1] == ivs;
    var before := ivs[..n];
    forall j: nat | j < n ensures NothingDueAt(cfg, ivs, j) <==> NothingDueAt(cfg, before, j) {
      assert before[..j + 1] == ivs[..j + 1];
    }
    assert NothingDueAt(cfg, ivs, n) <==> Due(cfg, ivs) == 0;
    if k < n {
      assert NothingDueAfter(cfg, ivs, k) <==> NothingDueAfter(cfg, before, k) && NothingDueAt(cfg, ivs, n);
    }
  }

  /** The live gate is blocked exactly when an interval was closed and no batch has been
      due since. */
  lemma {:induction false} LiveBlockedIffNothingDue(cfg: Config, ivs: seq<Interval>)
    ensures LiveRun(cfg, ivs).0.blocked <==> exists k: nat :: ClosedSince(cfg, ivs, k)
  {
    if |ivs| > 0 {
      var n := |ivs| - 1;
      var before, last := ivs[..n], ivs[n];
      LiveBlockedIffNothingDue(cfg, before);
      GatesAreDetermined(cfg, ivs);
      LiveBlockedStep(cfg, ivs);
      forall k: nat ensures ClosedSince(cfg, ivs, k)
        <==> (k == n && !Open(last)) || (k < n && ClosedSince(cfg, before, k) && Due(cfg, ivs) == 0)
      {
        ClosedSinceStep(cfg, ivs, k);
      }
      assert ClosedSince(cfg, ivs, n) <==> !Open(last);
    }
  }

  lemma LiveBlockedStep(cfg: Config, ivs: seq<Interval>)
    requires |ivs| > 0
    ensures LiveRun(cfg, ivs).0.blocked
       <==> !Open(ivs[|ivs| - 1]) || (LiveRun(cfg, ivs[..|ivs| - 1]).0.blocked && Due(cfg, ivs) == 0)
  {
    var before, last := ivs[..|ivs| - 1], ivs[|ivs| - 1];
    GatesAreDetermined(cfg, before);
    GatesAreDetermined(cfg, ivs);
    SampledMeansAllOpen(LiveRun(cfg, before).0, last.samples);
  }

  /** With room, a batch is as large as the count asks for and the cap allows, and at least
      one slot. */
  lemma BatchIsAllThatFits(cfg: Config, running: int)
    requires !Full(cfg, running)
    ensures var n := Batch(cfg, running);
            && 1 <= n && (n <= cfg.admitCount || n == 1)
            && (cfg.maxSeries > 0 ==> running + n <= cfg.maxSeries)
            && (n >= cfg.admitCount || (cfg.maxSeries > 0 && running + n == cfg.maxSeries))
  {
  }

  /** Fed the same signals, the two gates admit the same batches at the same ticks,
      though they unblock at different moments. */
  lemma {:induction false} SameBatches(cfg: Config, ivs: seq<Interval>)
    ensures LiveRun(cfg, ivs).1 == SimRun(cfg, ivs).1
    ensures forall k | 0 <= k < |ivs| :: LiveRun(cfg, ivs).1[k] == Due(cfg, ivs[..k + 1])
  {
    GatesAreDetermined(cfg, ivs);
    if |ivs| > 0 {
      var before := ivs[..|ivs| - 1];
      SameBatches(cfg, before);
      forall k | 0 <= k < |ivs| ensures LiveRun(cfg, ivs).1[k] == Due(cfg, ivs[..k + 1]) {
        if k < |before| { assert before[..k + 1] == ivs[..k + 1]; } else { assert ivs[..k + 1] == ivs; }
      }
    }
  }

  /** They do differ inside: a full pool keeps the live gate blocked where the copy is not. */
  lemma UnblockedAtDifferentMoments()
    ensures exists cfg, ivs :: LiveRun(cfg, ivs).0.blocked && !SimRun(cfg, ivs).0.blocked
  {
    var cfg, shut, open := Config(1, 1), Interval([], false, 1), Interval([], true, 1);
    var ivs := [shut, open, open, open];
    GatesAreDetermined(cfg, ivs[..1]);
    assert ivs[..4][..3] == ivs[..3] && ivs[..3][..2] == ivs[..2] && ivs[..2][..1] == ivs[..1] && ivs == ivs[..4];
    assert LiveRun(cfg, ivs[..1]).0 == LiveTick(cfg, LiveRun(cfg, ivs[..1][..0]).0, false, 1).0;
    assert LiveRun(cfg, ivs[..1]).0.blocked;
    assert LiveRun(cfg, ivs[..2]).0.blocked;
    assert LiveRun(cfg, ivs[..3]).0.blocked;
    assert LiveRun(cfg, ivs[..4]).0.blocked;
    GatesAreDetermined(cfg, ivs);
    StreakDecides(ivs);
    assert OpenStreak(ivs) == 3 by {
      assert OpenStreak(ivs[..1]) == 0;
      assert OpenStreak(ivs[..2]) == 1;
      assert OpenStreak(ivs[..3]) == 2;
    }
  }

  /** After a closed interval nothing is admitted until three open ones in a row. */
  lemma BlockedUntilThreeOpen(cfg: Config, ivs: seq<Interval>, closed: nat, k: nat)
    requires closed <= k < |ivs| && !Open(ivs[closed])
    requires LiveRun(cfg, ivs).1[k] != 0 || SimRun(cfg, ivs).1[k] != 0
    ensures closed + UNBLOCK_INTERVALS <= k
    ensures Open(ivs[k]) && Open(ivs[k - 1]) && Open(ivs[k - 2])
  {
    SameBatches(cfg, ivs);
    assert ivs[..k + 1][closed] == ivs[closed];
    assert MayAdmit(ivs[..k + 1]);
    assert forall j | k - 2 <= j <= k :: ivs[..k + 1][j] == ivs[j];
  }

  // ---- The cap ----

  /** A run whose slots evolve as they do: between ticks some end, at ticks a batch starts. */
  ghost predicate Evolves(cfg: Config, ivs: seq<Interval>, start: int)
  {
    |ivs| > 0 ==>
      && ivs[0].running <= start
      && forall k | 0 < k < |ivs| :: ivs[k].running <= ivs[k - 1].running + Due(cfg, ivs[..k])
  }

  /** The active slots never exceed a positive cap, before or after any tick. */
  lemma {:induction false} NeverOverCap(cfg: Config, ivs: seq<Interval>, start: int, k: nat)
    requires cfg.maxSeries > 0 && start <= cfg.maxSeries && Evolves(cfg, ivs, start) && k < |ivs|
    ensures ivs[k].running <= cfg.maxSeries
    ensures ivs[k].running + LiveRun(cfg, ivs).1[k] <= cfg.maxSeries
    ensures ivs[k].running + SimRun(cfg, ivs).1[k] <= cfg.maxSeries
  {
    SameBatches(cfg, ivs);
    if k > 0 { NeverOverCap(cfg, ivs, start, k - 1); }
  }

  /** Where slots only grow, admitSeries stops at the cap for good; the copy, which keeps
      ticking, admits nothing from there on either. */
  lemma {:induction false} CappedIsForGood(cfg: Config, ivs: seq<Interval>, k: nat, j: nat)
    requires k <= j < |ivs| && Full(cfg, ivs[k].running)
    requires forall i | k < i <= j :: ivs[i - 1].running <= ivs[i].running
    ensures Full(cfg, ivs[j].running) && LiveRun(cfg, ivs).1[j] == SimRun(cfg, ivs).1[j] == 0
    decreases j
  {
    SameBatches(cfg, ivs);
    if k < j { CappedIsForGood(cfg, ivs, k, j - 1); }
  }
}
