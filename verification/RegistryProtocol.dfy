/** Every interleaving of sessions acquiring and releasing markers. The read-locked pass
    of Acquire is taken marker by marker, since other readers run alongside it. */
module RegistryProtocol {
  import opened Options
  import opened Sets
  import opened UuidRegistries

  /** Where a session's Acquire stands. A session not in the table holds nothing. */
  datatype Phase =
    | Entered                                             // counted as live
    | Reading(todo: set<Marker>, missing: set<Marker>)    // inside the read lock
    | Missing(missing: set<Marker>)                       // between the two locks
    | Holding                                             // Acquire has returned

  datatype State = State(
    m: map<Marker, int>,
    phase: map<nat, Phase>,
    liveSessions: int, peakSessions: int, peak: nat,
    widest: nat, most: int)    // the largest the live set, and the session count, ever were

  /** The distinct markers each session brings; a session without any never gets here. */
  type Markers = nat -> set<Marker>

  datatype Label =
    | Begin(s: nat)
    | StartRead(s: nat)
    | ReadOne(s: nat, u: Marker)
    | EndRead(s: nat)
    | Write(s: nat)
    | Release(s: nat)

  function Init(): State
  {
    State(map[], map[], 0, 0, 0, 0, 0)
  }

  /** A writer waits for the readers to finish. */
  predicate NoReaders(st: State)
  {
    forall s | s in st.phase :: !st.phase[s].Reading?
  }

  predicate Enabled(mk: Markers, st: State, l: Label)
  {
    match l
    case Begin(s) => s !in st.phase && mk(s) != {} && NoReaders(st)
    case StartRead(s) => s in st.phase && st.phase[s].Entered?
    case ReadOne(s, u) => s in st.phase && st.phase[s].Reading? && u in st.phase[s].todo
    case EndRead(s) => s in st.phase && st.phase[s].Reading? && st.phase[s].todo == {}
    case Write(s) => s in st.phase && st.phase[s].Missing? && NoReaders(st)
    case Release(s) => s in st.phase && st.phase[s].Holding? && NoReaders(st)
  }

  function Larger(a: int, b: int): int { if a > b then a else b }

  function Begun(st: State, s: nat): State
  {
    var live := st.liveSessions + 1;
    st.(phase := st.phase[s := Entered], liveSessions := live,
        peakSessions := Larger(live, st.peakSessions), most := Larger(live, st.most))
  }

  function ReadNext(st: State, s: nat, u: Marker): State
    requires s in st.phase && st.phase[s].Reading?
  {
    var r := st.phase[s];
    if u in st.m
    then st.(m := HeldIfKnown(st.m, {u}), phase := st.phase[s := Reading(r.todo - {u}, r.missing)])
    else st.(phase := st.phase[s := Reading(r.todo - {u}, r.missing + {u})])
  }

  function Written(st: State, s: nat): State
    requires s in st.phase && st.phase[s].Missing?
  {
    var m := Held(st.m, st.phase[s].missing);
    st.(m := m, phase := st.phase[s := Holding],
        peak := if |m| > st.peak then |m| else st.peak,
        widest := if |m| > st.widest then |m| else st.widest)
  }

  function Released(mk: Markers, st: State, s: nat): State
  {
    var m := Unheld(st.m, mk(s));
    st.(m := m, phase := st.phase - {s}, liveSessions := st.liveSessions - 1,
        widest := if |m| > st.widest then |m| else st.widest)
  }

  function Apply(mk: Markers, st: State, l: Label): State
    requires Enabled(mk, st, l)
  {
    match l
    case Begin(s) => Begun(st, s)
    case StartRead(s) => st.(phase := st.phase[s := Reading(mk(s), {})])
    case ReadOne(s, u) => ReadNext(st, s, u)
    case EndRead(s) =>
      st.(phase := st.phase[s := if st.phase[s].missing == {} then Holding else Missing(st.phase[s].missing)])
    case Write(s) => Written(st, s)
    case Release(s) => Released(mk, st, s)
  }

  ghost function Run(mk: Markers, labels: seq<Label>): Option<State>
  {
    if |labels| == 0 then Some(Init())
    else
      var before := Run(mk, labels[..|labels| - 1]);
      if before.Some? && Enabled(mk, before.value, labels[|labels| - 1])
      then Some(Apply(mk, before.value, labels[|labels| - 1]))
      else None
  }

  // ---- Who holds a marker ----

  /** The markers a session has counted so far. */
  function Counted(mk: Markers, p: Phase, s: nat): set<Marker>
  {
    match p
    case Entered => {}
    case Reading(todo, missing) => mk(s) - todo - missing
    case Missing(missing) => mk(s) - missing
    case Holding => mk(s)
  }

  function HoldersOf(mk: Markers, phase: map<nat, Phase>, u: Marker): set<nat>
  {
    set s | s in phase && u in Counted(mk, phase[s], s)
  }

  predicate PhaseOk(mk: Markers, p: Phase, s: nat)
  {
    match p
    case Reading(todo, missing) => todo + missing <= mk(s) && todo !! missing
    case Missing(missing) => missing <= mk(s)
    case _ => true
  }

  /** A marker's count is the number of sessions that have counted it, and it has an
      entry exactly when that number is positive. */
  ghost predicate Exact(mk: Markers, m: map<Marker, int>, phase: map<nat, Phase>)
  {
    forall u :: Count(m, u) == |HoldersOf(mk, phase, u)| && (u in m <==> HoldersOf(mk, phase, u) != {})
  }

  ghost predicate Inv(mk: Markers, st: State)
  {
    && Exact(mk, st.m, st.phase)
    && (forall s | s in st.phase :: PhaseOk(mk, st.phase[s], s))
    && st.liveSessions == |st.phase|
    && st.peakSessions == st.most >= st.liveSessions
    && st.peak == st.widest >= |st.m|
  }

  /** Moving one session changes the holders of just the markers it gained or lost. */
  lemma HoldersAfter(mk: Markers, phase: map<nat, Phase>, s: nat, p: Phase, u: Marker)
    ensures var was := s in phase && u in Counted(mk, phase[s], s);
            var isNow := u in Counted(mk, p, s);
            var before, after := HoldersOf(mk, phase, u), HoldersOf(mk, phase[s := p], u);
            && after == (if isNow then before + {s} else before - {s}) && (s in before <==> was)
            && |after| == |before| + (if isNow && !was then 1 else 0) - (if was && !isNow then 1 else 0)
  {
    var before, after := HoldersOf(mk, phase, u), HoldersOf(mk, phase[s := p], u);
    assert after == if u in Counted(mk, p, s) then before + {s} else before - {s};
  }

  /** No marker changes hands: the counts stay exact. */
  lemma SameCounts(mk: Markers, st: State, s: nat, p: Phase)
    requires Inv(mk, st)
    requires Counted(mk, p, s) == if s in st.phase then Counted(mk, st.phase[s], s) else {}
    ensures Exact(mk, st.m, st.phase[s := p])
  {
    hide HoldersOf, Counted, PhaseOk;
    forall u ensures HoldersOf(mk, st.phase[s := p], u) == HoldersOf(mk, st.phase, u) {
      HoldersAfter(mk, st.phase, s, p, u);
    }
  }

  /** The session gains exactly `us`, and each of them one count. */
  lemma GainKeepsExact(mk: Markers, st: State, s: nat, p: Phase, us: set<Marker>)
    requires Inv(mk, st) && s in st.phase
    requires Counted(mk, p, s) == Counted(mk, st.phase[s], s) + us && us !! Counted(mk, st.phase[s], s)
    ensures Exact(mk, Held(st.m, us), st.phase[s := p])
  {
    forall u ensures var h := HoldersOf(mk, st.phase[s := p], u);
                     Count(Held(st.m, us), u) == |h| && (u in Held(st.m, us) <==> h != {}) {
      HoldersAfter(mk, st.phase, s, p, u);
    }
  }

  lemma ReleaseKeepsExact(mk: Markers, st: State, s: nat)
    requires Inv(mk, st) && s in st.phase && st.phase[s].Holding?
    ensures Exact(mk, Unheld(st.m, mk(s)), st.phase - {s})
  {
    forall u ensures var h := HoldersOf(mk, st.phase - {s}, u);
                     Count(Unheld(st.m, mk(s)), u) == |h| && (u in Unheld(st.m, mk(s)) <==> h != {}) {
      var before := HoldersOf(mk, st.phase, u);
      assert HoldersOf(mk, st.phase - {s}, u) == before - {s};
      assert u in mk(s) ==> s in before;
    }
  }

  lemma UnheldShrinks(m: map<Marker, int>, us: set<Marker>)
    ensures |Unheld(m, us)| <= |m|
  {
    SubsetSize(Unheld(m, us).Keys, m.Keys);
  }

  lemma BeginKeepsInv(mk: Markers, st: State, s: nat)
    requires Inv(mk, st) && s !in st.phase
    ensures Inv(mk, Begun(st, s))
  {
    SameCounts(mk, st, s, Entered);
  }

  lemma WriteKeepsInv(mk: Markers, st: State, s: nat)
    requires Inv(mk, st) && s in st.phase && st.phase[s].Missing?
    ensures Inv(mk, Written(st, s))
  {
    assert PhaseOk(mk, st.phase[s], s);
    GainKeepsExact(mk, st, s, Holding, st.phase[s].missing);
    assert st.phase[s := Holding].Keys == st.phase.Keys;
  }

  lemma ReleaseKeepsInv(mk: Markers, st: State, s: nat)
    requires Inv(mk, st) && s in st.phase && st.phase[s].Holding?
    ensures Inv(mk, Released(mk, st, s))
  {
    ReleaseKeepsExact(mk, st, s);
    UnheldShrinks(st.m, mk(s));
    assert (st.phase - {s}).Keys == st.phase.Keys - {s};
  }

  /** Moving on without touching the counts. */
  lemma PhaseOnlyKeepsInv(mk: Markers, st: State, s: nat, p: Phase)
    requires Inv(mk, st) && s in st.phase && PhaseOk(mk, p, s)
    requires Counted(mk, p, s) == Counted(mk, st.phase[s], s)
    ensures Inv(mk, st.(phase := st.phase[s := p]))
  {
    SameCounts(mk, st, s, p);
    assert st.phase[s := p].Keys == st.phase.Keys;
  }

  lemma StepKeepsInv(mk: Markers, st: State, l: Label)
    requires Inv(mk, st) && Enabled(mk, st, l)
    ensures Inv(mk, Apply(mk, st, l))
  {
    match l
    case Begin(s) => BeginKeepsInv(mk, st, s);
    case StartRead(s) => PhaseOnlyKeepsInv(mk, st, s, Reading(mk(s), {}));
    case ReadOne(s, u) => ReadKeepsInv(mk, st, s, u);
    case EndRead(s) =>
      PhaseOnlyKeepsInv(mk, st, s, if st.phase[s].missing == {} then Holding else Missing(st.phase[s].missing));
    case Write(s) => WriteKeepsInv(mk, st, s);
    case Release(s) => ReleaseKeepsInv(mk, st, s);
  }

  /** Counting a marker that is already registered adds no entry. */
  lemma KnownAddsNoEntry(m: map<Marker, int>, u: Marker)
    requires u in m
    ensures HeldIfKnown(m, {u}) == Held(m, {u}) && HeldIfKnown(m, {u}).Keys == m.Keys
  {
  }

  lemma ReadKnownKeepsInv(mk: Markers, st: State, s: nat, p: Phase, u: Marker)
    requires Inv(mk, st) && s in st.phase && u in st.m && PhaseOk(mk, p, s)
    requires Counted(mk, p, s) == Counted(mk, st.phase[s], s) + {u} && u !in Counted(mk, st.phase[s], s)
    ensures Inv(mk, st.(m := HeldIfKnown(st.m, {u}), phase := st.phase[s := p]))
  {
    KnownAddsNoEntry(st.m, u);
    GainKeepsExact(mk, st, s, p, {u});
    assert |HeldIfKnown(st.m, {u}).Keys| == |st.m.Keys|;
    assert st.phase[s := p].Keys == st.phase.Keys;
  }

  lemma ReadKeepsInv(mk: Markers, st: State, s: nat, u: Marker)
    requires Inv(mk, st) && s in st.phase && st.phase[s].Reading? && u in st.phase[s].todo
    ensures Inv(mk, ReadNext(st, s, u))
  {
    var r := st.phase[s];
    assert PhaseOk(mk, r, s);
    if u in st.m {
      ReadKnownKeepsInv(mk, st, s, Reading(r.todo - {u}, r.missing), u);
    } else {
      PhaseOnlyKeepsInv(mk, st, s, Reading(r.todo - {u}, r.missing + {u}));
    }
  }

  lemma {:induction false} RunKeepsInv(mk: Markers, labels: seq<Label>)
    requires Run(mk, labels).Some?
    ensures Inv(mk, Run(mk, labels).value)
  {
    if |labels| > 0 {
      RunKeepsInv(mk, labels[..|labels| - 1]);
      StepKeepsInv(mk, Run(mk, labels[..|labels| - 1]).value, labels[|labels| - 1]);
    }
  }

  // ---- The read-locked pass, marker by marker ----

  /** Reading a list of markers, one step each. */
  function ReadAll(st: State, s: nat, us: seq<Marker>): State
    requires s in st.phase && st.phase[s].Reading?
    decreases |us|
  {
    if |us| == 0 then st else ReadAll(ReadNext(st, s, us[0]), s, us[1..])
  }

  /** In whatever order the pass takes its markers, it comes to what HoldKnown ensures: one
      more count on each that is registered, the others missing. */
  lemma {:induction false} PassIsHoldKnown(st: State, s: nat, us: seq<Marker>)
    requires s in st.phase && st.phase[s].Reading?
    requires forall i, j | 0 <= i < j < |us| :: us[i] != us[j]
    ensures var r, known := st.phase[s], set u | u in us;
            ReadAll(st, s, us) == st.(m := HeldIfKnown(st.m, known),
                                      phase := st.phase[s := Reading(r.todo - known, r.missing + (known - st.m.Keys))])
    decreases |us|
  {
    var r, known := st.phase[s], set u | u in us;
    if |us| == 0 {
      assert known == {} && HeldIfKnown(st.m, {}) == st.m;
      assert r.todo - known == r.todo && r.missing + (known - st.m.Keys) == r.missing;
      assert st.phase[s := r] == st.phase;
    } else {
      var u, rest := us[0], set u | u in us[1..];
      var next := ReadNext(st, s, u);
      assert us == [u] + us[1..];
      assert known == {u} + rest && u !in rest;
      PassIsHoldKnown(next, s, us[1..]);
      HeldOneByOne(st.m, u, rest);
      PhaseOneByOne(st, s, u, rest);
    }
  }

  lemma PhaseOneByOne(st: State, s: nat, u: Marker, rest: set<Marker>)
    requires s in st.phase && st.phase[s].Reading? && u !in rest
    ensures var r, next := st.phase[s], ReadNext(st, s, u);
            && next.m.Keys == st.m.Keys
            && next.phase[s := Reading(next.phase[s].todo - rest, next.phase[s].missing + (rest - next.m.Keys))]
            == st.phase[s := Reading(r.todo - ({u} + rest), r.missing + (({u} + rest) - st.m.Keys))]
  {
    var r, next := st.phase[s], ReadNext(st, s, u);
    assert next.phase[s].todo - rest == r.todo - ({u} + rest);
    assert next.phase[s].missing + (rest - st.m.Keys) == r.missing + (({u} + rest) - st.m.Keys);
  }

  lemma HeldOneByOne(m: map<Marker, int>, u: Marker, rest: set<Marker>)
    requires u !in rest
    ensures HeldIfKnown(m, {u} + rest) == HeldIfKnown(if u in m then HeldIfKnown(m, {u}) else m, rest)
    ensures HeldIfKnown(m, {u}).Keys == m.Keys
  {
  }

  /** A whole read-locked section: what was missing then is what the next section registers. */
  lemma ReadSectionIsHoldKnown(mk: Markers, st: State, s: nat, us: seq<Marker>)
    requires s in st.phase && st.phase[s].Entered?
    requires (forall i, j | 0 <= i < j < |us| :: us[i] != us[j]) && (set u | u in us) == mk(s)
    ensures var read := ReadAll(Apply(mk, st, StartRead(s)), s, us);
            && Enabled(mk, read, EndRead(s))
            && read.m == HeldIfKnown(st.m, mk(s))
            && Apply(mk, read, EndRead(s)).phase[s] == if mk(s) <= st.m.Keys then Holding else Missing(mk(s) - st.m.Keys)
  {
    PassIsHoldKnown(Apply(mk, st, StartRead(s)), s, us);
  }

  // ---- What callers may rely on ----

  /** From the moment its Acquire returns until its Release, a session's markers are found. */
  lemma HeldMarkersAreFound(mk: Markers, labels: seq<Label>, s: nat, u: Marker)
    requires Run(mk, labels).Some? && u in mk(s)
    requires s in Run(mk, labels).value.phase && Run(mk, labels).value.phase[s].Holding?
    ensures u in Run(mk, labels).value.m
  {
    RunKeepsInv(mk, labels);
    assert s in HoldersOf(mk, Run(mk, labels).value.phase, u);
  }

  /** While no Acquire is under way, a count is the number of sessions holding the
      marker; while some are, it is off by no more than their number. */
  lemma CountsAreHolders(mk: Markers, labels: seq<Label>, u: Marker)
    requires Run(mk, labels).Some?
    ensures var st := Run(mk, labels).value;
            |HoldingNow(mk, st, u)| <= Count(st.m, u) <= |HoldingNow(mk, st, u)| + |Acquiring(st)|
  {
    RunKeepsInv(mk, labels);
    var st := Run(mk, labels).value;
    Sandwich(mk, st, u);
    SubsetSize(HoldingNow(mk, st, u), HoldersOf(mk, st.phase, u));
    SubsetSize(HoldersOf(mk, st.phase, u), HoldingNow(mk, st, u) + Acquiring(st));
    assert |HoldingNow(mk, st, u) + Acquiring(st)| <= |HoldingNow(mk, st, u)| + |Acquiring(st)|;
  }

  function HoldingNow(mk: Markers, st: State, u: Marker): set<nat>
  {
    set s | s in st.phase && st.phase[s].Holding? && u in mk(s)
  }

  function Acquiring(st: State): set<nat>
  {
    set s | s in st.phase && !st.phase[s].Holding?
  }

  lemma Sandwich(mk: Markers, st: State, u: Marker)
    ensures HoldingNow(mk, st, u) <= HoldersOf(mk, st.phase, u) <= HoldingNow(mk, st, u) + Acquiring(st)
  {
  }

  /** A marker nobody has counted is unknown: a leak from a finished session is not seen. */
  lemma RetiredMarkersAreForgotten(mk: Markers, labels: seq<Label>, u: Marker)
    requires Run(mk, labels).Some?
    requires forall s | s in Run(mk, labels).value.phase :: u !in mk(s)
    ensures u !in Run(mk, labels).value.m
  {
    RunKeepsInv(mk, labels);
    var st := Run(mk, labels).value;
    assert forall s | s in st.phase :: PhaseOk(mk, st.phase[s], s) && Counted(mk, st.phase[s], s) <= mk(s);
    assert HoldersOf(mk, st.phase, u) == {};
  }

  /** Once every session has released, the registry is empty again. */
  lemma EveryHoldIsReturned(mk: Markers, labels: seq<Label>)
    requires Run(mk, labels).Some? && Run(mk, labels).value.phase == map[]
    ensures Run(mk, labels).value.m == map[] && Run(mk, labels).value.liveSessions == 0
  {
    RunKeepsInv(mk, labels);
    var st := Run(mk, labels).value;
    forall u ensures u !in st.m { assert HoldersOf(mk, st.phase, u) == {}; }
  }
}
