// The simulated replay fleet (benchmark/dataset_sim.go): slots playing sessions against an
// event heap, with the in-flight and dataset totals kept incrementally.

module DatasetSims {
  import opened AdmissionGates
  import opened Options
  import opened ReplayIndexes

  datatype Request = Request(startMs: int, endMs: int, prompt: int)

  datatype Session = Session(requests: seq<Request>, durationMs: int)

  datatype Slot = Slot(sess: Session, base: int, starts: nat, ends: seq<Request>, endPos: nat,
                       tracked: int, inflight: int, live: bool)

  datatype Event = Event(at: int, slot: nat, seqNo: int)

  // ---------------------------------------------------------------- sessions

  ghost predicate SortedByStart(rs: seq<Request>) {
    forall i, j :: 0 <= i < j < |rs| ==> rs[i].startMs <= rs[j].startMs
  }

  ghost predicate SortedByEnd(rs: seq<Request>) {
    forall i, j :: 0 <= i < j < |rs| ==> rs[i].endMs <= rs[j].endMs
  }

  // A session as it is built: requests by start, none ending before it starts or after
  // the session does.
  ghost predicate WellFormed(s: Session) {
    && SortedByStart(s.requests)
    && 0 <= s.durationMs
    && (forall r :: r in s.requests ==> 0 <= r.startMs <= r.endMs <= s.durationMs)
  }

  // Requests running at a time: started, and not yet over.
  function InFlightAt(rs: seq<Request>, x: int): nat {
    if rs == [] then 0 else (if rs[0].startMs <= x < rs[0].endMs then 1 else 0) + InFlightAt(rs[1..], x)
  }

  function StartedBy(rs: seq<Request>, x: int): nat {
    if rs == [] then 0 else (if rs[0].startMs <= x then 1 else 0) + StartedBy(rs[1..], x)
  }

  function EndedBy(rs: seq<Request>, x: int): nat {
    if rs == [] then 0 else (if rs[0].endMs <= x then 1 else 0) + EndedBy(rs[1..], x)
  }

  lemma {:induction false} RunningIsStartedLessEnded(rs: seq<Request>, x: int)
    requires forall r :: r in rs ==> r.startMs <= r.endMs
    ensures InFlightAt(rs, x) == StartedBy(rs, x) - EndedBy(rs, x)
  {
    if rs != [] {
      assert rs[0] in rs;
      RunningIsStartedLessEnded(rs[1..], x);
    }
  }

  lemma {:induction false} StartedIsACut(rs: seq<Request>, x: int, n: nat)
    requires n <= |rs|
    requires forall k :: 0 <= k < n ==> rs[k].startMs <= x
    requires forall k :: n <= k < |rs| ==> rs[k].startMs > x
    ensures StartedBy(rs, x) == n
  {
    if rs != [] {
      StartedIsACut(rs[1..], x, if n == 0 then 0 else n - 1);
    }
  }

  lemma {:induction false} EndedIsACut(rs: seq<Request>, x: int, n: nat)
    requires n <= |rs|
    requires forall k :: 0 <= k < n ==> rs[k].endMs <= x
    requires forall k :: n <= k < |rs| ==> rs[k].endMs > x
    ensures EndedBy(rs, x) == n
  {
    if rs != [] {
      EndedIsACut(rs[1..], x, if n == 0 then 0 else n - 1);
    }
  }

  lemma Without(b: seq<Request>, k: nat)
    requires k < |b|
    ensures multiset(b[..k] + b[k + 1..]) == multiset(b) - multiset{b[k]}
  {
    assert b == b[..k] + ([b[k]] + b[k + 1..]);
  }

  lemma SameLength(a: seq<Request>, b: seq<Request>)
    requires multiset(a) == multiset(b)
    ensures |a| == |b|
  {
    assert |multiset(a)| == |a| && |multiset(b)| == |b|;
  }

  lemma Where(a: seq<Request>, b: seq<Request>) returns (k: nat)
    requires multiset(a) == multiset(b) && a != []
    ensures k < |b| && b[k] == a[0]
  {
    assert a[0] in multiset(a);
    k :| k < |b| && b[k] == a[0];
  }

  lemma {:induction false} EndedIgnoresOrder(a: seq<Request>, b: seq<Request>, x: int)
    requires multiset(a) == multiset(b)
    ensures EndedBy(a, x) == EndedBy(b, x)
  {
    SameLength(a, b);
    if a != [] {
      var k := Where(a, b);
      var rest := b[..k] + b[k + 1..];
      Without(a, 0);
      Without(b, k);
      assert a[..0] + a[1..] == a[1..];
      EndedIgnoresOrder(a[1..], rest, x);
      EndedWithout(b, x, k);
    }
  }

  lemma {:induction false} EndedWithout(b: seq<Request>, x: int, k: nat)
    requires k < |b|
    ensures EndedBy(b, x) == EndedBy(b[..k] + b[k + 1..], x) + if b[k].endMs <= x then 1 else 0
  {
    if k == 0 {
      assert b[..0] + b[1..] == b[1..];
    } else {
      EndedWithout(b[1..], x, k - 1);
      assert (b[..k] + b[k + 1..])[1..] == b[1..][..k - 1] + b[1..][k..];
    }
  }

  // ---------------------------------------------------------------- slots

  // Everything up to and including `x` of the session's own time has been played.
  ghost predicate PlayedTo(sl: Slot, x: int) {
    && sl.starts <= |sl.sess.requests| && sl.endPos <= |sl.ends|
    && (forall k :: 0 <= k < sl.starts ==> sl.sess.requests[k].startMs <= x)
    && (forall k :: sl.starts <= k < |sl.sess.requests| ==> sl.sess.requests[k].startMs > x)
    && (forall k :: 0 <= k < sl.endPos ==> sl.ends[k].endMs <= x)
    && (forall k :: sl.endPos <= k < |sl.ends| ==> sl.ends[k].endMs > x)
  }

  function Upcoming(sl: Slot): int {
    if sl.starts < |sl.sess.requests| && sl.endPos < |sl.ends| then
      (if sl.ends[sl.endPos].endMs < sl.sess.requests[sl.starts].startMs then sl.ends[sl.endPos].endMs
       else sl.sess.requests[sl.starts].startMs)
    else if sl.starts < |sl.sess.requests| then sl.sess.requests[sl.starts].startMs
    else if sl.endPos < |sl.ends| then sl.ends[sl.endPos].endMs
    else sl.sess.durationMs
  }

  function NextAt(sl: Slot): int {
    sl.base + Upcoming(sl)
  }

  ghost predicate Consistent(sl: Slot) {
    && WellFormed(sl.sess) && SortedByEnd(sl.ends) && multiset(sl.ends) == multiset(sl.sess.requests)
    && sl.starts <= |sl.sess.requests| && sl.endPos <= |sl.ends|
    && sl.inflight == sl.starts - sl.endPos
    && sl.tracked == if sl.endPos == 0 then 0 else sl.ends[sl.endPos - 1].prompt
  }

  // A live slot has played everything up to now, or, with its event due now, everything
  // before; a retired one counts for nothing.
  ghost predicate SlotOk(sl: Slot, now: int) {
    if sl.live then
      && Consistent(sl) && sl.base <= now <= NextAt(sl)
      && PlayedTo(sl, if NextAt(sl) > now then now - sl.base else now - sl.base - 1)
    else
      sl.tracked == 0 && sl.inflight == 0
  }

  // Requests the slot has running, recomputed from its session and base time.
  ghost function Recomputed(sl: Slot, now: int): int {
    if !sl.live then 0
    else InFlightAt(sl.sess.requests, if NextAt(sl) > now then now - sl.base else now - sl.base - 1)
  }

  /**
   * The incremental count is exact: start <= now < end, or, for a slot whose own event is
   * due at this very moment, start < now <= end.
   */
  lemma SlotIsExact(sl: Slot, now: int)
    requires SlotOk(sl, now)
    ensures sl.inflight == Recomputed(sl, now)
  {
    if sl.live {
      var x := if NextAt(sl) > now then now - sl.base else now - sl.base - 1;
      StartedIsACut(sl.sess.requests, x, sl.starts);
      EndedIsACut(sl.ends, x, sl.endPos);
      EndedIgnoresOrder(sl.ends, sl.sess.requests, x);
      RunningIsStartedLessEnded(sl.sess.requests, x);
    }
  }

  /** A slot tracks the prompt of its session's latest response. */
  lemma TracksTheLastResponse(sl: Slot, now: int)
    requires SlotOk(sl, now) && sl.live
    ensures var x := if NextAt(sl) > now then now - sl.base else now - sl.base - 1;
            if forall r :: r in sl.sess.requests ==> r.endMs > x then sl.tracked == 0
            else exists r :: r in sl.sess.requests && r.endMs <= x && r.prompt == sl.tracked
                   && forall q :: q in sl.sess.requests && q.endMs <= x ==> q.endMs <= r.endMs
  {
    var x := if NextAt(sl) > now then now - sl.base else now - sl.base - 1;
    SameMembers(sl.ends, sl.sess.requests);
    LastEnded(sl.ends, sl.endPos, x);
  }

  lemma SameMembers(a: seq<Request>, b: seq<Request>)
    requires multiset(a) == multiset(b)
    ensures forall r :: r in a <==> r in b
  {
    forall r ensures r in a <==> r in b {
      assert r in a <==> r in multiset(a);
      assert r in b <==> r in multiset(b);
    }
  }

  lemma LastEnded(es: seq<Request>, n: nat, x: int)
    requires SortedByEnd(es) && n <= |es|
    requires forall k :: 0 <= k < n ==> es[k].endMs <= x
    requires forall k :: n <= k < |es| ==> es[k].endMs > x
    ensures n == 0 ==> forall r :: r in es ==> r.endMs > x
    ensures n > 0 ==> es[n - 1] in es && es[n - 1].endMs <= x
    ensures n > 0 ==> forall q :: q in es && q.endMs <= x ==> q.endMs <= es[n - 1].endMs
  {
  }

  lemma TimePassesForSlot(sl: Slot, now: int, t: int)
    requires SlotOk(sl, now) && now <= t && (sl.live ==> t <= NextAt(sl))
    ensures SlotOk(sl, t)
  {
  }

  method SortByEnd(rs: seq<Request>) returns (es: seq<Request>)
    ensures multiset(es) == multiset(rs) && SortedByEnd(es)
  {
    es := [];
    for i := 0 to |rs|
      invariant multiset(es) == multiset(rs[..i]) && SortedByEnd(es)
    {
      es := InsertByEnd(es, rs[i]);
      assert rs[..i + 1] == rs[..i] + [rs[i]];
    }
    assert rs[..|rs|] == rs;
  }

  method InsertByEnd(es: seq<Request>, r: Request) returns (out: seq<Request>)
    requires SortedByEnd(es)
    ensures multiset(out) == multiset(es) + multiset{r} && SortedByEnd(out)
  {
    var k: nat := |es|;
    while k > 0 && es[k - 1].endMs > r.endMs
      invariant k <= |es| && (k < |es| ==> r.endMs <= es[k].endMs)
    {
      k := k - 1;
    }
    out := es[..k] + [r] + es[k..];
    assert es == es[..k] + es[k..];
    InsertedIsSorted(es, r, k);
  }

  lemma InsertedIsSorted(es: seq<Request>, r: Request, k: nat)
    requires SortedByEnd(es) && k <= |es|
    requires k > 0 ==> es[k - 1].endMs <= r.endMs
    requires k < |es| ==> r.endMs <= es[k].endMs
    ensures SortedByEnd(es[..k] + [r] + es[k..])
  {
    var out := es[..k] + [r] + es[k..];
    forall i, j | 0 <= i < j < |out| ensures out[i].endMs <= out[j].endMs {
      assert i < k ==> out[i] == es[i];
      assert i > k ==> out[i] == es[i - 1];
      assert j < k ==> out[j] == es[j];
      assert j > k ==> out[j] == es[j - 1];
    }
  }

  // The slot as `assign` leaves it.
  ghost predicate JustAssigned(sl: Slot, s: Session, now: int) {
    && sl.live && sl.sess == s && sl.base == now && sl.starts == 0 && sl.endPos == 0
    && multiset(sl.ends) == multiset(s.requests) && SortedByEnd(sl.ends)
    && sl.tracked == 0 && sl.inflight == 0
  }

  lemma JustAssignedIsOk(sl: Slot, s: Session, now: int)
    requires JustAssigned(sl, s, now) && WellFormed(s)
    ensures SlotOk(sl, now)
  {
    forall r | r in sl.ends ensures r in s.requests {
      assert r in multiset(sl.ends);
    }
  }

  // ---------------------------------------------------------------- one event

  /** Play a slot's session up to `rel`, responses first, with the fleet's totals. */
  method Play(was: Slot, rel: int, inflight0: int, dataset0: int) returns (sl: Slot, inflight: int, dataset: int)
    requires was.live && Consistent(was)
    ensures sl.live && Consistent(sl) && sl.sess == was.sess && sl.base == was.base && sl.ends == was.ends
    ensures PlayedTo(was, rel - 1) ==> PlayedTo(sl, rel)
    ensures inflight == inflight0 - was.inflight + sl.inflight
    ensures dataset == dataset0 - was.tracked + sl.tracked
  {
    var i;
    sl, i, dataset := PlayEnds(was, rel, inflight0, dataset0);
    sl, inflight := PlayStarts(sl, rel, i);
  }

  method PlayEnds(was: Slot, rel: int, inflight0: int, dataset0: int) returns (sl: Slot, inflight: int, dataset: int)
    requires was.live && Consistent(was)
    ensures sl == was.(endPos := sl.endPos, tracked := sl.tracked, inflight := sl.inflight) && Consistent(sl)
    ensures was.endPos <= sl.endPos && forall k :: was.endPos <= k < sl.endPos ==> sl.ends[k].endMs <= rel
    ensures sl.endPos < |sl.ends| ==> sl.ends[sl.endPos].endMs > rel
    ensures inflight - sl.inflight == inflight0 - was.inflight
    ensures dataset - sl.tracked == dataset0 - was.tracked
  {
    hide WellFormed, SortedByEnd;
    sl, inflight, dataset := was, inflight0, dataset0;
    while sl.endPos < |sl.ends| && sl.ends[sl.endPos].endMs <= rel
      invariant Consistent(sl) && sl == was.(endPos := sl.endPos, tracked := sl.tracked, inflight := sl.inflight)
      invariant was.endPos <= sl.endPos && forall k :: was.endPos <= k < sl.endPos ==> sl.ends[k].endMs <= rel
      invariant inflight - sl.inflight == inflight0 - was.inflight
      invariant dataset - sl.tracked == dataset0 - was.tracked
      decreases |sl.ends| - sl.endPos
    {
      var r := sl.ends[sl.endPos];
      inflight := inflight - 1;
      dataset := dataset + (r.prompt - sl.tracked);
      sl := sl.(endPos := sl.endPos + 1, inflight := sl.inflight - 1, tracked := r.prompt);
    }
  }

  method PlayStarts(was: Slot, rel: int, inflight0: int) returns (sl: Slot, inflight: int)
    requires was.live && Consistent(was)
    ensures sl == was.(starts := sl.starts, inflight := sl.inflight) && Consistent(sl)
    ensures was.starts <= sl.starts && forall k :: was.starts <= k < sl.starts ==> sl.sess.requests[k].startMs <= rel
    ensures sl.starts < |sl.sess.requests| ==> sl.sess.requests[sl.starts].startMs > rel
    ensures inflight - sl.inflight == inflight0 - was.inflight
  {
    hide WellFormed, SortedByEnd;
    sl, inflight := was, inflight0;
    while sl.starts < |sl.sess.requests| && sl.sess.requests[sl.starts].startMs <= rel
      invariant Consistent(sl) && sl == was.(starts := sl.starts, inflight := sl.inflight)
      invariant was.starts <= sl.starts && forall k :: was.starts <= k < sl.starts ==> sl.sess.requests[k].startMs <= rel
      invariant inflight - sl.inflight == inflight0 - was.inflight
      decreases |sl.sess.requests| - sl.starts
    {
      inflight := inflight + 1;
      sl := sl.(starts := sl.starts + 1, inflight := sl.inflight + 1);
    }
  }

  predicate Finished(sl: Slot, rel: int) {
    sl.starts >= |sl.sess.requests| && sl.endPos >= |sl.ends| && rel >= sl.sess.durationMs
  }

  // A session is played to its end exactly when its time is up.
  lemma FinishedIsOver(sl: Slot, x: int)
    requires Consistent(sl) && PlayedTo(sl, x)
    ensures Finished(sl, x) <==> x >= sl.sess.durationMs
  {
    SameMembers(sl.ends, sl.sess.requests);
    assert sl.endPos < |sl.ends| ==> sl.ends[sl.endPos] in sl.ends;
    assert sl.starts < |sl.sess.requests| ==> sl.sess.requests[sl.starts] in sl.sess.requests;
  }

  /** A session that ends leaves nothing in flight; any other slot has a later event. */
  lemma AfterPlaying(sl: Slot, now: int)
    requires sl.live && Consistent(sl) && sl.base <= now && PlayedTo(sl, now - sl.base)
    ensures Finished(sl, now - sl.base) ==> sl.inflight == 0
    ensures !Finished(sl, now - sl.base) ==> SlotOk(sl, now) && NextAt(sl) > now
  {
    assert |multiset(sl.ends)| == |multiset(sl.sess.requests)|;
  }

  // A session over the moment it begins: nothing in it takes time.
  predicate Instant(s: Session) {
    s.durationMs == 0
  }

  /** A slot with an instant session is always due, and its next event ends it. */
  lemma InstantIsDue(sl: Slot, now: int)
    requires sl.live && SlotOk(sl, now) && Instant(sl.sess)
    ensures NextAt(sl) == sl.base == now && Recomputed(sl, now) == 0
  {
    SameMembers(sl.ends, sl.sess.requests);
    assert forall r :: r in sl.sess.requests ==> r.startMs == r.endMs == 0;
    assert sl.endPos < |sl.ends| ==> sl.ends[sl.endPos] in sl.ends;
    assert sl.starts < |sl.sess.requests| ==> sl.sess.requests[sl.starts] in sl.sess.requests;
    NothingRuns(sl.sess.requests, if NextAt(sl) > now then now - sl.base else now - sl.base - 1);
  }

  lemma {:induction false} NothingRuns(rs: seq<Request>, x: int)
    requires forall r :: r in rs ==> r.startMs == r.endMs
    ensures InFlightAt(rs, x) == 0
  {
    if rs != [] {
      assert rs[0] in rs;
      NothingRuns(rs[1..], x);
    }
  }

  // ---------------------------------------------------------------- sums over the slots

  // What is summed: requests running, tokens tracked, live slots, slots that have had a
  // response, and a weight for the slots whose event is due at `now`.
  datatype Figure = Running | Tracked | Live | Contributing | Due(now: int)

  function Amount(sl: Slot, f: Figure): int {
    match f
    case Running => sl.inflight
    case Tracked => sl.tracked
    case Live => if sl.live then 1 else 0
    case Contributing => if sl.live && sl.tracked > 0 then 1 else 0
    case Due(now) =>
      if !sl.live || NextAt(sl) != now then 0
      else if sl.base < now then 3
      else if Instant(sl.sess) then 2
      else 1
  }

  function Sum(slots: seq<Slot>, f: Figure): int {
    if slots == [] then 0 else Sum(slots[..|slots| - 1], f) + Amount(slots[|slots| - 1], f)
  }

  lemma SumAppend(slots: seq<Slot>, sl: Slot, f: Figure)
    ensures Sum(slots + [sl], f) == Sum(slots, f) + Amount(sl, f)
  {
    assert (slots + [sl])[..|slots|] == slots;
  }

  lemma {:induction false} SumUpdate(slots: seq<Slot>, i: nat, sl: Slot, f: Figure)
    requires i < |slots|
    ensures Sum(slots[i := sl], f) == Sum(slots, f) - Amount(slots[i], f) + Amount(sl, f)
  {
    var n := |slots| - 1;
    if i == n {
      assert slots[i := sl][..n] == slots[..n];
    } else {
      assert slots[i := sl][..n] == slots[..n][i := sl];
      SumUpdate(slots[..n], i, sl, f);
    }
  }

  lemma {:induction false} DueIsPositive(slots: seq<Slot>, now: int)
    ensures Sum(slots, Due(now)) >= 0
    ensures 0 <= Sum(slots, Live) <= |slots|
  {
    if slots != [] {
      DueIsPositive(slots[..|slots| - 1], now);
    }
  }

  // ---------------------------------------------------------------- the heap

  predicate Before(a: Event, b: Event) {
    a.at < b.at || (a.at == b.at && a.seqNo < b.seqNo)
  }

  function Tally(h: seq<Event>, i: nat): nat {
    if h == [] then 0 else (if h[0].slot == i then 1 else 0) + Tally(h[1..], i)
  }

  lemma TallyPush(e: Event, h: seq<Event>, i: nat)
    ensures Tally([e] + h, i) == (if e.slot == i then 1 else 0) + Tally(h, i)
  {
    assert ([e] + h)[1..] == h;
  }

  lemma {:induction false} TallyPop(h: seq<Event>, k: nat, i: nat)
    requires k < |h|
    ensures Tally(h, i) == (if h[k].slot == i then 1 else 0) + Tally(h[..k] + h[k + 1..], i)
  {
    if k == 0 {
      assert h[..0] + h[1..] == h[1..];
    } else {
      TallyPop(h[1..], k - 1, i);
      assert (h[..k] + h[k + 1..])[1..] == h[1..][..k - 1] + h[1..][k..];
    }
  }

  lemma {:induction false} SomeEvent(h: seq<Event>, i: nat) returns (e: Event)
    requires Tally(h, i) > 0
    ensures e in h && e.slot == i
  {
    if h[0].slot == i {
      e := h[0];
    } else {
      e := SomeEvent(h[1..], i);
    }
  }

  lemma {:induction false} NoEvent(h: seq<Event>, i: nat)
    requires Tally(h, i) == 0
    ensures forall e :: e in h ==> e.slot != i
  {
    if h != [] {
      NoEvent(h[1..], i);
    }
  }

  /** The heap's pop: an event none precedes. */
  method PopFirst(h: seq<Event>) returns (e: Event, rest: seq<Event>)
    requires h != []
    ensures e in h && forall f :: f in h ==> !Before(f, e)
    ensures forall f :: f in rest ==> f in h
    ensures forall i :: Tally(h, i) == (if e.slot == i then 1 else 0) + Tally(rest, i)
  {
    var k: nat := 0;
    var j: nat := 1;
    while j < |h|
      invariant k < j <= |h|
      invariant forall f :: f in h[..j] ==> !Before(f, h[k])
    {
      assert h[..j + 1] == h[..j] + [h[j]];
      if Before(h[j], h[k]) {
        k := j;
      }
      j := j + 1;
    }
    assert h[..j] == h;
    e, rest := h[k], h[..k] + h[k + 1..];
    forall i ensures Tally(h, i) == (if e.slot == i then 1 else 0) + Tally(rest, i) {
      TallyPop(h, k, i);
    }
  }

  // ---------------------------------------------------------------- the run

  datatype Fleet = Fleet(series: int, target: real, startSeries: int, admitCount: int, maxSeries: int,
                         retire: bool, retireMargin: real, horizon: int, admitMs: int, sampleMs: int)

  const GATE_MS := 5000

  datatype Sample = Sample(at: int, inflight: real, dataset: int, slots: int, series: int, started: nat)

  datatype Sim = Sim(h: seq<Event>, seqNo: int, slots: seq<Slot>, now: int, inflight: int, dataset: int,
                     area: int, sArea: int, gArea: int, started: nat, lastMean: real, gate: Gate,
                     nextAdmit: int, nextSample: int, nextGate: int, samples: seq<Sample>)

  ghost predicate SlotsOk(slots: seq<Slot>, now: int) {
    forall i: nat :: i < |slots| ==> SlotOk(slots[i], now)
  }

  // Each live slot has exactly one event, its own next one; a retired slot has none.
  ghost predicate HeapOk(h: seq<Event>, slots: seq<Slot>) {
    && (forall e :: e in h ==> e.slot < |slots| && slots[e.slot].live && e.at == NextAt(slots[e.slot]))
    && (forall i: nat :: i < |slots| ==> Tally(h, i) == if slots[i].live then 1 else 0)
  }

  ghost predicate TotalsOk(st: Sim) {
    st.inflight == Sum(st.slots, Running) && st.dataset == Sum(st.slots, Tracked)
  }

  // Where the clock stops: a horizon that is not ahead plays nothing.
  function End(cfg: Fleet): int {
    if cfg.horizon > 0 then cfg.horizon else 0
  }

  ghost predicate MarksOk(cfg: Fleet, st: Sim) {
    0 <= st.now <= End(cfg) && st.now < st.nextAdmit && st.now < st.nextSample && st.now < st.nextGate
  }

  function Initial(cfg: Fleet): int {
    if cfg.target > 0.0 then cfg.startSeries else cfg.series
  }

  // A fixed fleet keeps its size; a governed one with a cap never grows past it.
  ghost predicate SizeOk(cfg: Fleet, st: Sim) {
    && (cfg.target <= 0.0 ==> Sum(st.slots, Live) == |st.slots| == Initial(cfg))
    && (cfg.target > 0.0 && cfg.maxSeries > 0 ==>
          Sum(st.slots, Live) <= if Initial(cfg) > cfg.maxSeries then Initial(cfg) else cfg.maxSeries)
  }

  ghost predicate FromCorpus(slots: seq<Slot>, sessions: seq<Session>) {
    forall i: nat :: i < |slots| && slots[i].live ==> slots[i].sess in sessions
  }

  // The slots, the heap and the totals agree.
  ghost predicate Core(sessions: seq<Session>, st: Sim) {
    SlotsOk(st.slots, st.now) && HeapOk(st.h, st.slots) && TotalsOk(st) && FromCorpus(st.slots, sessions)
  }

  ghost predicate Inv(cfg: Fleet, sessions: seq<Session>, st: Sim) {
    Core(sessions, st) && MarksOk(cfg, st) && SizeOk(cfg, st)
  }

  // ---------------------------------------------------------------- what each turn does

  function GateOf(cfg: Fleet): Config {
    Config(cfg.admitCount, cfg.maxSeries)
  }

  function Mean(area: int, ms: int): real
    requires ms > 0
  {
    area as real / ms as real
  }

  // The earliest event: the clock and the three integrals move to it, and only its slot
  // changes. Its session goes on while it lasts; then the slot retires or plays the next one.
  ghost predicate Handled(cfg: Fleet, sessions: seq<Session>, order: nat -> nat, was: Sim, e: Event, st: Sim) {
    var i, area := e.slot, was.inflight * (e.at - was.now);
    && e in was.h && (forall f :: f in was.h ==> !Before(f, e)) && i < |was.slots| == |st.slots| && was.slots[i].live
    && st.slots == was.slots[i := st.slots[i]]
    && st == was.(now := e.at, area := was.area + area, sArea := was.sArea + area, gArea := was.gArea + area,
                  h := st.h, seqNo := st.seqNo, slots := st.slots, inflight := st.inflight, dataset := st.dataset, started := st.started)
    && if e.at - was.slots[i].base < was.slots[i].sess.durationMs then
         && st.slots[i].live && st.slots[i].sess == was.slots[i].sess && st.slots[i].base == was.slots[i].base
         && NextAt(st.slots[i]) > st.now && st.started == was.started
       else if Retires(cfg, was.lastMean) then
         !st.slots[i].live && st.started == was.started
       else
         order(was.started) < |sessions| && JustAssigned(st.slots[i], sessions[order(was.started)], st.now) && st.started == was.started + 1
  }

  // What one turn of the loop achieves.
  ghost predicate Progress(cfg: Fleet, sessions: seq<Session>, order: nat -> nat, was: Sim, after: Sim)
    requires order(was.started) < |sessions|
  {
    || after.now > was.now
    || Sum(after.slots, Due(after.now)) < Sum(was.slots, Due(after.now))
    || (&& after.now == was.now && Sum(after.slots, Due(after.now)) == Sum(was.slots, Due(after.now))
        && after.started == was.started + 1 && Instant(sessions[order(was.started)]) && !Retires(cfg, after.lastMean))
  }

  lemma HandledFacts(cfg: Fleet, sessions: seq<Session>, order: nat -> nat, was: Sim, e: Event, st: Sim)
    requires Inv(cfg, sessions, was) && Handled(cfg, sessions, order, was, e, st) && order(was.started) < |sessions|
    ensures st.now >= was.now && SizeOk(cfg, st) && Progress(cfg, sessions, order, was, st)
    ensures Sum(st.slots, Live) < Sum(was.slots, Live) ==> Retires(cfg, st.lastMean)
    ensures st.started > was.started ==> !Retires(cfg, st.lastMean)
    ensures AllInstant(sessions) ==> st.now == was.now
    ensures AllInstant(sessions) && !Retires(cfg, st.lastMean) ==>
              st.started == was.started + 1 && Sum(st.slots, Live) == Sum(was.slots, Live)
  {
    hide SlotOk, WellFormed, SortedByEnd, Tally, Sum, Consistent, HeapOk, SlotsOk, NextAt, TotalsOk;
    EventsAreNotPast(was.h, was.slots, was.now);
    EventIsAboutASlot(was.h, was.slots, e);
    InstantSlotIsDue(was.slots, was.now, e.slot);
    var before, sl := was.slots[e.slot], st.slots[e.slot];
    assert before.sess in sessions;
    SumUpdate(was.slots, e.slot, sl, Live);
    SumUpdate(was.slots, e.slot, sl, Due(st.now));
    LastsAWhile(was.slots, was.now, e.slot);
  }

  lemma LastsAWhile(slots: seq<Slot>, now: int, i: nat)
    requires SlotsOk(slots, now) && i < |slots| && slots[i].live
    ensures slots[i].sess.durationMs >= 0
  {
    assert SlotOk(slots[i], now);
  }

  // The gate after its own sample, if `t` is the time of one.
  function GateAfter(cfg: Fleet, was: Sim, t: int): Gate {
    if t == was.nextGate && Mean(was.gArea + was.inflight * (t - was.now), GATE_MS) >= cfg.target
    then was.gate.(sustained := false) else was.gate
  }

  // The interval an admission tick at `t` ends is open at the tick.
  predicate Under(cfg: Fleet, was: Sim, t: int)
    requires cfg.admitMs > 0
  {
    Mean(was.area + was.inflight * (t - was.now), cfg.admitMs) < cfg.target
  }

  // What an admission tick at `t` makes of the gate, and how many slots join.
  function Decision(cfg: Fleet, was: Sim, t: int): (Gate, int)
    requires cfg.admitMs > 0
  {
    var gate := GateAfter(cfg, was, t);
    var r := SimTick(GateOf(cfg), gate, gate.sustained && Under(cfg, was, t), Sum(was.slots, Live));
    (r.0, if cfg.target > 0.0 && r.1 > 0 then r.1 else 0)
  }

  // `n` more slots play, each from the beginning of its session; the others are as before.
  ghost predicate Joined(was: seq<Slot>, slots: seq<Slot>, now: int, n: int) {
    && Sum(slots, Live) == Sum(was, Live) + n && |was| <= |slots|
    && forall i: nat :: i < |slots| ==> (i < |was| && slots[i] == was[i]) || (IsNew(slots[i], now) && (i < |was| ==> !was[i].live))
  }

  lemma NobodyJoins(slots: seq<Slot>, now: int)
    ensures Joined(slots, slots, now, 0)
  {
  }

  // The first slot without a session, or else one more.
  ghost predicate JoinsAt(was: seq<Slot>, slots: seq<Slot>, i: nat) {
    && i <= |was| && i < |slots| && (forall k: nat :: k < i ==> was[k].live) && (i < |was| ==> !was[i].live)
    && slots == if i < |was| then was[i := slots[i]] else was + [slots[i]]
  }

  lemma OneMoreJoined(was: seq<Slot>, mid: seq<Slot>, slots: seq<Slot>, now: int, n: int, s: Session)
    requires Joined(was, mid, now, n) && Sum(slots, Live) == Sum(mid, Live) + 1
    requires exists i: nat :: JoinsAt(mid, slots, i) && JustAssigned(slots[i], s, now)
    ensures Joined(was, slots, now, n + 1)
  {
    hide Sum;
  }

  predicate IsNew(sl: Slot, now: int) {
    sl.live && sl.base == now && sl.starts == 0 && sl.endPos == 0 && sl.inflight == 0 && sl.tracked == 0
  }

  // The clock comes to `t`, which is the time of a gate sample, an admission tick, a sample,
  // of several of them in this order, or of none.
  ghost predicate Marked(cfg: Fleet, was: Sim, t: int, st: Sim)
    requires cfg.admitMs > 0 && cfg.sampleMs > 0
  {
    var area := was.inflight * (t - was.now);
    && st == was.(now := t, h := st.h, seqNo := st.seqNo, slots := st.slots, started := st.started,
                  gArea := if t == was.nextGate then 0 else was.gArea + area,
                  area := if t == was.nextAdmit then 0 else was.area + area,
                  sArea := if t == was.nextSample then 0 else was.sArea + area,
                  nextGate := was.nextGate + (if t == was.nextGate then GATE_MS else 0),
                  nextAdmit := was.nextAdmit + (if t == was.nextAdmit then cfg.admitMs else 0),
                  nextSample := was.nextSample + (if t == was.nextSample then cfg.sampleMs else 0),
                  lastMean := if t == was.nextAdmit then Mean(was.area + area, cfg.admitMs) else was.lastMean,
                  gate := if t == was.nextAdmit then Decision(cfg, was, t).0 else GateAfter(cfg, was, t),
                  samples := if t != was.nextSample then was.samples
                             else was.samples + [Sample(t, Mean(was.sArea + area, cfg.sampleMs), was.dataset,
                                                        Sum(st.slots, Live), Sum(st.slots, Contributing), st.started)])
    && if t == was.nextAdmit then
         Joined(was.slots, st.slots, t, Decision(cfg, was, t).1) && st.started == was.started + Decision(cfg, was, t).1
       else
         st.slots == was.slots && st.started == was.started && st.h == was.h
  }

  function NextMark(cfg: Fleet, st: Sim): int {
    Min(Min(st.nextAdmit, st.nextSample), Min(st.nextGate, cfg.horizon))
  }

  lemma EventSlot(cfg: Fleet, sessions: seq<Session>, order: nat -> nat, was: Sim, e: Event, st: Sim)
    requires Handled(cfg, sessions, order, was, e, st)
    ensures e.slot < |was.slots|
  {
  }

  // ---------------------------------------------------------------- what a whole run does

  // The gate's intervals so far and its samples since, how many slots each admission tick
  // added, how many had gone by then, and how many sessions' slots retired or played on.
  datatype Record = Record(ivs: seq<Interval>, cur: seq<bool>, joined: seq<int>, gone: seq<nat>, retired: nat, refilled: nat)

  function Total(xs: seq<int>): int {
    if xs == [] then 0 else Total(xs[..|xs| - 1]) + xs[|xs| - 1]
  }

  function GateSamples(ivs: seq<Interval>): nat {
    if ivs == [] then 0 else GateSamples(ivs[..|ivs| - 1]) + |ivs[|ivs| - 1].samples|
  }

  // Every admission tick added exactly what is due after the intervals up to it, to the
  // slots that had joined and not gone by then.
  ghost predicate IntervalOk(cfg: Fleet, g: Record, k: nat)
    requires k < |g.ivs| == |g.joined| == |g.gone|
  {
    && g.joined[k] == (if cfg.target > 0.0 then AdmissionGates.Due(GateOf(cfg), g.ivs[..k + 1]) else 0)
    && g.ivs[k].running == Initial(cfg) + Total(g.joined[..k]) - g.gone[k]
    && g.gone[k] <= g.retired
  }

  // The n-th mark of a kind is the last, the next one still to come.
  ghost predicate AtMark(n: nat, every: int, now: int, next: int) {
    n * every <= now < (n + 1) * every == next
  }

  ghost predicate Ledger(cfg: Fleet, st: Sim, g: Record) {
    && |g.joined| == |g.ivs| == |g.gone|
    && st.gate == Sampled(SimRun(GateOf(cfg), g.ivs).0, g.cur)
    && (forall k: nat :: k < |g.ivs| ==> IntervalOk(cfg, g, k))
    && Sum(st.slots, Live) == Initial(cfg) + Total(g.joined) - g.retired
    && st.started == Initial(cfg) + Total(g.joined) + g.refilled
    && (g.retired > 0 ==> cfg.target > 0.0 && cfg.retire)
    && AtMark(|g.ivs|, cfg.admitMs, st.now, st.nextAdmit)
    && AtMark(GateSamples(g.ivs) + |g.cur|, GATE_MS, st.now, st.nextGate)
    && AtMark(|st.samples|, cfg.sampleMs, st.now, st.nextSample)
    && (forall k: nat :: k < |st.samples| ==> st.samples[k].at == (k + 1) * cfg.sampleMs)
  }

  // The record after a turn that handled the event of a slot.
  function AfterEvent(cfg: Fleet, was: Sim, e: Event, g: Record): Record
    requires e.slot < |was.slots|
  {
    if e.at - was.slots[e.slot].base < was.slots[e.slot].sess.durationMs then g
    else if Retires(cfg, was.lastMean) then g.(retired := g.retired + 1)
    else g.(refilled := g.refilled + 1)
  }

  // And after one that came to a mark.
  function AfterMark(cfg: Fleet, was: Sim, t: int, g: Record): Record
    requires cfg.admitMs > 0
  {
    var cur := if t == was.nextGate then g.cur + [Mean(was.gArea + was.inflight * (t - was.now), GATE_MS) < cfg.target] else g.cur;
    if t != was.nextAdmit then g.(cur := cur)
    else g.(ivs := g.ivs + [Interval(cur, Under(cfg, was, t), Sum(was.slots, Live))], cur := [],
            joined := g.joined + [Decision(cfg, was, t).1], gone := g.gone + [g.retired])
  }

  lemma LedgerHandled(cfg: Fleet, sessions: seq<Session>, order: nat -> nat, was: Sim, e: Event, st: Sim, g: Record)
    requires Ledger(cfg, was, g) && Handled(cfg, sessions, order, was, e, st)
    requires was.now <= st.now < Min(Min(was.nextAdmit, was.nextSample), was.nextGate)
    ensures Ledger(cfg, st, AfterEvent(cfg, was, e, g))
  {
    hide Sum, Total, GateSamples, Sampled, SimRun, AdmissionGates.Due;
    SumUpdate(was.slots, e.slot, st.slots[e.slot], Live);
    SameIntervals(cfg, g, AfterEvent(cfg, was, e, g));
    Later(|g.ivs|, cfg.admitMs, was.now, st.now, was.nextAdmit);
    Later(GateSamples(g.ivs) + |g.cur|, GATE_MS, was.now, st.now, was.nextGate);
    Later(|st.samples|, cfg.sampleMs, was.now, st.now, was.nextSample);
    hide AtMark, IntervalOk;
  }

  lemma Later(n: nat, every: int, now: int, t: int, next: int)
    requires AtMark(n, every, now, next) && now <= t < next
    ensures AtMark(n, every, t, next)
  {
  }

  lemma ToMark(n: nat, every: int, now: int, t: int, next: int)
    requires AtMark(n, every, now, next) && now <= t <= next && every >= 1
    ensures if t == next then AtMark(n + 1, every, t, next + every) && t == (n + 1) * every else AtMark(n, every, t, next)
  {
    assert (n + 2) * every == (n + 1) * every + every;
  }

  lemma SameIntervals(cfg: Fleet, g: Record, g': Record)
    requires |g.joined| == |g.ivs| == |g.gone| && g'.ivs == g.ivs && g'.joined == g.joined && g'.gone == g.gone && g.retired <= g'.retired
    requires forall k: nat :: k < |g.ivs| ==> IntervalOk(cfg, g, k)
    ensures forall k: nat :: k < |g.ivs| ==> IntervalOk(cfg, g', k)
  {
    hide Total, AdmissionGates.Due;
    forall k: nat | k < |g.ivs| ensures IntervalOk(cfg, g', k) {
      assert IntervalOk(cfg, g, k);
    }
  }

  lemma LedgerMarked(cfg: Fleet, was: Sim, t: int, st: Sim, g: Record)
    requires cfg.admitMs >= 1 && cfg.sampleMs >= 1 && Ledger(cfg, was, g) && Marked(cfg, was, t, st)
    requires was.now <= t <= Min(Min(was.nextAdmit, was.nextSample), was.nextGate)
    ensures Ledger(cfg, st, AfterMark(cfg, was, t, g))
  {
    hide Sum, Total, GateSamples, Sampled, SimRun, AdmissionGates.Due, Mean, SimTick, Decision, GateAfter, Under, IntervalOk, AtMark, Joined;
    var g' := AfterMark(cfg, was, t, g);
    GateMarked(cfg, was, t, g);
    CountsMarked(cfg, was, t, st, g);
    MarksMarked(cfg, was, t, st, g);
    IntervalsMarked(cfg, was, t, g);
  }

  lemma GateMarked(cfg: Fleet, was: Sim, t: int, g: Record)
    requires cfg.admitMs >= 1 && was.gate == Sampled(SimRun(GateOf(cfg), g.ivs).0, g.cur)
    ensures var g' := AfterMark(cfg, was, t, g);
            Sampled(SimRun(GateOf(cfg), g'.ivs).0, g'.cur) == if t == was.nextAdmit then Decision(cfg, was, t).0 else GateAfter(cfg, was, t)
    ensures t == was.nextAdmit ==>
              Decision(cfg, was, t).1 == if cfg.target > 0.0 then AdmissionGates.Due(GateOf(cfg), AfterMark(cfg, was, t, g).ivs) else 0
  {
    hide Mean, Under, Sum, SimTick, AdmissionGates.Due, SimRun, Sampled;
    var open := Mean(was.gArea + was.inflight * (t - was.now), GATE_MS) < cfg.target;
    var cur := if t == was.nextGate then g.cur + [open] else g.cur;
    SampledMore(SimRun(GateOf(cfg), g.ivs).0, g.cur, open);
    SampledMore(Decision(cfg, was, t).0, [], true);
    OneMoreInterval(GateOf(cfg), g.ivs, Interval(cur, Under(cfg, was, t), Sum(was.slots, Live)));
  }

  lemma SampledMore(gate: Gate, cur: seq<bool>, open: bool)
    ensures Sampled(gate, cur + [open]) == if open then Sampled(gate, cur) else Sampled(gate, cur).(sustained := false)
    ensures Sampled(gate, []) == gate
  {
    assert (cur + [open])[..|cur|] == cur;
  }

  lemma OneMoreInterval(cfg: Config, ivs: seq<Interval>, iv: Interval)
    ensures var gate := Sampled(SimRun(cfg, ivs).0, iv.samples);
            var r := SimTick(cfg, gate, gate.sustained && iv.tick, iv.running);
            SimRun(cfg, ivs + [iv]).0 == r.0 && AdmissionGates.Due(cfg, ivs + [iv]) == r.1 >= 0
  {
    hide SimTick, AdmissionGates.Due, Sampled;
    var more := ivs + [iv];
    assert more[..|ivs|] == ivs;
    GatesAreDetermined(cfg, more);
    DueIsACount(cfg, more);
  }

  lemma DueIsACount(gate: Config, ivs: seq<Interval>)
    requires |ivs| > 0
    ensures AdmissionGates.Due(gate, ivs) >= 0
  {
  }

  lemma CountsMarked(cfg: Fleet, was: Sim, t: int, st: Sim, g: Record)
    requires cfg.admitMs >= 1 && cfg.sampleMs >= 1 && Marked(cfg, was, t, st)
    requires Sum(was.slots, Live) == Initial(cfg) + Total(g.joined) - g.retired
    requires was.started == Initial(cfg) + Total(g.joined) + g.refilled
    ensures var g' := AfterMark(cfg, was, t, g);
            && Sum(st.slots, Live) == Initial(cfg) + Total(g'.joined) - g'.retired
            && st.started == Initial(cfg) + Total(g'.joined) + g'.refilled
  {
    hide Sum, Mean, SimTick, Decision, GateAfter, Under;
    var g' := AfterMark(cfg, was, t, g);
    assert t == was.nextAdmit ==> g'.joined[..|g.joined|] == g.joined;
  }

  lemma MarksMarked(cfg: Fleet, was: Sim, t: int, st: Sim, g: Record)
    requires cfg.admitMs >= 1 && cfg.sampleMs >= 1 && Marked(cfg, was, t, st)
    requires was.now <= t <= Min(Min(was.nextAdmit, was.nextSample), was.nextGate)
    requires AtMark(|g.ivs|, cfg.admitMs, was.now, was.nextAdmit)
    requires AtMark(GateSamples(g.ivs) + |g.cur|, GATE_MS, was.now, was.nextGate)
    requires AtMark(|was.samples|, cfg.sampleMs, was.now, was.nextSample)
    requires forall k: nat :: k < |was.samples| ==> was.samples[k].at == (k + 1) * cfg.sampleMs
    ensures var g' := AfterMark(cfg, was, t, g);
            && AtMark(|g'.ivs|, cfg.admitMs, st.now, st.nextAdmit)
            && AtMark(GateSamples(g'.ivs) + |g'.cur|, GATE_MS, st.now, st.nextGate)
            && AtMark(|st.samples|, cfg.sampleMs, st.now, st.nextSample)
    ensures forall k: nat :: k < |st.samples| ==> st.samples[k].at == (k + 1) * cfg.sampleMs
  {
    hide Sum, Mean, SimTick, Decision, GateAfter, Under, Joined, AtMark, GateSamples;
    var g' := AfterMark(cfg, was, t, g);
    ToMark(|g.ivs|, cfg.admitMs, was.now, t, was.nextAdmit);
    ToMark(GateSamples(g.ivs) + |g.cur|, GATE_MS, was.now, t, was.nextGate);
    ToMark(|was.samples|, cfg.sampleMs, was.now, t, was.nextSample);
    SamplesMarked(cfg, was, t, g);
  }

  lemma SamplesMarked(cfg: Fleet, was: Sim, t: int, g: Record)
    requires cfg.admitMs >= 1
    ensures var g' := AfterMark(cfg, was, t, g);
            GateSamples(g'.ivs) + |g'.cur| == GateSamples(g.ivs) + |g.cur| + (if t == was.nextGate then 1 else 0)
  {
    hide Sum, Mean, Decision, Under;
    assert t == was.nextAdmit ==> AfterMark(cfg, was, t, g).ivs[..|g.ivs|] == g.ivs;
  }

  lemma IntervalsMarked(cfg: Fleet, was: Sim, t: int, g: Record)
    requires cfg.admitMs >= 1 && |g.joined| == |g.ivs| == |g.gone| && (forall k: nat :: k < |g.ivs| ==> IntervalOk(cfg, g, k))
    requires Sum(was.slots, Live) == Initial(cfg) + Total(g.joined) - g.retired
    requires t == was.nextAdmit ==>
               Decision(cfg, was, t).1 == if cfg.target > 0.0 then AdmissionGates.Due(GateOf(cfg), AfterMark(cfg, was, t, g).ivs) else 0
    ensures var g' := AfterMark(cfg, was, t, g);
            |g'.joined| == |g'.ivs| == |g'.gone| && forall k: nat :: k < |g'.ivs| ==> IntervalOk(cfg, g', k)
  {
    hide Sum, Mean, SimTick, Decision, GateAfter, Under, AdmissionGates.Due, Total;
    var g' := AfterMark(cfg, was, t, g);
    forall k: nat | k < |g'.ivs| ensures IntervalOk(cfg, g', k) {
      if k < |g.ivs| {
        assert IntervalOk(cfg, g, k);
        assert g'.ivs[..k + 1] == g.ivs[..k + 1] && g'.joined[..k] == g.joined[..k];
      } else {
        assert g'.ivs[..k + 1] == g'.ivs && g'.joined[..k] == g.joined;
      }
    }
  }

  // Every live slot's next event is at or after `t`, if every event of the heap is.
  lemma NothingEarlier(h: seq<Event>, slots: seq<Slot>, t: int)
    requires HeapOk(h, slots) && forall e :: e in h ==> e.at >= t
    ensures forall i: nat :: i < |slots| && slots[i].live ==> NextAt(slots[i]) >= t
  {
    forall i: nat | i < |slots| && slots[i].live ensures NextAt(slots[i]) >= t {
      var e := SomeEvent(h, i);
    }
  }

  lemma TimePasses(h: seq<Event>, slots: seq<Slot>, now: int, t: int)
    requires SlotsOk(slots, now) && HeapOk(h, slots) && now <= t && forall e :: e in h ==> e.at >= t
    ensures SlotsOk(slots, t)
  {
    hide SlotOk, HeapOk;
    NothingEarlier(h, slots, t);
    forall i: nat | i < |slots| ensures SlotOk(slots[i], t) {
      TimePassesForSlot(slots[i], now, t);
    }
  }

  // The slots with the event of slot `i` popped and the slot changed.
  lemma HeapWithout(h: seq<Event>, rest: seq<Event>, e: Event, slots: seq<Slot>, sl: Slot)
    requires HeapOk(h, slots) && e in h && !sl.live
    requires forall f :: f in rest ==> f in h
    requires forall i :: Tally(h, i) == (if e.slot == i then 1 else 0) + Tally(rest, i)
    ensures HeapOk(rest, slots[e.slot := sl])
  {
    NoEvent(rest, e.slot);
  }

  lemma HeapWith(h: seq<Event>, slots: seq<Slot>, i: nat, sl: Slot, e: Event)
    requires HeapOk(h, slots) && i < |slots| && !slots[i].live && sl.live
    requires e.slot == i && e.at == NextAt(sl)
    ensures HeapOk([e] + h, slots[i := sl])
  {
    NoEvent(h, i);
    forall k: nat | k < |slots| ensures Tally([e] + h, k) == if slots[i := sl][k].live then 1 else 0 {
      TallyPush(e, h, k);
    }
  }

  lemma HeapGrows(h: seq<Event>, slots: seq<Slot>, sl: Slot)
    requires HeapOk(h, slots) && !sl.live
    ensures HeapOk(h, slots + [sl])
  {
    NoneYet(h, |slots|);
  }

  lemma {:induction false} NoneYet(h: seq<Event>, n: nat)
    requires forall e :: e in h ==> e.slot < n
    ensures Tally(h, n) == 0
  {
    if h != [] {
      assert h[0] in h;
      NoneYet(h[1..], n);
    }
  }

  lemma SlotsUpdate(slots: seq<Slot>, now: int, i: nat, sl: Slot)
    requires SlotsOk(slots, now) && i < |slots| && SlotOk(sl, now)
    ensures SlotsOk(slots[i := sl], now)
  {
  }

  lemma TotalsUpdate(st: Sim, i: nat, sl: Slot, st': Sim)
    requires TotalsOk(st) && i < |st.slots| && st'.slots == st.slots[i := sl]
    requires st'.inflight == st.inflight - st.slots[i].inflight + sl.inflight
    requires st'.dataset == st.dataset - st.slots[i].tracked + sl.tracked
    ensures TotalsOk(st')
  {
    SumUpdate(st.slots, i, sl, Running);
    SumUpdate(st.slots, i, sl, Tracked);
  }

  class DatasetSim {
    const cfg: Fleet
    const sessions: seq<Session>
    // The session each dispatch takes, over all laps.
    const order: nat -> nat
    var st: Sim
    ghost var g: Record

    ghost predicate Conf() {
      && cfg.admitMs >= 1 && cfg.sampleMs >= 1
      && (forall k :: order(k) < |sessions|)
      && (forall s :: s in sessions ==> WellFormed(s))
    }

    ghost predicate Valid()
      reads this
    {
      Conf() && Inv(cfg, sessions, st)
    }

    ghost predicate Kept()
      reads this
    {
      Ledger(cfg, st, g)
    }

    // Play a new session in a slot that holds none.
    method Assign(i: nat)
      requires Conf() && Core(sessions, st) && i < |st.slots| && !st.slots[i].live
      modifies this`st
      ensures Core(sessions, st) && st.now == old(st.now)
      ensures |st.slots| == |old(st.slots)| && st.slots == old(st.slots)[i := st.slots[i]]
      ensures JustAssigned(st.slots[i], sessions[order(old(st.started))], st.now)
      ensures st == old(st).(slots := st.slots, h := st.h, seqNo := st.seqNo, started := old(st.started) + 1)
    {
      hide SlotsOk, HeapOk, SlotOk, WellFormed, SortedByEnd, Tally, Sum;
      var s := sessions[order(st.started)];
      var ends := SortByEnd(s.requests);
      var sl := Slot(s, st.now, 0, ends, 0, 0, 0, true);
      JustAssignedIsOk(sl, s, st.now);
      DeadCountsForNothing(st.slots, st.now, i);
      var e := Event(NextAt(sl), i, st.seqNo + 1);
      HeapWith(st.h, st.slots, i, sl, e);
      SlotsUpdate(st.slots, st.now, i, sl);
      assert s in sessions;
      var st' := st.(slots := st.slots[i := sl], h := [e] + st.h, seqNo := st.seqNo + 1, started := st.started + 1);
      TotalsUpdate(st, i, sl, st');
      st := st';
    }

    method AddSlot()
      requires Conf() && Core(sessions, st)
      modifies this`st
      ensures Core(sessions, st) && |st.slots| == |old(st.slots)| + 1
      ensures st.slots == old(st.slots) + [st.slots[|old(st.slots)|]]
      ensures JustAssigned(st.slots[|old(st.slots)|], sessions[order(old(st.started))], st.now)
      ensures Sum(st.slots, Live) == Sum(old(st.slots), Live) + 1
      ensures st == old(st).(slots := st.slots, h := st.h, seqNo := st.seqNo, started := old(st.started) + 1)
    {
      hide SlotsOk, HeapOk, Sum;
      var empty := Slot(Session([], 0), 0, 0, [], 0, 0, 0, false);
      HeapGrows(st.h, st.slots, empty);
      SlotsGrow(st.slots, st.now, empty);
      SumAppend(st.slots, empty, Running);
      SumAppend(st.slots, empty, Tracked);
      SumAppend(st.slots, empty, Live);
      st := st.(slots := st.slots + [empty]);
      ghost var slots := st.slots;
      Assign(|st.slots| - 1);
      SumUpdate(slots, |slots| - 1, st.slots[|slots| - 1], Live);
    }

    // The clock moves; the integrals grow.
    method Advance(t: int)
      modifies this`st
      ensures st == old(st).(now := t, area := st.area, sArea := st.sArea, gArea := st.gArea)
      ensures st.area - old(st.area) == st.sArea - old(st.sArea) == st.gArea - old(st.gArea) == old(st.inflight) * (t - old(st.now))
    {
      var d := t - st.now;
      st := st.(area := st.area + st.inflight * d, sArea := st.sArea + st.inflight * d, gArea := st.gArea + st.inflight * d, now := t);
    }

    // A slot whose session ended is refilled, or retired.
    method Refill(i: nat)
      requires Conf() && Core(sessions, st) && i < |st.slots| && !st.slots[i].live
      modifies this`st
      ensures Core(sessions, st)
      ensures st == old(st).(slots := st.slots, h := st.h, seqNo := st.seqNo, started := st.started)
      ensures |st.slots| == |old(st.slots)|
      ensures if Retires(cfg, st.lastMean) then st == old(st) else
                && st.started == old(st.started) + 1 && st.slots == old(st.slots)[i := st.slots[i]]
                && JustAssigned(st.slots[i], sessions[order(old(st.started))], st.now)
                && Sum(st.slots, Live) == Sum(old(st.slots), Live) + 1
                && Sum(st.slots, Due(st.now))
                     <= Sum(old(st.slots), Due(st.now)) + if Instant(sessions[order(old(st.started))]) then 2 else 1
    {
      hide Core, Sum, WellFormed, SortedByEnd;
      if !Retires(cfg, st.lastMean) {
        ghost var slots := st.slots;
        Assign(i);
        SumUpdate(slots, i, st.slots[i], Live);
        SumUpdate(slots, i, st.slots[i], Due(st.now));
      }
    }

    // The slot's session goes on: its next event is later.
    method Reschedule(i: nat, sl: Slot, inflight: int, dataset: int, rest: seq<Event>)
      requires Conf() && SlotsOk(st.slots, st.now) && TotalsOk(st) && FromCorpus(st.slots, sessions)
      requires i < |st.slots| && sl.live && sl.sess == st.slots[i].sess && st.slots[i].live
      requires SlotOk(sl, st.now) && NextAt(sl) > st.now
      requires HeapOk(rest, st.slots[i := sl.(live := false, tracked := 0)])
      requires inflight == st.inflight - st.slots[i].inflight + sl.inflight
      requires dataset == st.dataset - st.slots[i].tracked + sl.tracked
      modifies this`st
      ensures Core(sessions, st)
      ensures st == old(st).(slots := old(st.slots)[i := sl], h := st.h, seqNo := st.seqNo, inflight := inflight, dataset := dataset)
    {
      hide SlotOk, SlotsOk, HeapOk, WellFormed, SortedByEnd, Tally, Sum, Consistent, PlayedTo;
      var next := Event(NextAt(sl), i, st.seqNo + 1);
      HeapWith(rest, st.slots[i := sl.(live := false, tracked := 0)], i, sl, next);
      assert st.slots[i := sl.(live := false, tracked := 0)][i := sl] == st.slots[i := sl];
      SlotsUpdate(st.slots, st.now, i, sl);
      var st' := st.(h := [next] + rest, seqNo := st.seqNo + 1, slots := st.slots[i := sl], inflight := inflight, dataset := dataset);
      TotalsUpdate(st, i, sl, st');
      st := st';
    }

    // The slot's session is over: the slot is empty, and nothing of it is left in the totals.
    method Close(i: nat, sl: Slot, inflight: int, dataset: int, rest: seq<Event>)
      requires Conf() && SlotsOk(st.slots, st.now) && TotalsOk(st) && FromCorpus(st.slots, sessions)
      requires i < |st.slots| && sl.live && sl.inflight == 0
      requires HeapOk(rest, st.slots[i := sl.(live := false, tracked := 0)])
      requires inflight == st.inflight - st.slots[i].inflight + sl.inflight
      requires dataset == st.dataset - st.slots[i].tracked + sl.tracked
      modifies this`st
      ensures Core(sessions, st)
      ensures st == old(st).(slots := old(st.slots)[i := sl.(live := false, tracked := 0)], h := rest,
                             inflight := inflight, dataset := dataset - sl.tracked)
    {
      hide SlotOk, SlotsOk, HeapOk, WellFormed, SortedByEnd, Tally, Sum, Consistent, PlayedTo;
      var dead := sl.(live := false, tracked := 0);
      RetiredIsOk(dead, st.now);
      SlotsUpdate(st.slots, st.now, i, dead);
      var st' := st.(h := rest, slots := st.slots[i := dead], inflight := inflight, dataset := dataset - sl.tracked);
      TotalsUpdate(st, i, dead, st');
      st := st';
    }

    /**
     * One event of the heap, earlier than every tick. The clock moves, or what is due now
     * gets less, or it stays the same and an instant session was drawn; with nothing but
     * instant sessions the clock stands still.
     */
    method HandleEvent(t: int) returns (ghost e: Event)
      requires Valid() && st.h != [] && t <= st.nextAdmit && t <= st.nextSample && t <= st.nextGate && t <= cfg.horizon
      requires exists e :: e in st.h && e.at < t
      modifies this`st
      ensures Valid() && old(st.now) <= st.now < t
      ensures Progress(cfg, sessions, order, old(st), st)
      ensures st.lastMean == old(st.lastMean) && st.area == old(st.area) + old(st.inflight) * (st.now - old(st.now))
      ensures Handled(cfg, sessions, order, old(st), e, st)
      ensures Sum(st.slots, Live) < Sum(old(st.slots), Live) ==> Retires(cfg, st.lastMean)
      ensures st.started > old(st.started) ==> !Retires(cfg, st.lastMean)
      ensures AllInstant(sessions) ==> st.now == old(st.now)
      ensures AllInstant(sessions) && !Retires(cfg, st.lastMean) ==>
                st.started == old(st.started) + 1 && Sum(st.slots, Live) == Sum(old(st.slots), Live)
    {
      hide SlotOk, WellFormed, SortedByEnd, Tally, Sum, Consistent, PlayedTo, HeapOk, SlotsOk, Finished, JustAssigned, SizeOk;
      var first, rest := PopFirst(st.h);
      e := first;
      EventsAreNotPast(st.h, st.slots, st.now);
      TimePasses(st.h, st.slots, st.now, first.at);
      ghost var h := st.h;
      EventIsAboutASlot(h, st.slots, first);
      Advance(first.at);
      var i := first.slot;
      var was := st.slots[i];
      SlotDue(st.slots, st.now, i);
      var sl, inflight, dataset := Play(was, st.now - was.base, st.inflight, st.dataset);
      AfterPlaying(sl, st.now);
      FinishedIsOver(sl, st.now - was.base);
      HeapWithout(h, rest, first, st.slots, sl.(live := false, tracked := 0));
      if Finished(sl, st.now - was.base) {
        Close(i, sl, inflight, dataset, rest);
        Refill(i);
      } else {
        Reschedule(i, sl, inflight, dataset, rest);
      }
      HandledFacts(cfg, sessions, order, old(st), e, st);
    }

    method LiveSlots() returns (n: int)
      ensures n == Sum(st.slots, Live)
    {
      n := 0;
      for i := 0 to |st.slots|
        invariant n == Sum(st.slots[..i], Live)
      {
        assert st.slots[..i + 1][..i] == st.slots[..i];
        if st.slots[i].live {
          n := n + 1;
        }
      }
      assert st.slots[..|st.slots|] == st.slots;
    }

    /** One more session: in the first retired slot, or else in a new one. */
    method AdmitOne()
      requires Conf() && Core(sessions, st)
      modifies this`st
      ensures Core(sessions, st) && Sum(st.slots, Live) == Sum(old(st.slots), Live) + 1
      ensures st == old(st).(slots := st.slots, h := st.h, seqNo := st.seqNo, started := old(st.started) + 1)
      ensures exists i: nat :: JoinsAt(old(st.slots), st.slots, i)
                && JustAssigned(st.slots[i], sessions[order(old(st.started))], st.now)
    {
      hide HeapOk, Core, Sum;
      var i: nat := 0;
      while i < |st.slots| && st.slots[i].live
        invariant i <= |st.slots| && forall k: nat :: k < i ==> st.slots[k].live
      {
        i := i + 1;
      }
      if i < |st.slots| {
        ghost var slots := st.slots;
        Assign(i);
        SumUpdate(slots, i, st.slots[i], Live);
      } else {
        AddSlot();
      }
      assert JoinsAt(old(st.slots), st.slots, i);
    }

    method Admit(count: int)
      requires Conf() && Core(sessions, st)
      modifies this`st
      ensures Core(sessions, st)
      ensures Joined(old(st.slots), st.slots, st.now, if count > 0 then count else 0)
      ensures st == old(st).(slots := st.slots, h := st.h, seqNo := st.seqNo, started := old(st.started) + if count > 0 then count else 0)
    {
      hide Core, Sum, Joined;
      NobodyJoins(st.slots, st.now);
      var k := 0;
      while k < count
        invariant 0 <= k && (count > 0 ==> k <= count) && (count <= 0 ==> k == 0)
        invariant Core(sessions, st) && Joined(old(st.slots), st.slots, st.now, k)
        invariant st == old(st).(slots := st.slots, h := st.h, seqNo := st.seqNo, started := old(st.started) + k)
      {
        ghost var slots := st.slots;
        ghost var s := sessions[order(st.started)];
        AdmitOne();
        OneMoreJoined(old(st.slots), slots, st.slots, st.now, k, s);
        k := k + 1;
      }
    }

    // The gate's own sample: above target, the interval is not open.
    method GateTick()
      modifies this`st
      ensures var open := old(st.gArea) as real / GATE_MS as real < cfg.target;
              st == old(st).(gArea := 0, nextGate := old(st.nextGate) + GATE_MS,
                             gate := if open then old(st.gate) else old(st.gate).(sustained := false))
    {
      if st.gArea as real / GATE_MS as real >= cfg.target {
        st := st.(gate := st.gate.(sustained := false));
      }
      st := st.(gArea := 0, nextGate := st.nextGate + GATE_MS);
    }

    // The admission tick: the gate decides, and a batch is admitted.
    method AdmitTick()
      requires Conf() && Core(sessions, st) && SizeOk(cfg, st)
      modifies this`st
      ensures Core(sessions, st) && SizeOk(cfg, st)
      ensures st == old(st).(slots := st.slots, h := st.h, seqNo := st.seqNo, started := st.started, area := 0,
                             lastMean := old(st.area) as real / cfg.admitMs as real, gate := st.gate,
                             nextAdmit := old(st.nextAdmit) + cfg.admitMs)
      ensures var r := SimTick(GateOf(cfg), old(st.gate), old(st.gate).sustained && st.lastMean < cfg.target, Sum(old(st.slots), Live));
              var n := if cfg.target > 0.0 && r.1 > 0 then r.1 else 0;
              st.gate == r.0 && Joined(old(st.slots), st.slots, st.now, n) && st.started == old(st.started) + n
    {
      hide Core, Sum;
      NobodyJoins(st.slots, st.now);
      var mean := st.area as real / cfg.admitMs as real;
      var open := st.gate.sustained && mean < cfg.target;
      var live := LiveSlots();
      var r := SimTick(GateOf(cfg), st.gate, open, live);
      CoreIgnores(sessions, st, st.(area := 0, lastMean := mean, gate := r.0, nextAdmit := st.nextAdmit + cfg.admitMs));
      st := st.(area := 0, lastMean := mean, gate := r.0, nextAdmit := st.nextAdmit + cfg.admitMs);
      if cfg.target > 0.0 {
        Admit(r.1);
      }
    }

    method SampleTick()
      requires cfg.sampleMs >= 1
      modifies this`st
      ensures st == old(st).(sArea := 0, nextSample := old(st.nextSample) + cfg.sampleMs,
                             samples := old(st.samples) + [Sample(st.now, old(st.sArea) as real / cfg.sampleMs as real, st.dataset,
                                                                  Sum(st.slots, Live), Sum(st.slots, Contributing), st.started)])
    {
      var live := LiveSlots();
      var series := 0;
      for i := 0 to |st.slots|
        invariant series == Sum(st.slots[..i], Contributing) && st == old(st)
      {
        assert st.slots[..i + 1][..i] == st.slots[..i];
        if st.slots[i].live && st.slots[i].tracked > 0 {
          series := series + 1;
        }
      }
      assert st.slots[..|st.slots|] == st.slots;
      st := st.(sArea := 0, nextSample := st.nextSample + cfg.sampleMs,
                samples := st.samples + [Sample(st.now, st.sArea as real / cfg.sampleMs as real, st.dataset, live, series, st.started)]);
    }

    /** No event comes first: the clock moves to the next mark, or to the horizon. */
    method Tick(t: int)
      requires Valid() && st.now < t <= cfg.horizon
      requires t <= st.nextAdmit && t <= st.nextSample && t <= st.nextGate
      requires forall e :: e in st.h ==> e.at >= t
      modifies this`st
      ensures Valid() && st.now == t
      ensures Marked(cfg, old(st), t, st)
      ensures if old(st.nextAdmit) == t then st.area == 0 && st.lastMean == Mean(old(st.area) + old(st.inflight) * (t - old(st.now)), cfg.admitMs)
              else st.area == old(st.area) + old(st.inflight) * (t - old(st.now)) && st.lastMean == old(st.lastMean) && st.slots == old(st.slots)
    {
      hide Sum, SlotsOk, HeapOk;
      TimePasses(st.h, st.slots, st.now, t);
      Advance(t);
      if t == st.nextGate {
        GateTick();
      }
      if t == st.nextAdmit {
        AdmitTick();
      }
      if t == st.nextSample {
        SampleTick();
      }
    }

    /** One turn of the event loop. */
    method Step() returns (ghost handled: bool, ghost e: Event)
      requires Valid() && st.now < cfg.horizon && Kept()
      modifies this
      ensures Valid() && st.now >= old(st.now) && Kept()
      ensures Progress(cfg, sessions, order, old(st), st)
      ensures handled <==> exists f :: f in old(st.h) && f.at < NextMark(cfg, old(st))
      ensures if handled then Handled(cfg, sessions, order, old(st), e, st) else Marked(cfg, old(st), NextMark(cfg, old(st)), st)
      ensures if handled then e.slot < |old(st).slots| && g == AfterEvent(cfg, old(st), e, old(g))
              else g == AfterMark(cfg, old(st), NextMark(cfg, old(st)), old(g))
      ensures AllInstant(sessions) && Idle(old(st)) ==> Idle(st)
      ensures AllInstant(sessions) && Sum(old(st.slots), Live) > 0 && !Retires(cfg, old(st.lastMean)) ==>
                && st.now == old(st.now) && st.lastMean == old(st.lastMean)
                && Sum(st.slots, Live) == Sum(old(st.slots), Live) && st.started == old(st.started) + 1
    {
      hide Sum, Core, SizeOk, Handled, Marked, Ledger, AfterEvent, AfterMark;
      var t := NextMark(cfg, st);
      var early := false;
      for k := 0 to |st.h|
        invariant early <==> exists e :: e in st.h[..k] && e.at < t
      {
        assert st.h[..k + 1] == st.h[..k] + [st.h[k]];
        early := early || st.h[k].at < t;
      }
      assert st.h[..|st.h|] == st.h;
      if AllInstant(sessions) {
        InstantFleet(sessions, st);
      }
      ghost var was := st;
      handled := early;
      if early {
        e := HandleEvent(t);
        EventSlot(cfg, sessions, order, was, e, st);
        LedgerHandled(cfg, sessions, order, was, e, st, g);
        g := AfterEvent(cfg, was, e, g);
      } else {
        e := Event(t, 0, 0);
        Tick(t);
        LedgerMarked(cfg, was, t, st, g);
        g := AfterMark(cfg, was, t, g);
      }
    }

    /**
     * The event loop to the horizon, wherever it ends: the horizon is not ahead, or some
     * session takes time and the laps keep returning to it, or an idle fleet retires.
     */
    method Run()
      requires Valid() && Idle(st) && Recurs(order, |sessions|) && Ends(cfg, sessions) && Kept()
      modifies this
      ensures Valid() && st.now == End(cfg) && Kept()
    {
      hide Core, Sum, SizeOk, Handled, Marked, Ledger;
      while st.now < cfg.horizon
        invariant Valid() && Kept() && (AllInstant(sessions) ==> Idle(st))
        decreases cfg.horizon - st.now, Weight(st), Draws(sessions, order, st.started)
      {
        ghost var was := st;
        ghost var handled, e := Step();
        SameTimeWeight(was, st);
        if st.now == was.now && Weight(st) == Weight(was) {
          FewerDraws(sessions, order, was.started);
        }
      }
    }

    /**
     * And where it does not: with nothing but instant sessions, none of them retired, any
     * number of turns leaves the clock where it was, each turn drawing one session more.
     */
    method Turns(n: nat) returns (turns: nat)
      requires Valid() && Kept()
      modifies this
      ensures Valid() && turns <= n && (turns == n || st.now >= cfg.horizon)
      ensures AllInstant(sessions) && Sum(old(st.slots), Live) > 0 && !Retires(cfg, old(st.lastMean)) && old(st.now) < cfg.horizon ==>
                turns == n && st.now == old(st.now) < cfg.horizon && st.started == old(st.started) + n
    {
      hide Core, Sum, SizeOk, Handled, Marked, Ledger;
      turns := 0;
      while turns < n && st.now < cfg.horizon
        invariant Valid() && Kept() && turns <= n
        invariant AllInstant(sessions) && Sum(old(st.slots), Live) > 0 && !Retires(cfg, old(st.lastMean)) && old(st.now) < cfg.horizon ==>
                    && st.now == old(st.now) && st.lastMean == old(st.lastMean)
                    && Sum(st.slots, Live) == Sum(old(st.slots), Live) && st.started == old(st.started) + turns
      {
        ghost var handled, e := Step();
        turns := turns + 1;
      }
    }

    constructor (cfg: Fleet, sessions: seq<Session>, order: nat -> nat)
      requires cfg.admitMs >= 1 && cfg.sampleMs >= 1
      requires (forall k :: order(k) < |sessions|) && (forall s :: s in sessions ==> WellFormed(s))
      requires Initial(cfg) >= 0 && (cfg.target > 0.0 ==> cfg.startSeries > 0)
      ensures this.cfg == cfg && this.sessions == sessions && this.order == order
      ensures Valid() && st.now == 0 && Sum(st.slots, Live) == Initial(cfg) && st.samples == [] && Idle(st) && Kept()
    {
      this.cfg, this.sessions, this.order := cfg, sessions, order;
      st := Sim([], 0, [], 0, 0, 0, 0, 0, 0, 0, 0.0, FreshGate, cfg.admitMs, cfg.sampleMs, GATE_MS, []);
      g := Record([], [], [], [], 0, 0);
      new;
      var i := 0;
      while i < Initial(cfg)
        invariant 0 <= i <= Initial(cfg) && Conf() && Core(sessions, st)
        invariant |st.slots| == i == Sum(st.slots, Live)
        invariant st.now == 0 && Idle(st) && st.nextAdmit == cfg.admitMs && st.nextSample == cfg.sampleMs && st.nextGate == GATE_MS && st.samples == []
        invariant st.started == i && st.gate == FreshGate && g == Record([], [], [], [], 0, 0)
      {
        AddSlot();
        i := i + 1;
      }
    }
  }

  // Whether a slot whose session ends is retired instead of refilled.
  predicate Retires(cfg: Fleet, lastMean: real) {
    cfg.target > 0.0 && cfg.retire && lastMean > cfg.target * (1.0 + cfg.retireMargin)
  }

  // ---------------------------------------------------------------- whether it ends

  predicate AllInstant(sessions: seq<Session>) {
    forall s :: s in sessions ==> Instant(s)
  }

  // Nothing has run since the last admission tick, or in the interval before it.
  predicate Idle(st: Sim) {
    st.area == 0 && st.lastMean == 0.0
  }

  predicate Ends(cfg: Fleet, sessions: seq<Session>) {
    cfg.horizon <= 0 || !AllInstant(sessions) || Retires(cfg, 0.0)
  }

  // Every session is drawn again and again.
  ghost predicate Recurs(order: nat -> nat, n: nat) {
    forall i: nat, k: nat :: i < n ==> DrawnAfter(order, i, k)
  }

  ghost predicate DrawnAfter(order: nat -> nat, i: nat, k: nat) {
    exists m: nat :: m >= k && order(m) == i
  }

  // Draw m takes a session that takes time.
  predicate Timed(sessions: seq<Session>, order: nat -> nat, m: nat) {
    order(m) < |sessions| && !Instant(sessions[order(m)])
  }

  ghost predicate IsNextTimed(sessions: seq<Session>, order: nat -> nat, k: nat, m: nat) {
    m >= k && Timed(sessions, order, m) && forall j: nat :: k <= j < m ==> !Timed(sessions, order, j)
  }

  // Draws up to the next session that takes time, if there is one.
  ghost function Draws(sessions: seq<Session>, order: nat -> nat, k: nat): nat {
    if m: nat :| IsNextTimed(sessions, order, k, m) then m - k else 0
  }

  lemma {:induction false} FirstTimed(sessions: seq<Session>, order: nat -> nat, k: nat, m: nat) returns (f: nat)
    requires m >= k && Timed(sessions, order, m)
    ensures IsNextTimed(sessions, order, k, f)
    decreases m - k
  {
    if Timed(sessions, order, k) {
      f := k;
    } else {
      f := FirstTimed(sessions, order, k + 1, m);
    }
  }

  lemma FewerDraws(sessions: seq<Session>, order: nat -> nat, k: nat)
    requires Recurs(order, |sessions|) && !AllInstant(sessions) && !Timed(sessions, order, k)
    ensures Draws(sessions, order, k + 1) < Draws(sessions, order, k)
  {
    var s :| s in sessions && !Instant(s);
    var i: nat :| i < |sessions| && sessions[i] == s;
    assert DrawnAfter(order, i, k);
    var m: nat :| m >= k && order(m) == i;
    var f := FirstTimed(sessions, order, k, m);
    assert IsNextTimed(sessions, order, k + 1, f);
    NextTimedIsUnique(sessions, order, k);
    NextTimedIsUnique(sessions, order, k + 1);
  }

  lemma NextTimedIsUnique(sessions: seq<Session>, order: nat -> nat, k: nat)
    ensures forall f, m :: IsNextTimed(sessions, order, k, f) && IsNextTimed(sessions, order, k, m) ==> f == m
  {
  }

  // Laps that are whole permutations bring every session back.
  function LapStart(l: Laps, perms: nat -> seq<nat>, lap: nat): nat {
    if lap == 0 then 0 else LapStart(l, perms, lap - 1) + |LapOrder(l, lap - 1, perms(lap - 1))|
  }

  ghost predicate FollowsLaps(order: nat -> nat, l: Laps, perms: nat -> seq<nat>) {
    forall lap: nat, j: nat :: j < |LapOrder(l, lap, perms(lap))| ==>
      order(LapStart(l, perms, lap) + j) == LapOrder(l, lap, perms(lap))[j]
  }

  lemma {:induction false} LapsGoOn(l: Laps, perms: nat -> seq<nat>, lap: nat)
    requires l.n > 0 && l.allowed.None?
    requires l.strategy == Random ==> forall k :: IsPermutation(perms(k), l.n)
    ensures LapStart(l, perms, lap + 1) >= lap
  {
    if lap > 0 {
      LapsGoOn(l, perms, lap - 1);
      LapsAreWhole(l, lap, perms(lap), 0);
    }
  }

  /** The order the laps give draws every session again and again. */
  lemma LapsRecur(order: nat -> nat, l: Laps, perms: nat -> seq<nat>)
    requires l.n > 0 && l.allowed.None?
    requires l.strategy == Random ==> forall k :: IsPermutation(perms(k), l.n)
    requires FollowsLaps(order, l, perms)
    ensures Recurs(order, l.n)
  {
    forall i: nat, k: nat | i < l.n ensures DrawnAfter(order, i, k) {
      DrawnInLap(order, l, perms, i, k);
    }
  }

  lemma DrawnInLap(order: nat -> nat, l: Laps, perms: nat -> seq<nat>, i: nat, k: nat)
    requires i < l.n && l.allowed.None? && FollowsLaps(order, l, perms)
    requires l.strategy == Random ==> forall k :: IsPermutation(perms(k), l.n)
    ensures DrawnAfter(order, i, k)
  {
    hide LapOrder, LapStart, IsPermutation;
    LapsGoOn(l, perms, k);
    LapsAreWhole(l, k + 1, perms(k + 1), i);
    var drawn := LapOrder(l, k + 1, perms(k + 1));
    assert i in multiset(drawn);
    var j: nat :| j < |drawn| && drawn[j] == i;
    assert order(LapStart(l, perms, k + 1) + j) == i;
  }

  lemma SameTimeWeight(was: Sim, after: Sim)
    ensures after.now == was.now ==> Weight(was) == Sum(was.slots, Due(after.now)) && Weight(after) == Sum(after.slots, Due(after.now))
  {
  }

  lemma InstantSlotIsDue(slots: seq<Slot>, now: int, i: nat)
    requires SlotsOk(slots, now) && i < |slots|
    ensures slots[i].live && Instant(slots[i].sess) ==> NextAt(slots[i]) == slots[i].base == now
  {
    if slots[i].live && Instant(slots[i].sess) {
      assert SlotOk(slots[i], now);
      InstantIsDue(slots[i], now);
    }
  }

  /** A fleet of instant sessions runs nothing, and while it has a slot an event is due now. */
  lemma InstantFleet(sessions: seq<Session>, st: Sim)
    requires Core(sessions, st) && AllInstant(sessions)
    ensures st.inflight == 0
    ensures Sum(st.slots, Live) > 0 ==> exists e :: e in st.h && e.at == st.now
  {
    NothingIsRunning(st.slots, sessions, st.now);
    if Sum(st.slots, Live) > 0 {
      var i := SomeLive(st.slots);
      InstantSlotIsDue(st.slots, st.now, i);
      var e := SomeEvent(st.h, i);
    }
  }

  lemma {:induction false} NothingIsRunning(slots: seq<Slot>, sessions: seq<Session>, now: int)
    requires SlotsOk(slots, now) && FromCorpus(slots, sessions) && AllInstant(sessions)
    ensures Sum(slots, Running) == 0
  {
    if slots != [] {
      var n := |slots| - 1;
      NothingIsRunning(slots[..n], sessions, now);
      assert SlotOk(slots[n], now);
      SlotIsExact(slots[n], now);
      if slots[n].live {
        InstantIsDue(slots[n], now);
      }
    }
  }

  lemma {:induction false} SomeLive(slots: seq<Slot>) returns (i: nat)
    requires Sum(slots, Live) > 0
    ensures i < |slots| && slots[i].live
  {
    var n := |slots| - 1;
    if slots[n].live {
      i := n;
    } else {
      i := SomeLive(slots[..n]);
    }
  }

  ghost function Weight(st: Sim): nat {
    DueIsPositive(st.slots, st.now);
    Sum(st.slots, Due(st.now))
  }

  function Min(a: int, b: int): int { if a <= b then a else b }

  lemma CoreIgnores(sessions: seq<Session>, st: Sim, st': Sim)
    requires Core(sessions, st)
    requires st'.slots == st.slots && st'.h == st.h && st'.now == st.now && st'.inflight == st.inflight && st'.dataset == st.dataset
    ensures Core(sessions, st')
  {
  }

  lemma DeadCountsForNothing(slots: seq<Slot>, now: int, i: nat)
    requires SlotsOk(slots, now) && i < |slots| && !slots[i].live
    ensures slots[i].inflight == 0 && slots[i].tracked == 0
  {
    assert SlotOk(slots[i], now);
  }

  lemma SlotsGrow(slots: seq<Slot>, now: int, sl: Slot)
    requires SlotsOk(slots, now) && !sl.live && sl.tracked == 0 && sl.inflight == 0
    ensures SlotsOk(slots + [sl], now)
  {
  }

  lemma EventsAreNotPast(h: seq<Event>, slots: seq<Slot>, now: int)
    requires HeapOk(h, slots) && SlotsOk(slots, now)
    ensures forall e :: e in h ==> e.at >= now
  {
    forall e | e in h ensures e.at >= now {
      assert SlotOk(slots[e.slot], now);
    }
  }

  lemma EventIsAboutASlot(h: seq<Event>, slots: seq<Slot>, e: Event)
    requires HeapOk(h, slots) && e in h
    ensures e.slot < |slots| && slots[e.slot].live && NextAt(slots[e.slot]) == e.at
  {
  }

  // A slot whose event is due has played everything before now.
  lemma SlotDue(slots: seq<Slot>, now: int, i: nat)
    requires SlotsOk(slots, now) && i < |slots| && slots[i].live && NextAt(slots[i]) == now
    ensures Consistent(slots[i]) && slots[i].base <= now && PlayedTo(slots[i], now - slots[i].base - 1)
  {
    assert SlotOk(slots[i], now);
  }

  lemma RetiredIsOk(sl: Slot, now: int)
    requires !sl.live && sl.tracked == 0 && sl.inflight == 0
    ensures SlotOk(sl, now)
  {
  }

  // ---------------------------------------------------------------- what it means

  ghost function RecomputedAll(slots: seq<Slot>, now: int): int {
    if slots == [] then 0 else RecomputedAll(slots[..|slots| - 1], now) + Recomputed(slots[|slots| - 1], now)
  }

  lemma {:induction false} RecomputingAgrees(slots: seq<Slot>, now: int)
    requires SlotsOk(slots, now)
    ensures Sum(slots, Running) == RecomputedAll(slots, now)
  {
    if slots != [] {
      var n := |slots| - 1;
      assert SlotOk(slots[n], now);
      SlotIsExact(slots[n], now);
      RecomputingAgrees(slots[..n], now);
    }
  }

  /**
   * After every event and tick: the in-flight total is what recounting every live slot's
   * session from its base time gives, and the dataset total is what the slots track.
   */
  lemma TotalsAreExact(cfg: Fleet, sessions: seq<Session>, st: Sim)
    requires Inv(cfg, sessions, st)
    ensures st.inflight == RecomputedAll(st.slots, st.now) >= 0
    ensures st.dataset == Sum(st.slots, Tracked)
    ensures forall i: nat :: i < |st.slots| && !st.slots[i].live ==> st.slots[i].inflight == 0 && st.slots[i].tracked == 0
  {
    RecomputingAgrees(st.slots, st.now);
    RecountsArePositive(st.slots, st.now);
    forall i: nat | i < |st.slots| && !st.slots[i].live ensures st.slots[i].inflight == 0 && st.slots[i].tracked == 0 {
      assert SlotOk(st.slots[i], st.now);
    }
  }

  lemma {:induction false} RecountsArePositive(slots: seq<Slot>, now: int)
    ensures RecomputedAll(slots, now) >= 0
  {
    if slots != [] {
      RecountsArePositive(slots[..|slots| - 1], now);
    }
  }

  /** Each live slot has exactly one event of the heap, never in the past; a retired one has none. */
  lemma OneEventEach(cfg: Fleet, sessions: seq<Session>, st: Sim, i: nat)
    requires Inv(cfg, sessions, st) && i < |st.slots|
    ensures st.slots[i].live <==> exists e :: e in st.h && e.slot == i
    ensures Tally(st.h, i) <= 1
    ensures forall e :: e in st.h && e.slot == i ==> e.at == NextAt(st.slots[i]) >= st.now
  {
    if st.slots[i].live {
      var e := SomeEvent(st.h, i);
      assert SlotOk(st.slots[i], st.now);
    }
  }

  datatype Outcome = Samples(samples: seq<Sample>) | Refused(why: string)

  predicate Accepted(sessions: seq<Session>, fleet: Fleet) {
    sessions != [] && (fleet.series > 0) != (fleet.target > 0.0)
  }

  /** SimulateDataset, on every input on which it returns. */
  method SimulateDataset(sessions: seq<Session>, fleet: Fleet, order: nat -> nat) returns (r: Outcome, ghost st: Sim, ghost g: Record)
    requires forall s :: s in sessions ==> WellFormed(s)
    requires sessions != [] ==> Recurs(order, |sessions|) && forall k :: order(k) < |sessions|
    requires Accepted(sessions, fleet) ==> Ends(Defaulted(fleet), sessions)
    ensures r.Refused? <==> !Accepted(sessions, fleet)
    ensures r.Samples? ==> Inv(Defaulted(fleet), sessions, st) && st.now == End(fleet) && r.samples == st.samples
    ensures r.Samples? ==> Ledger(Defaulted(fleet), st, g)
  {
    g := Record([], [], [], [], 0, 0);
    st := Sim([], 0, [], 0, 0, 0, 0, 0, 0, 0, 0.0, FreshGate, 0, 0, 0, []);
    if |sessions| == 0 {
      return Refused("no sessions"), st, g;
    }
    if (fleet.series > 0) == (fleet.target > 0.0) {
      return Refused("set exactly one of Series and TargetInflight"), st, g;
    }
    var sim := new DatasetSim(Defaulted(fleet), sessions, order);
    sim.Run();
    return Samples(sim.st.samples), sim.st, sim.g;
  }

  /** On every other input it does not: after any number of turns the clock reads 0. */
  method NeverReturns(sessions: seq<Session>, fleet: Fleet, order: nat -> nat, turns: nat) returns (taken: nat, now: int)
    requires forall s :: s in sessions ==> WellFormed(s)
    requires sessions != [] ==> forall k :: order(k) < |sessions|
    requires Accepted(sessions, fleet) && !Ends(Defaulted(fleet), sessions)
    ensures taken == turns && now == 0 < fleet.horizon
  {
    var sim := new DatasetSim(Defaulted(fleet), sessions, order);
    taken := sim.Turns(turns);
    now := sim.st.now;
  }

  function Defaulted(fleet: Fleet): (r: Fleet)
    ensures r.sampleMs >= 1 && r.admitMs >= 1 && r.startSeries >= 1
    ensures r.horizon == fleet.horizon && r.series == fleet.series && r.target == fleet.target
  {
    fleet.(sampleMs := if fleet.sampleMs <= 0 then 600000 else fleet.sampleMs,
           admitMs := if fleet.admitMs <= 0 then 60000 else fleet.admitMs,
           startSeries := if fleet.startSeries <= 0 then 32 else fleet.startSeries)
  }
}
