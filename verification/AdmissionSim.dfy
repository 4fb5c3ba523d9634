// The discrete-event model of session admission (benchmark/admission_sim.go): the closures
// and the event loop as one object, and what every event keeps.

module AdmissionSims {
  import opened SimQueues

  datatype Profile = Profile(name: string, prefillRate: real, decodeRate: real, maxSeqs: int, hitRate: real)

  datatype Config = Config(servers: seq<Profile>, admitEvery: real, ttftLimit: real,
                           maxSeries: int, horizon: real, ttftWindow: real)

  datatype Request = Request(due: real, input: real, output: real)

  datatype Session = Session(reqs: seq<Request>, cursor: nat, admittedAt: real, active: bool)

  datatype Server = Server(prof: Profile, prefillFreeAt: real, resident: seq<real>,
                           outstanding: int, prefillBusy: real, slotSecs: real)

  datatype Span = Span(begin: real, end: real)

  datatype SimResult = SimResult(maxSessions: nat, finalSessions: int, maxConcurrency: int, meanConcurrency: real,
                                 completed: nat, seriesStall: real, sessionsRetired: int, throughput: real)

  ghost predicate Sane(p: Profile) {
    p.prefillRate > 0.0 && p.decodeRate > 0.0 && p.maxSeqs >= 1 && p.hitRate <= 1.0
  }

  ghost predicate SaneRequests(reqs: seq<Request>) {
    forall r :: r in reqs ==> r.input >= 0.0 && r.output >= 0.0
  }

  function Defaulted(cfg: Config): (r: Config)
    ensures r.admitEvery > 0.0 && r.ttftLimit > 0.0 && r.ttftWindow > 0.0 && r.horizon > 0.0
    ensures r.servers == cfg.servers && r.maxSeries == cfg.maxSeries
  {
    cfg.(admitEvery := if cfg.admitEvery <= 0.0 then 1.0 else cfg.admitEvery,
         ttftLimit := if cfg.ttftLimit <= 0.0 then 5.0 else cfg.ttftLimit,
         ttftWindow := if cfg.ttftWindow <= 0.0 then 30.0 else cfg.ttftWindow,
         horizon := if cfg.horizon <= 0.0 then 3600.0 else cfg.horizon)
  }

  // ---------------------------------------------------------------- sums

  datatype Figure = Active | Sent | Left

  function Value(s: Session, f: Figure): nat {
    match f
    case Active => if s.active then 1 else 0
    case Sent => s.cursor
    case Left => if s.cursor < |s.reqs| then |s.reqs| - s.cursor else 0
  }

  function Sum(sess: seq<Session>, f: Figure): nat {
    if sess == [] then 0 else Value(sess[0], f) + Sum(sess[1..], f)
  }

  lemma {:induction false} SumAppend(sess: seq<Session>, s: Session, f: Figure)
    ensures Sum(sess + [s], f) == Sum(sess, f) + Value(s, f)
  {
    if sess != [] {
      assert (sess + [s])[1..] == sess[1..] + [s];
      SumAppend(sess[1..], s, f);
    } else {
      assert sess + [s] == [s];
    }
  }

  lemma {:induction false} SumUpdate(sess: seq<Session>, i: nat, s: Session, f: Figure)
    requires i < |sess|
    ensures Sum(sess[i := s], f) == Sum(sess, f) - Value(sess[i], f) + Value(s, f)
  {
    if i == 0 {
      assert sess[0 := s][1..] == sess[1..];
    } else {
      assert sess[i := s][1..] == sess[1..][i - 1 := s];
      SumUpdate(sess[1..], i - 1, s, f);
    }
  }

  function Total(xs: seq<real>): real {
    if xs == [] then 0.0 else xs[0] + Total(xs[1..])
  }

  lemma {:induction false} TotalAppend(xs: seq<real>, x: real)
    ensures Total(xs + [x]) == Total(xs) + x
  {
    if xs != [] {
      assert (xs + [x])[1..] == xs[1..] + [x];
      TotalAppend(xs[1..], x);
    } else {
      assert xs + [x] == [x];
    }
  }

  // The newest first.
  function Length(spans: seq<Span>): real {
    if spans == [] then 0.0 else spans[0].end - spans[0].begin + Length(spans[1..])
  }

  lemma LengthPush(s: Span, spans: seq<Span>)
    ensures Length([s] + spans) == s.end - s.begin + Length(spans)
  {
    assert ([s] + spans)[1..] == spans;
  }

  // One after the other, the newest first, the last of them over by `free`.
  ghost predicate Serial(spans: seq<Span>, free: real) {
    spans == [] || (spans[0].begin <= spans[0].end <= free && Serial(spans[1..], spans[0].begin))
  }

  lemma SerialPush(s: Span, spans: seq<Span>, free: real)
    requires Serial(spans, free) && free <= s.begin <= s.end
    ensures Serial([s] + spans, s.end)
  {
    assert ([s] + spans)[1..] == spans;
  }

  lemma OneEvent(e: Event)
    requires e.kind == Admit
    ensures Tally([e], Ticks) == 1 && Tally([e], Completions) == 0
    ensures forall i :: Tally([e], OfServer(i)) == 0
  {
    forall m ensures Tally([e], m) == Weight(e, m) {
      assert [e] + [] == [e];
      TallyPush(e, [], m);
    }
  }

  /** Spans in series never overlap: a later one begins after an earlier one ended. */
  lemma {:induction false} SerialNeverOverlaps(spans: seq<Span>, free: real, i: nat, j: nat)
    requires Serial(spans, free) && i < j < |spans|
    ensures spans[j].end <= spans[i].begin
  {
    if i > 0 {
      SerialNeverOverlaps(spans[1..], spans[0].begin, i - 1, j - 1);
    } else if j > 1 {
      SerialNeverOverlaps(spans[1..], spans[0].begin, 0, j - 1);
      assert spans[1].begin <= spans[1].end <= spans[0].begin;
    }
  }

  // ---------------------------------------------------------------- the window

  // Sum and number of the TTFTs seen at or after `cut`.
  function SumSince(ttfts: seq<real>, seenAt: seq<real>, cut: real): real
    requires |ttfts| == |seenAt|
  {
    if ttfts == [] then 0.0
    else (if seenAt[0] >= cut then ttfts[0] else 0.0) + SumSince(ttfts[1..], seenAt[1..], cut)
  }

  function CountSince(seenAt: seq<real>, cut: real): nat {
    if seenAt == [] then 0 else (if seenAt[0] >= cut then 1 else 0) + CountSince(seenAt[1..], cut)
  }

  // The window is the end of the history, which is in order of time.
  ghost predicate Tails(ttfts: seq<real>, seenAt: seq<real>, recent: seq<real>, recentAt: seq<real>, now: real) {
    && |seenAt| == |ttfts| && |recent| == |recentAt| <= |ttfts|
    && recent == ttfts[|ttfts| - |recent|..]
    && recentAt == seenAt[|ttfts| - |recent|..]
    && Ascending(seenAt)
    && (forall j :: 0 <= j < |seenAt| ==> seenAt[j] <= now)
  }

  lemma TailsAppend(ttfts: seq<real>, seenAt: seq<real>, recent: seq<real>, recentAt: seq<real>, now: real, x: real)
    requires Tails(ttfts, seenAt, recent, recentAt, now)
    ensures Tails(ttfts + [x], seenAt + [now], recent + [x], recentAt + [now], now)
  {
    var k := |ttfts| - |recent|;
    assert (ttfts + [x])[k..] == recent + [x];
    assert (seenAt + [now])[k..] == recentAt + [now];
  }

  lemma TailsShrink(ttfts: seq<real>, seenAt: seq<real>, recent: seq<real>, recentAt: seq<real>, now: real, i: nat, edge: real)
    requires Tails(ttfts, seenAt, recent, recentAt, now) && i <= |recent|
    requires i < |recent| ==> recentAt[i] >= edge
    requires forall j :: 0 <= j < i ==> recentAt[j] < edge
    requires forall j :: 0 <= j < |ttfts| - |recent| ==> seenAt[j] < edge
    ensures Tails(ttfts, seenAt, recent[i..], recentAt[i..], now)
    ensures forall j :: 0 <= j < |recent| - i ==> recentAt[i..][j] >= edge
    ensures forall j :: 0 <= j < |ttfts| - |recent[i..]| ==> seenAt[j] < edge
  {
    var k := |ttfts| - |recent|;
    assert recent[i..] == ttfts[k + i..];
    assert recentAt[i..] == seenAt[k + i..];
    forall j | 0 <= j < k + i ensures seenAt[j] < edge {
      if j >= k {
        assert seenAt[j] == recentAt[j - k];
      }
    }
    forall j | 0 <= j < |recent| - i ensures recentAt[i..][j] >= edge {
      assert recentAt[i..][j] == seenAt[k + i + j] && recentAt[i] == seenAt[k + i];
    }
  }

  lemma {:induction false} SinceIsTheTail(ttfts: seq<real>, seenAt: seq<real>, cut: real, k: nat)
    requires |ttfts| == |seenAt| && k <= |ttfts|
    requires forall j :: 0 <= j < k ==> seenAt[j] < cut
    requires forall j :: k <= j < |seenAt| ==> seenAt[j] >= cut
    ensures SumSince(ttfts, seenAt, cut) == Total(ttfts[k..])
    ensures CountSince(seenAt, cut) == |ttfts| - k
  {
    if ttfts != [] {
      if k > 0 {
        SinceIsTheTail(ttfts[1..], seenAt[1..], cut, k - 1);
        assert ttfts[1..][k - 1..] == ttfts[k..];
      } else {
        SinceIsTheTail(ttfts[1..], seenAt[1..], cut, 0);
        assert ttfts[1..][0..] == ttfts[0..][1..];
      }
    }
  }

  // ---------------------------------------------------------------- slots

  // The sequences still holding a slot.
  function Running(ends: seq<real>, now: real): seq<real> {
    if ends == [] then []
    else (if ends[0] > now then [ends[0]] else []) + Running(ends[1..], now)
  }

  ghost predicate Ascending(ends: seq<real>) {
    forall i, j :: 0 <= i < j < |ends| ==> ends[i] <= ends[j]
  }

  ghost predicate Sorted(ends: seq<real>) {
    |ends| < 2 || (ends[0] <= ends[1] && Sorted(ends[1..]))
  }

  lemma {:induction false} RunningIsAll(ends: seq<real>, now: real)
    requires ends != [] ==> ends[0] > now
    requires Sorted(ends)
    ensures Running(ends, now) == ends
  {
    if ends != [] {
      RunningIsAll(ends[1..], now);
    }
  }

  function Insert(ends: seq<real>, x: real): seq<real> {
    if ends == [] || x <= ends[0] then [x] + ends else [ends[0]] + Insert(ends[1..], x)
  }

  lemma {:induction false} InsertKeepsSorted(ends: seq<real>, x: real)
    requires Sorted(ends)
    ensures Sorted(Insert(ends, x)) && multiset(Insert(ends, x)) == multiset(ends) + multiset{x}
  {
    var r := Insert(ends, x);
    if ends == [] || x <= ends[0] {
      assert r[1..] == ends;
    } else {
      InsertKeepsSorted(ends[1..], x);
      assert r[1..] == Insert(ends[1..], x);
      assert ends == [ends[0]] + ends[1..];
    }
  }

  function Max(a: real, b: real): real { if a >= b then a else b }

  function Larger(a: int, b: int): int { if a >= b then a else b }

  // ---------------------------------------------------------------- the state

  // The variables of the run that the closures share.
  datatype Sim = Sim(
    q: seq<Event>, srv: seq<Server>, sess: seq<Session>, pending: seq<nat>, now: real, nextSession: nat,
    active: int, maxSessions: nat, inflight: int, maxInflight: int, concSecs: real, completed: nat,
    win: Window, seriesStall: real, blockedSince: real, retired: int, inputSum: real)

  datatype Window = Window(ttfts: seq<real>, recent: seq<real>, recentAt: seq<real>, recentSum: real)

  // A tick of the admission loop: when, whether it admitted a session, and how many TTFTs
  // had been seen by then.
  datatype Tick = Tick(at: real, admitted: bool, seen: nat)

  // A request as it was played: when it was sent, to which server, when its prefill began,
  // and when its last token came.
  datatype Call = Call(sentAt: real, srv: nat, begin: real, end: real)

  // What really happened: when each session last sent a request, the requests that
  // finished, each server's prefills, when each TTFT was seen, the time spent with a
  // session waiting for the pool, the ticks played, and every session's requests as sent.
  datatype History = History(begun: seq<real>, log: seq<Span>, prefills: seq<seq<Span>>, seenAt: seq<real>, stalled: real,
                             ticks: seq<Tick>, calls: seq<seq<Call>>)

  ghost predicate Conf(cfg: Config, templates: seq<seq<Request>>) {
    && cfg.servers != []
    && cfg.admitEvery > 0.0
    && (forall p :: p in cfg.servers ==> Sane(p))
    && (forall t :: t in templates ==> SaneRequests(t))
  }

  // Nothing is due in the past; events and waiters name sessions that have something to
  // do; and every active session is in exactly one place, unless it is `loose`.
  ghost predicate Places(queue: seq<Event>, sess: seq<Session>, pending: seq<nat>, now: real, loose: int) {
    && (forall e :: e in queue ==> now <= e.at)
    && (forall e :: e in queue && e.kind != Admit ==> e.sess < |sess|)
    && (forall e :: e in queue && e.kind == Done ==> sess[e.sess].cursor < |sess[e.sess].reqs|)
    && (forall s :: s in pending ==> s < |sess| && sess[s].cursor < |sess[s].reqs|)
    && (forall s: nat :: s < |sess| ==> OnePlace(queue, sess[s], pending, loose, s))
  }

  ghost predicate OnePlace(queue: seq<Event>, session: Session, pending: seq<nat>, loose: int, s: nat) {
    Tally(queue, OfSession(s)) + multiset(pending)[s] + (if s == loose then 1 else 0) == if session.active then 1 else 0
  }

  // With `room` more requests the pool would be full whenever someone waits for it.
  ghost predicate Full(pending: seq<nat>, inflight: int, cap: int, room: nat) {
    pending != [] ==> cap > 0 && inflight + room >= cap
  }

  ghost predicate Sessions(st: Sim) {
    && st.active == Sum(st.sess, Active)
    && st.active + st.retired == |st.sess| == st.nextSession
    && st.active <= st.maxSessions
    && AllSane(st.sess)
  }

  ghost predicate AllSane(sess: seq<Session>) {
    forall s: nat :: s < |sess| ==> SaneRequests(sess[s].reqs)
  }

  // The integral of requests in flight is the time requests were open.
  ghost predicate Little(queue: seq<Event>, st: Sim, h: History) {
    && |h.begun| == |st.sess|
    && |h.log| == st.completed
    && st.now >= 0.0
    && 0 <= st.maxInflight
    && st.concSecs == Length(h.log) + OpenSecs(queue, h.begun, st.now)
    && st.concSecs <= st.maxInflight as real * st.now
  }

  ghost predicate Engines(cfg: Config, srv: seq<Server>, prefills: seq<seq<Span>>) {
    && |srv| == |prefills| == |cfg.servers|
    && (forall i: nat :: i < |srv| ==> EngineOk(srv[i], cfg.servers[i], prefills[i]))
  }

  ghost predicate EngineOk(s: Server, p: Profile, prefills: seq<Span>) {
    && s.prof == p
    && Sorted(s.resident)
    && Serial(prefills, s.prefillFreeAt)
    && s.prefillBusy == Length(prefills)
  }

  ghost predicate WindowOk(cfg: Config, w: Window, seenAt: seq<real>, now: real) {
    && Tails(w.ttfts, seenAt, w.recent, w.recentAt, now)
    && w.recentSum == Total(w.recent)
    && (forall j :: 0 <= j < |w.ttfts| - |w.recent| ==> seenAt[j] < now - cfg.ttftWindow)
  }

  ghost predicate Stall(st: Sim, stalled: real) {
    st.seriesStall + (if st.pending != [] then st.now - st.blockedSince else 0.0) == stalled
  }

  ghost predicate OneTick(queue: seq<Event>) {
    Tally(queue, Ticks) <= 1
  }

  // Every invariant, for the events `queue`; while one event is being handled, its session
  // is `loose` and `room` is what its server slot may have freed.
  ghost predicate Inv(cfg: Config, st: Sim, h: History, queue: seq<Event>, loose: int, room: nat) {
    && Places(queue, st.sess, st.pending, st.now, loose)
    && PoolOk(queue, st.srv, st.sess, st.inflight, st.maxInflight, st.completed, |st.win.ttfts|, cfg.maxSeries)
    && Full(st.pending, st.inflight, cfg.maxSeries, room)
    && Sessions(st) && Little(queue, st, h)
    && Engines(cfg, st.srv, h.prefills)
    && WindowOk(cfg, st.win, h.seenAt, st.now)
    && Stall(st, h.stalled) && OneTick(queue)
  }

  // Requests in flight, per server and in all; `sent` of them were ever sent.
  ghost predicate PoolOk(queue: seq<Event>, srv: seq<Server>, sess: seq<Session>, inflight: int, maxInflight: int,
                         completed: nat, sent: nat, cap: int) {
    && (forall e :: e in queue && e.kind == Done ==> e.srv < |srv|)
    && (forall i: nat :: i < |srv| ==> srv[i].outstanding == Tally(queue, OfServer(i)))
    && inflight == Tally(queue, Completions)
    && inflight <= maxInflight
    && (cap > 0 ==> maxInflight <= cap)
    && sent == completed + inflight
    && completed == Sum(sess, Sent)
  }

  lemma PoolOneMore(queue: seq<Event>, srv: seq<Server>, sess: seq<Session>, inflight: int, maxInflight: int,
                    completed: nat, sent: nat, cap: int, e: Event, srv': seq<Server>)
    requires PoolOk(queue, srv, sess, inflight, maxInflight, completed, sent, cap)
    requires e.kind == Done && e.srv < |srv| == |srv'| && srv'[e.srv].outstanding == srv[e.srv].outstanding + 1
    requires forall j: nat :: j < |srv| && j != e.srv ==> srv'[j] == srv[j]
    requires cap > 0 ==> inflight < cap
    ensures PoolOk([e] + queue, srv', sess, inflight + 1, if inflight < maxInflight then maxInflight else inflight + 1,
                   completed, sent + 1, cap)
  {
    PushFacts(e, queue);
  }

  lemma PushFacts(e: Event, q: seq<Event>)
    ensures forall m :: Tally([e] + q, m) == Weight(e, m) + Tally(q, m)
    ensures forall b, t :: OpenSecs([e] + q, b, t) == OpenOne(e, b, t) + OpenSecs(q, b, t)
  {
    assert ([e] + q)[1..] == q;
  }

  lemma Begins(config: Config, templates: seq<seq<Request>>, cfg: Config, st: Sim, h: History)
    requires config.servers != [] && cfg == Defaulted(config)
    requires (forall p :: p in config.servers ==> Sane(p)) && (forall t :: t in templates ==> SaneRequests(t))
    requires st == Sim([Event(0.0, Admit, 0, 0)], st.srv, [], [], 0.0, 0, 0, 0, 0, 0, 0.0, 0, Window([], [], [], 0.0), 0.0, 0.0, 0, 0.0)
    requires h == History([], [], h.prefills, [], 0.0, [], [])
    requires |st.srv| == |h.prefills| == |config.servers|
    requires forall i: nat :: i < |st.srv| ==> st.srv[i] == Server(config.servers[i], 0.0, [], 0, 0.0, 0.0) && h.prefills[i] == []
    ensures Conf(cfg, templates) && Inv(cfg, st, h, st.q, -1, 0)
    ensures Told(cfg, st.q, st.sess, h.calls, st.pending, st.now)
    ensures Ticked(cfg, templates, st.sess, st.win.ttfts, h.seenAt, h.ticks, st.q, st.now)
  {
    hide Sane, SaneRequests;
    OneEvent(st.q[0]);
    OpenPush(st.q[0], [], h.begun, st.now);
  }

  class AdmissionSim {
    const cfg: Config
    const templates: seq<seq<Request>>
    var st: Sim
    ghost var h: History

    // The invariants between two events.
    ghost predicate Valid()
      reads this
    {
      Conf(cfg, templates) && Inv(cfg, st, h, st.q, -1, 0)
    }

    // What every session has done so far is what the model asks for.
    ghost predicate Tale()
      reads this
    {
      Told(cfg, st.q, st.sess, h.calls, st.pending, st.now)
    }

    // And so it is with every tick.
    ghost predicate Ledger(queue: seq<Event>)
      reads this
    {
      Ticked(cfg, templates, st.sess, st.win.ttfts, h.seenAt, h.ticks, queue, st.now)
    }

    constructor (config: Config, workload: seq<seq<Request>>)
      requires config.servers != []
      requires forall p :: p in config.servers ==> Sane(p)
      requires forall t :: t in workload ==> SaneRequests(t)
      ensures cfg == Defaulted(config) && templates == workload
      ensures Valid() && st.now == 0.0 && st.q == [Event(0.0, Admit, 0, 0)] && Tale() && Ledger(st.q)
      ensures Peaks([st], st.maxSessions, st.maxInflight)
    {
      cfg, templates := Defaulted(config), workload;
      st := Sim([Event(0.0, Admit, 0, 0)],
                seq(|config.servers|, i requires 0 <= i < |config.servers| => Server(config.servers[i], 0.0, [], 0, 0.0, 0.0)),
                [], [], 0.0, 0, 0, 0, 0, 0, 0.0, 0, Window([], [], [], 0.0), 0.0, 0.0, 0, 0.0);
      h := History([], [], seq(|config.servers|, i => []), [], 0.0, [], []);
      new;
      hide Inv, Told, Ticked, Conf;
      assert [st][0].active == st.maxSessions && [st][0].inflight == st.maxInflight;
      Begins(config, workload, cfg, st, h);
    }

    /** Observations older than the window are forgotten. */
    method Expire()
      requires WindowOk(cfg, st.win, h.seenAt, st.now)
      modifies this`st
      ensures st == old(st).(win := st.win) && st.win.ttfts == old(st.win.ttfts)
      ensures WindowOk(cfg, st.win, h.seenAt, st.now)
      ensures forall j :: 0 <= j < |st.win.recentAt| ==> st.win.recentAt[j] >= st.now - cfg.ttftWindow
    {
      var edge := st.now - cfg.ttftWindow;
      var w := st.win;
      var i: nat := 0;
      while i < |w.recentAt| && w.recentAt[i] < edge
        invariant i <= |w.recentAt| && w == st.win.(recentSum := w.recentSum)
        invariant forall j :: 0 <= j < i ==> w.recentAt[j] < edge
        invariant w.recentSum == Total(w.recent[i..])
      {
        assert w.recent[i..][1..] == w.recent[i + 1..];
        w := w.(recentSum := w.recentSum - w.recent[i]);
        i := i + 1;
      }
      TailsShrink(w.ttfts, h.seenAt, w.recent, w.recentAt, st.now, i, edge);
      if i > 0 {
        w := w.(recent := w.recent[i..], recentAt := w.recentAt[i..]);
      } else {
        assert w.recent[i..] == w.recent && w.recentAt[i..] == w.recentAt;
      }
      st := st.(win := w);
    }

    /**
     * The gate is open exactly if no TTFT was seen in the window or their mean is below the
     * limit, over everything ever observed.
     */
    method GateOpen() returns (open: bool)
      requires WindowOk(cfg, st.win, h.seenAt, st.now)
      modifies this`st
      ensures st == old(st).(win := st.win) && st.win.ttfts == old(st.win.ttfts)
      ensures WindowOk(cfg, st.win, h.seenAt, st.now)
      ensures open <==> GateIsOpen(cfg, st.win.ttfts, h.seenAt, st.now)
    {
      Expire();
      var w := st.win;
      ghost var k := |w.ttfts| - |w.recent|;
      forall j | k <= j < |h.seenAt| ensures h.seenAt[j] >= st.now - cfg.ttftWindow {
        assert w.recentAt[j - k] == h.seenAt[j];
      }
      SinceIsTheTail(w.ttfts, h.seenAt, st.now - cfg.ttftWindow, k);
      if |w.recent| == 0 {
        return true;
      }
      return w.recentSum / (|w.recent| as real) < cfg.ttftLimit;
    }

    method Observe(ttft: real)
      requires WindowOk(cfg, st.win, h.seenAt, st.now)
      modifies this
      ensures st == old(st).(win := st.win) && st.win.ttfts == old(st.win.ttfts) + [ttft]
      ensures h == old(h).(seenAt := old(h.seenAt) + [st.now])
      ensures WindowOk(cfg, st.win, h.seenAt, st.now)
    {
      var w := st.win;
      TotalAppend(w.recent, ttft);
      TailsAppend(w.ttfts, h.seenAt, w.recent, w.recentAt, st.now, ttft);
      h := h.(seenAt := h.seenAt + [st.now]);
      st := st.(win := Window(w.ttfts + [ttft], w.recent + [ttft], w.recentAt + [st.now], w.recentSum + ttft));
      Expire();
    }

    /** The server with the fewest open requests, the first of several. */
    method Pick() returns (best: nat)
      requires |st.srv| > 0
      ensures IsLeast(best, st.srv)
    {
      var bestN := MaxInt32;
      best := 0;
      var i: nat := 0;
      while i < |st.srv|
        invariant best <= i <= |st.srv| && best < |st.srv|
        invariant bestN == MaxInt32 || bestN == st.srv[best].outstanding
        invariant forall j: nat :: j < i ==> st.srv[j].outstanding >= bestN && (j < best ==> st.srv[j].outstanding > bestN)
      {
        if st.srv[i].outstanding < bestN {
          best, bestN := i, st.srv[i].outstanding;
        }
        i := i + 1;
      }
    }

    /** The sequences that are over give up their slots. */
    method Retire(was: Server) returns (r: Server)
      requires Sorted(was.resident)
      ensures r == was.(resident := Running(was.resident, st.now)) && Sorted(r.resident)
    {
      r := was;
      while |r.resident| > 0 && r.resident[0] <= st.now
        invariant r == was.(resident := r.resident) && Sorted(r.resident)
        invariant Running(r.resident, st.now) == Running(was.resident, st.now)
        decreases |r.resident|
      {
        r := r.(resident := r.resident[1..]);
      }
      RunningIsAll(r.resident, st.now);
    }

    /** One request on a server: its prefill waits for the engine and for a slot. */
    method Schedule(was: Server, r: Request, ghost spans: seq<Span>) returns (s: Server, start: real, end: real)
      requires Sane(was.prof) && r.input >= 0.0 && r.output >= 0.0 && EngineOk(was, was.prof, spans)
      ensures EngineOk(s, was.prof, [Span(start, s.prefillFreeAt)] + spans)
      ensures s.outstanding == was.outstanding + 1
      ensures PlacedAt(was, r, st.now, s, start, end)
    {
      s := Retire(was);
      var slotAt := st.now;
      if |s.resident| >= s.prof.maxSeqs {
        slotAt := s.resident[0];
      }
      start := Max(Max(st.now, s.prefillFreeAt), slotAt);
      var pdur := PrefillSecs(r, s.prof);
      var ddur := DecodeSecs(r, s.prof);
      end := start + pdur + ddur;
      SerialPush(Span(start, start + pdur), spans, s.prefillFreeAt);
      LengthPush(Span(start, start + pdur), spans);
      InsertKeepsSorted(s.resident, end);
      s := s.(prefillFreeAt := start + pdur, prefillBusy := s.prefillBusy + pdur,
              slotSecs := s.slotSecs + (end - start), resident := Insert(s.resident, end),
              outstanding := s.outstanding + 1);
    }

    /** The session's next request goes to the least loaded server. */
    method Place(si: nat) returns (i: nat, start: real, end: real)
      requires Conf(cfg, templates) && Engines(cfg, st.srv, h.prefills)
      requires si < |st.sess| && st.sess[si].cursor < |st.sess[si].reqs| && SaneRequests(st.sess[si].reqs)
      modifies this
      ensures st == old(st).(srv := st.srv, inputSum := st.inputSum) && h == old(h).(prefills := h.prefills)
      ensures Engines(cfg, st.srv, h.prefills) && |st.srv| == |old(st.srv)|
      ensures IsLeast(i, old(st.srv)) && st.srv == old(st.srv)[i := st.srv[i]]
      ensures st.srv[i].outstanding == old(st.srv)[i].outstanding + 1
      ensures Sane(old(st.srv)[i].prof)
      ensures PlacedAt(old(st.srv)[i], st.sess[si].reqs[st.sess[si].cursor], st.now, st.srv[i], start, end)
      ensures end >= st.srv[i].prefillFreeAt >= start >= st.now
      ensures |h.prefills| == |st.srv| && h.prefills[i] == [Span(start, st.srv[i].prefillFreeAt)] + old(h.prefills)[i]
      ensures st.inputSum == old(st.inputSum) + st.sess[si].reqs[st.sess[si].cursor].input
    {
      var r := st.sess[si].reqs[st.sess[si].cursor];
      i := Pick();
      assert cfg.servers[i] in cfg.servers && EngineOk(st.srv[i], cfg.servers[i], h.prefills[i]);
      assert r in st.sess[si].reqs;
      var s;
      s, start, end := Schedule(st.srv[i], r, h.prefills[i]);
      h := h.(prefills := h.prefills[i := [Span(start, s.prefillFreeAt)] + h.prefills[i]]);
      st := st.(srv := st.srv[i := s], inputSum := st.inputSum + r.input);
    }

    /** One request of a session that is in no other place is sent. */
    method Dispatch(si: nat)
      requires Conf(cfg, templates) && Inv(cfg, st, h, st.q, si, 1)
      requires si < |st.sess| && st.sess[si].cursor < |st.sess[si].reqs|
      requires cfg.maxSeries > 0 ==> st.inflight < cfg.maxSeries
      requires Tale() && IsDue(cfg, st.sess, h.calls, si, st.now)
      modifies this
      ensures Valid() && Tale() && Quiet(old(st), old(h), st, h)
      ensures st.sess == old(st.sess) && st.pending == old(st.pending) && st.now == old(st.now)
      ensures st.inflight == old(st.inflight) + 1 && st.completed == old(st.completed) && st.maxSessions == old(st.maxSessions)
      ensures st.q != [] && st.q == [st.q[0]] + old(st.q) && st.q[0].kind == Done
      ensures SentNow(old(st).q, old(st).srv, old(st).win.ttfts, old(st).inputSum, old(st).maxInflight, si, st, h)
    {
      hide PoolOk, WindowOk, Engines, Places, AllSane, PlacedAt, Tally, Told, IsDue, Quiet, IsLeast, Sane, Took;
      hide Little, Full, Sessions, Stall, OneTick;
      var was := st;
      ghost var past := h;
      SessionIsSane(st, si);
      var i, start, end := Place(si);
      Observe(st.srv[i].prefillFreeAt - st.now);
      var e := Event(end, Done, si, i);
      var peak := if st.inflight + 1 > st.maxInflight then st.inflight + 1 else st.maxInflight;
      ghost var c := Call(st.now, i, start, end);
      CallTakesItsTime(cfg, was, past, si, c, st.srv[i]);
      ToldSend(cfg, st.q, st.sess, h.calls, st.pending, st.now, si, e, c);
      SendKeepsInv(cfg, was, past, st, h, e, h.calls[si := h.calls[si] + [c]]);
      h := h.(begun := h.begun[si := st.now], calls := h.calls[si := h.calls[si] + [c]]);
      st := st.(inflight := st.inflight + 1, maxInflight := peak, q := [e] + st.q);
      QuietSend(was, past, st, h, st.srv[i].prefillFreeAt - st.now, e);
    }

    /** The `admit` closure: a session of the next template, due at once. */
    method AdmitSession()
      requires Valid() && Tale()
      modifies this
      ensures Valid() && Tale() && st.nextSession == |st.sess|
      ensures h == old(h).(begun := h.begun, calls := h.calls)
      ensures st == old(st).(sess := st.sess, q := st.q, nextSession := st.nextSession, active := st.active, maxSessions := st.maxSessions)
      ensures Tally(st.q, Ticks) == Tally(old(st.q), Ticks)
      ensures templates == [] ==> st == old(st)
      ensures st.maxSessions == Larger(old(st.maxSessions), st.active)
      ensures templates != [] ==>
                && st.sess == old(st.sess) + [Session(NextTemplate(templates, old(st.nextSession)), 0, st.now, true)]
                && st.q == [Event(st.now, Arrive, |old(st.sess)|, 0)] + old(st.q)
    {
      hide PoolOk, WindowOk, Engines, Places, AllSane, Tally, OpenSecs, Length, Total, Sum, Told;
      if |templates| == 0 {
        return;
      }
      var tpl := NextTemplate(templates, st.nextSession);
      var s, e := Session(tpl, 0, st.now, true), Event(st.now, Arrive, |st.sess|, 0);
      PoolNewSession(st.q, st.srv, st.sess, st.inflight, st.maxInflight, st.completed, |st.win.ttfts|, cfg.maxSeries, e, s);
      SumAppend(st.sess, s, Active);
      OneMoreSane(st.sess, s, templates);
      PlacesNewSession(e, st.q, st.sess, st.pending, st.now, s);
      OpenFrame(st.q, h.begun, h.begun + [0.0], st.now);
      PushFacts(e, st.q);
      ToldNew(cfg, st.q, st.sess, h.calls, st.pending, st.now, e, s);
      h := h.(begun := h.begun + [0.0], calls := h.calls + [[]]);
      st := st.(sess := st.sess + [s], q := [e] + st.q, nextSession := st.nextSession + 1, active := st.active + 1,
                maxSessions := if st.active + 1 > st.maxSessions then st.active + 1 else st.maxSessions);
    }

    // An arrival or completion at the end of its session.
    method RetireSession(si: nat, ghost room: nat)
      requires Inv(cfg, st, h, st.q, si, room) && si < |st.sess| && st.sess[si].cursor >= |st.sess[si].reqs| && Tale()
      modifies this
      ensures Inv(cfg, st, h, st.q, -1, room) && h == old(h) && Tale() && Quiet(old(st), old(h), st, h)
      ensures st == old(st).(sess := old(st.sess)[si := old(st.sess)[si].(active := false)], active := st.active, retired := st.retired)
    {
      hide PoolOk, WindowOk, Engines, AllSane, Places, Tally, OpenSecs, Length, Total, Sum, Told, Quiet;
      var s := st.sess[si].(active := false);
      ToldRetire(cfg, st.q, st.sess, h.calls, st.pending, st.now, si);
      QuietStays(st, h);
      QuietSession(st, h, si, s);
      PlacesRetire(st.q, st.sess, st.pending, st.now, si);
      if st.sess[si].active {
        SumUpdate(st.sess, si, s, Active);
        SumUpdate(st.sess, si, s, Sent);
        PoolSameSent(st, st.sess[si := s], st.q, cfg.maxSeries);
        SaneUpdate(st.sess, si, s);
        st := st.(sess := st.sess[si := s], active := st.active - 1, retired := st.retired + 1);
      }
    }

    /** A session's next request is due. */
    method OnArrive(si: nat)
      requires Conf(cfg, templates) && si < |st.sess| && Inv(cfg, st, h, st.q, si, 0)
      requires Tale() && IsDue(cfg, st.sess, h.calls, si, st.now)
      modifies this
      ensures Valid() && st.now == old(st.now) && Tale() && Quiet(old(st), old(h), st, h)
      ensures RequestsLeft(st) == RequestsLeft(old(st)) && 2 * Tally(st.q, Arrivals) + |st.pending| <= 2 * Tally(old(st.q), Arrivals) + |old(st.pending)| + 1
      ensures TicksLeft(cfg, st.q) == TicksLeft(cfg, old(st.q))
      ensures Arrived(cfg, old(st), si, st, h)
    {
      hide PoolOk, WindowOk, Engines, AllSane, Places, OpenSecs, Length, Total, Sum, Tally, Told, IsDue, Quiet, SentNow;
      if st.sess[si].cursor >= |st.sess[si].reqs| {
        SumUpdate(st.sess, si, st.sess[si].(active := false), Left);
        RetireSession(si, 0);
        return;
      }
      if cfg.maxSeries > 0 && st.inflight >= cfg.maxSeries {
        PlacesPark(st.q, st.sess, st.pending, st.now, si);
        ToldPark(cfg, st.q, st.sess, h.calls, st.pending, st.now, si);
        QuietStays(st, h);
        if |st.pending| == 0 {
          st := st.(blockedSince := st.now);
        }
        st := st.(pending := st.pending + [si]);
        return;
      }
      PushFactsDone(st.q);
      Dispatch(si);
    }

    // The first half of a completion: the counters, and the session moves on.
    method Complete(e: Event)
      requires e.kind == Done && e.at == st.now && Inv(cfg, st, h, [e] + st.q, -1, 0)
      requires Told(cfg, [e] + st.q, st.sess, h.calls, st.pending, st.now)
      modifies this
      ensures e.sess < |st.sess| && Inv(cfg, st, h, st.q, e.sess, 1)
      ensures Tale() && Answered(st.sess, h.calls, e.sess, st.now) && Quiet(old(st), old(h), st, h)
      ensures e.sess < |old(st.sess)| && st.sess == old(st.sess)[e.sess := old(st.sess)[e.sess].(cursor := old(st.sess)[e.sess].cursor + 1)]
      ensures e.srv < |old(st.srv)|
      ensures st == old(st).(sess := st.sess, inflight := old(st.inflight) - 1, completed := old(st.completed) + 1,
                srv := old(st.srv)[e.srv := old(st.srv)[e.srv].(outstanding := old(st.srv)[e.srv].outstanding - 1)])
      ensures RequestsLeft(st) == RequestsLeft(old(st)) - 1
      ensures h.log == [Span(h.begun[e.sess], st.now)] + old(h.log)
    {
      hide WindowOk, Engines, AllSane, Places, Tally, OpenSecs, Length, Total, Sum, PoolOk, Told, Answered, Quiet;
      PlacesComplete(e, st.q, st.sess, st.pending, st.now);
      PoolComplete(e, st, cfg.maxSeries);
      var s := st.sess[e.sess].(cursor := st.sess[e.sess].cursor + 1);
      SumUpdate(st.sess, e.sess, s, Active);
      SumUpdate(st.sess, e.sess, s, Left);
      SaneUpdate(st.sess, e.sess, s);
      EnginesComplete(cfg, st.srv, h.prefills, e.srv);
      PushFacts(e, st.q);
      ToldComplete(cfg, st.q, st.sess, h.calls, st.pending, st.now, e);
      QuietSession(st, h, e.sess, s);
      LengthPush(Span(h.begun[e.sess], st.now), h.log);
      h := h.(log := [Span(h.begun[e.sess], st.now)] + h.log);
      st := st.(srv := st.srv[e.srv := st.srv[e.srv].(outstanding := st.srv[e.srv].outstanding - 1)],
                inflight := st.inflight - 1, completed := st.completed + 1, sess := st.sess[e.sess := s]);
    }

    // The second half: the session's next request, or its end.
    method Continue(si: nat)
      requires si < |st.sess| && Inv(cfg, st, h, st.q, si, 1) && Tale() && Answered(st.sess, h.calls, si, st.now)
      modifies this
      ensures Inv(cfg, st, h, st.q, -1, 1) && h == old(h) && Tale() && Quiet(old(st), old(h), st, h)
      ensures st == old(st).(q := st.q, sess := st.sess, active := st.active, retired := st.retired)
      ensures RequestsLeft(st) == RequestsLeft(old(st)) && TicksLeft(cfg, st.q) == TicksLeft(cfg, old(st.q))
      ensures var s := old(st.sess)[si];
              if s.cursor < |s.reqs| then
                st.q == [Event(Max(s.admittedAt + s.reqs[s.cursor].due, st.now), Arrive, si, 0)] + old(st.q)
                && st.sess == old(st.sess)
              else
                st.q == old(st.q) && st.sess == old(st.sess)[si := s.(active := false)]
    {
      hide WindowOk, Engines, AllSane, Places, Tally, OpenSecs, Length, Total, Sum, PoolOk, Told, Answered, Quiet;
      var s := st.sess[si];
      if s.cursor >= |s.reqs| {
        SumUpdate(st.sess, si, s.(active := false), Left);
        RetireSession(si, 1);
      } else {
        var e := Event(Max(s.admittedAt + s.reqs[s.cursor].due, st.now), Arrive, si, 0);
        PlacesPushArrival(e, st.q, st.sess, st.pending, st.now);
        PoolPushOther(e, st, cfg.maxSeries);
        PushFacts(e, st.q);
        ToldContinue(cfg, st.q, st.sess, h.calls, st.pending, st.now, si, e);
        QuietPush(st, h, e);
        st := st.(q := [e] + st.q);
      }
    }

    // The last part: the slot goes to the head of the queue.
    method Unpark()
      requires Conf(cfg, templates) && Inv(cfg, st, h, st.q, -1, 1) && Tale()
      modifies this
      ensures Valid() && st.now == old(st.now) && Tale() && Quiet(old(st), old(h), st, h)
      ensures RequestsLeft(st) == RequestsLeft(old(st)) && TicksLeft(cfg, st.q) == TicksLeft(cfg, old(st.q))
      ensures if old(st.pending) != [] && (cfg.maxSeries == 0 || old(st.inflight) < cfg.maxSeries) then
                && st.pending == old(st.pending)[1..] && st.sess == old(st.sess) && st.inflight == old(st.inflight) + 1
                && st.completed == old(st.completed) && st.maxSessions == old(st.maxSessions)
                && SentNow(old(st.q), old(st.srv), old(st.win.ttfts), old(st.inputSum), old(st.maxInflight), old(st.pending)[0], st, h)
              else st == old(st) && h == old(h)
    {
      hide WindowOk, Engines, AllSane, Places, Tally, OpenSecs, Length, Total, Sum, PoolOk, Told, IsDue, Quiet, SentNow;
      QuietStays(st, h);
      ghost var was, past := st, h;
      if |st.pending| > 0 && (cfg.maxSeries == 0 || st.inflight < cfg.maxSeries) {
        PlacesUnpark(st.q, st.sess, st.pending, st.now);
        ToldUnpark(cfg, st.q, st.sess, h.calls, st.pending, st.now);
        var next := st.pending[0];
        st := st.(pending := st.pending[1..]);
        if |st.pending| == 0 {
          st := st.(seriesStall := st.seriesStall + (st.now - st.blockedSince));
        }
        PushFactsDone(st.q);
        if st.sess[next].cursor < |st.sess[next].reqs| {
          ghost var popped := st;
          Dispatch(next);
          QuietTwice(was, past, popped, past, st, h);
        }
      }
    }

    /** A request finished: its session moves on, and one waiter gets the slot. */
    method OnDone(e: Event)
      requires Conf(cfg, templates) && e.kind == Done && e.at == st.now && Inv(cfg, st, h, [e] + st.q, -1, 0)
      requires Told(cfg, [e] + st.q, st.sess, h.calls, st.pending, st.now)
      modifies this
      ensures Valid() && st.now == old(st.now) && Tale() && Quiet(old(st), old(h), st, h)
      ensures RequestsLeft(st) == RequestsLeft(old(st)) - 1 && TicksLeft(cfg, st.q) == TicksLeft(cfg, old(st.q))
      ensures Responded(cfg, old(st), e, st, h)
    {
      hide Inv, Told, Quiet, Answered, SentNow;
      ghost var st0, h0 := st, h;
      Complete(e);
      ghost var st1, h1 := st, h;
      Continue(e.sess);
      QuietTwice(st0, h0, st1, h1, st, h);
      ghost var st2, h2 := st, h;
      Unpark();
      QuietTwice(st0, h0, st2, h2, st, h);
    }

    /** The admission tick: a session if the gate is open, and the next tick. */
    method OnAdmit(e: Event)
      requires Conf(cfg, templates) && e.kind == Admit && e.at == st.now <= cfg.horizon && Inv(cfg, st, h, [e] + st.q, -1, 0)
      requires Told(cfg, [e] + st.q, st.sess, h.calls, st.pending, st.now) && Ledger([e] + st.q)
      modifies this
      ensures Valid() && st.now == old(st.now) && Tale() && Ledger(st.q)
      ensures TicksLeft(cfg, st.q) < TicksLeft(cfg, [e] + old(st.q))
      ensures Admitted(cfg, templates, old(st), old(h.seenAt), st)
    {
      hide Inv, Tally, Told, Ticked, GateIsOpen;
      TickPopped(cfg, st, h, e);
      ToldSub(cfg, [e] + st.q, st.q, st.sess, h.calls, st.pending, st.now, st.now);
      PushFacts(e, st.q);
      ghost var was, past := st, h;
      var open := AdmitIfOpen();
      ghost var t := Tick(e.at, open && templates != [], |was.win.ttfts|);
      TicksAreApart(cfg, st, h, h.ticks + [t]);
      h := h.(ticks := h.ticks + [t]);
      ghost var between := st.q;
      NextTick(e.at);
      TickedOnce(cfg, templates, was, past, e, st, h, between, t);
    }

    method AdmitIfOpen() returns (open: bool)
      requires Valid() && Tale()
      modifies this
      ensures Valid() && Tale()
      ensures st == old(st).(win := st.win, sess := st.sess, q := st.q, nextSession := st.nextSession, active := st.active, maxSessions := st.maxSessions)
      ensures Tally(st.q, Ticks) == Tally(old(st.q), Ticks) && st.nextSession == |st.sess|
      ensures st.win.ttfts == old(st.win.ttfts) && h == old(h).(begun := h.begun, calls := h.calls)
      ensures st.maxSessions == Larger(old(st.maxSessions), st.active)
      ensures |h.seenAt| == |st.win.ttfts| && (open <==> GateIsOpen(cfg, st.win.ttfts, h.seenAt, st.now))
      ensures if open && templates != [] then
                && st.sess == old(st.sess) + [Session(NextTemplate(templates, old(st.nextSession)), 0, st.now, true)]
                && st.q == [Event(st.now, Arrive, |old(st.sess)|, 0)] + old(st.q)
              else st.sess == old(st.sess) && st.q == old(st.q)
    {
      hide WindowOk, Engines, AllSane, Places, Tally, OpenSecs, Length, Total, Sum, PoolOk, Told, GateIsOpen;
      WindowLengths(cfg, st.win, h.seenAt, st.now);
      open := GateOpen();
      if open {
        AdmitSession();
      }
    }

    method NextTick(at: real)
      requires Valid() && at == st.now <= cfg.horizon && Tally(st.q, Ticks) == 0 && Tale()
      modifies this
      ensures Valid() && st == old(st).(q := st.q) && h == old(h) && Tale()
      ensures TicksLeft(cfg, st.q) < TicksFrom(at, cfg.admitEvery, cfg.horizon)
      ensures st.q == if at + cfg.admitEvery <= cfg.horizon then [Event(at + cfg.admitEvery, Admit, 0, 0)] + old(st.q) else old(st.q)
    {
      hide WindowOk, Engines, AllSane, Places, Tally, OpenSecs, Length, Total, Sum, PoolOk, Told;
      NoTicksLeft(st.q, cfg.admitEvery, cfg.horizon);
      if st.now + cfg.admitEvery <= cfg.horizon {
        var e := Event(st.now + cfg.admitEvery, Admit, 0, 0);
        TicksRunOut(at, cfg.admitEvery, cfg.horizon);
        PlacesPushTick(e, st.q, st.sess, st.pending, st.now);
        PoolPushOther(e, st, cfg.maxSeries);
        PushFacts(e, st.q);
        ToldSub(cfg, st.q, [e] + st.q, st.sess, h.calls, st.pending, st.now, st.now);
        st := st.(q := [e] + st.q);
      }
    }

    // The clock jumps to the event; the integrals grow over the jump.
    method Advance(e: Event)
      requires Inv(cfg, st, h, [e] + st.q, -1, 0) && forall f :: f in st.q ==> f.at >= e.at
      modifies this
      ensures Inv(cfg, st, h, [e] + st.q, -1, 0) && st.now == e.at >= old(st.now)
      ensures st == old(st).(now := st.now, concSecs := st.concSecs) && h == old(h).(stalled := h.stalled)
    {
      hide Engines, AllSane, Tally, OpenSecs, Length, Total, Sum, PoolOk;
      assert e in [e] + st.q;
      var d := e.at - st.now;
      if e.at > st.now {
        PoolCounts([e] + st.q, st, cfg.maxSeries);
        LittleGrows([e] + st.q, st, h, d);
        h := h.(stalled := h.stalled + if st.pending != [] then d else 0.0);
        st := st.(concSecs := st.concSecs + (st.inflight as real) * d, now := e.at);
      }
    }

    // One event, of any kind.
    method Handle(e: Event)
      requires Conf(cfg, templates) && e.at == st.now <= cfg.horizon && Inv(cfg, st, h, [e] + st.q, -1, 0)
      requires Told(cfg, [e] + st.q, st.sess, h.calls, st.pending, st.now) && Ledger([e] + st.q)
      modifies this
      ensures Valid() && st.now == old(st.now) && Tale() && Ledger(st.q)
      ensures Work(cfg, st, st.q).Below(Work(cfg, old(st), [e] + old(st.q)))
      ensures Handled(cfg, templates, old(st), old(h.seenAt), e, st, h)
    {
      hide WindowOk, Engines, AllSane, Places, Tally, OpenSecs, Length, Total, Sum, PoolOk, Told, Ticked, Quiet, SentNow, Responded, Admitted, Arrived;
      PushFacts(e, st.q);
      ghost var was, past := st, h;
      match e.kind
      case Admit => OnAdmit(e);
      case Done =>
        OnDone(e);
        TickedQuiet(cfg, templates, was, past, e, st, h);
      case Arrive =>
        PlacesPopArrival(e, st.q, st.sess, st.pending, st.now);
        PoolPopOther(e, st, cfg.maxSeries);
        ToldPopArrival(cfg, st.q, st.sess, h.calls, st.pending, st.now, e);
        OnArrive(e.sess);
        TickedQuiet(cfg, templates, was, past, e, st, h);
    }

    // The next event, unless it is past the horizon.
    method Step() returns (past: bool, ghost cut: seq<Event>, ghost e: Event, ghost begun: Sim)
      requires Valid() && st.q != [] && Tale() && Ledger(st.q)
      modifies this
      ensures Inv(cfg, st, h, cut + st.q, -1, 0) && st.now >= old(st.now)
      ensures Told(cfg, cut + st.q, st.sess, h.calls, st.pending, st.now) && Ledger(cut + st.q)
      ensures e in old(st.q) && IsFirst(e, old(st.q)) && (past <==> e.at > cfg.horizon)
      ensures !past ==> begun == old(st).(now := e.at, q := begun.q, concSecs := begun.concSecs)
      ensures !past ==> multiset(begun.q) + multiset{e} == multiset(old(st.q))
      ensures !past ==> Handled(cfg, templates, begun, old(h.seenAt), e, st, h)
      ensures st.maxSessions == Larger(old(st.maxSessions), st.active) && st.maxInflight == Larger(old(st.maxInflight), st.inflight)
      ensures !past ==> cut == [] && Work(cfg, st, st.q).Below(Work(cfg, old(st), old(st).q))
      ensures past ==> forall e :: e in cut + st.q ==> e.at > cfg.horizon
    {
      hide Inv, Tally, Sum, OpenSecs, Told, Ticked, Handled;
      cut := [];
      assert cut + st.q == st.q;
      var first, rest := PopFirst(st.q);
      e, begun := first, st;
      PopKeepsInv(cfg, st, h, e, rest);
      PushFacts(e, rest);
      PoppedIsSame(st.q, e, rest);
      ToldSub(cfg, st.q, [e] + rest, st.sess, h.calls, st.pending, st.now, st.now);
      TickedSame(cfg, templates, st.sess, st.win.ttfts, h.seenAt, h.ticks, st.q, [e] + rest, st.now, st.now);
      st := st.(q := rest);
      past := first.at > cfg.horizon;
      if past {
        cut := [e];
        PeaksHold(cfg, st, h, cut + st.q);
      } else {
        ghost var was := st;
        Advance(first);
        ToldSub(cfg, [e] + st.q, [e] + st.q, st.sess, h.calls, st.pending, was.now, st.now);
        TickedSame(cfg, templates, st.sess, st.win.ttfts, h.seenAt, h.ticks, [e] + st.q, [e] + st.q, was.now, st.now);
        begun := st;
        ghost var seen := h.seenAt;
        Handle(first);
        HandledPeaks(cfg, templates, begun, seen, first, st, h, st.q);
        assert cut + st.q == st.q;
      }
    }

    /**
     * The event loop. It ends, with everything due by the horizon played; `cut` is the
     * first event past it, if any.
     */
    method Run() returns (r: SimResult, ghost cut: seq<Event>, ghost trace: seq<Sim>)
      requires Valid() && Tale() && Ledger(st.q) && Peaks([st], st.maxSessions, st.maxInflight)
      modifies this
      ensures Inv(cfg, st, h, cut + st.q, -1, 0) && st.now >= old(st.now)
      ensures Told(cfg, cut + st.q, st.sess, h.calls, st.pending, st.now) && Ledger(cut + st.q)
      ensures forall e :: e in cut + st.q ==> e.at > cfg.horizon
      ensures r == Reported(st, h.stalled)
      ensures trace != [] && trace[0] == old(st) && trace[|trace| - 1] == st && Peaks(trace, st.maxSessions, st.maxInflight)
    {
      hide Places, PoolOk, Full, Sessions, Little, Engines, WindowOk, OneTick, Tally, Sum, Told, Ticked, Handled, Peaks;
      cut, trace := [], [st];
      assert cut + st.q == st.q;
      while |st.q| > 0
        invariant Conf(cfg, templates) && Inv(cfg, st, h, cut + st.q, -1, 0) && cut == [] && st.now >= old(st.now)
        invariant Told(cfg, cut + st.q, st.sess, h.calls, st.pending, st.now) && Ledger(cut + st.q)
        invariant trace != [] && trace[0] == old(st) && trace[|trace| - 1] == st && Peaks(trace, st.maxSessions, st.maxInflight)
        decreases Work(cfg, st, st.q).ticks, Work(cfg, st, st.q).requests, Work(cfg, st, st.q).moves
      {
        assert cut + st.q == st.q;
        var past;
        ghost var e, begun;
        ghost var before := st;
        past, cut, e, begun := Step();
        OneMoreState(trace, before.maxSessions, before.maxInflight, st);
        trace := trace + [st];
        if past {
          break;
        }
      }
      var stall := st.seriesStall;
      if |st.pending| > 0 {
        stall := stall + (st.now - st.blockedSince);
      }
      r := SimResult(st.maxSessions, st.active, st.maxInflight, if st.now > 0.0 then st.concSecs / st.now else 0.0,
                     st.completed, stall, st.retired, if st.now > 0.0 then st.completed as real / st.now else 0.0);
    }
  }

  function Reported(st: Sim, stalled: real): SimResult {
    SimResult(st.maxSessions, st.active, st.maxInflight, if st.now > 0.0 then st.concSecs / st.now else 0.0,
              st.completed, stalled, st.retired, if st.now > 0.0 then st.completed as real / st.now else 0.0)
  }

  // What is left to do: ticks of the admission loop, requests of the sessions admitted, and
  // moves of the requests that are due.
  datatype Measured = Measured(ticks: nat, requests: nat, moves: nat) {
    ghost predicate Below(m: Measured) {
      ticks < m.ticks || (ticks == m.ticks && (requests < m.requests || (requests == m.requests && moves < m.moves)))
    }
  }

  ghost function Work(cfg: Config, st: Sim, q: seq<Event>): Measured {
    Measured(TicksLeft(cfg, q), RequestsLeft(st), 2 * Tally(q, Arrivals) + |st.pending|)
  }

  // The next request of session `si` has just gone to the least loaded server: its
  // completion is the one new event, its TTFT is observed, and no other server changed.
  ghost predicate SentNow(q: seq<Event>, srv: seq<Server>, ttfts: seq<real>, inputs: real, peak: int, si: nat, st: Sim, h: History) {
    && st.q != [] && st.q == [st.q[0]] + q && st.q[0].kind == Done && st.q[0].sess == si
    && si < |st.sess| && st.sess[si].cursor < |st.sess[si].reqs|
    && var i, r := st.q[0].srv, st.sess[si].reqs[st.sess[si].cursor];
    && IsLeast(i, srv) && Sane(srv[i].prof) && |st.srv| == |srv| && st.srv == srv[i := st.srv[i]]
    && i < |h.prefills| && h.prefills[i] != []
    && PlacedAt(srv[i], r, st.now, st.srv[i], h.prefills[i][0].begin, st.q[0].at)
    && st.srv[i].outstanding == srv[i].outstanding + 1
    && st.win.ttfts == ttfts + [st.srv[i].prefillFreeAt - st.now]
    && st.inputSum == inputs + r.input && st.maxInflight == Larger(peak, st.inflight)
  }

  // A session's next request is due. At the end of the session it retires; with the pool
  // full it waits; else it is sent.
  ghost predicate Arrived(cfg: Config, was: Sim, si: nat, st: Sim, h: History) {
    && si < |was.sess|
    && var s := was.sess[si];
    if s.cursor >= |s.reqs| then
      st == was.(sess := was.sess[si := s.(active := false)], active := st.active, retired := st.retired)
    else if cfg.maxSeries > 0 && was.inflight >= cfg.maxSeries then
      st == was.(pending := was.pending + [si], blockedSince := if was.pending == [] then was.now else was.blockedSince)
    else
      && st.sess == was.sess && st.pending == was.pending && st.inflight == was.inflight + 1 && st.completed == was.completed
      && st.maxSessions == was.maxSessions
      && SentNow(was.q, was.srv, was.win.ttfts, was.inputSum, was.maxInflight, si, st, h)
  }

  // A response has come: the server and the pool have one request less, the session's next
  // request is due at its time or now, and the first one waiting takes the room.
  ghost predicate Responded(cfg: Config, was: Sim, e: Event, st: Sim, h: History) {
    && e.sess < |was.sess| && e.srv < |was.srv|
    && var x := was.sess[e.sess].(cursor := was.sess[e.sess].cursor + 1);
    && var more := x.cursor < |x.reqs|;
    && var srv := was.srv[e.srv := was.srv[e.srv].(outstanding := was.srv[e.srv].outstanding - 1)];
    && var q := if more then [Event(Max(x.admittedAt + x.reqs[x.cursor].due, was.now), Arrive, e.sess, 0)] + was.q else was.q;
    && st.sess == was.sess[e.sess := if more then x else x.(active := false)] && st.completed == was.completed + 1
    && st.maxSessions == was.maxSessions
    && if was.pending != [] && (cfg.maxSeries == 0 || was.inflight - 1 < cfg.maxSeries) then
         && st.pending == was.pending[1..] && st.inflight == was.inflight
         && SentNow(q, srv, was.win.ttfts, was.inputSum, was.maxInflight, was.pending[0], st, h)
       else
         && st.pending == was.pending && st.inflight == was.inflight - 1
         && st.q == q && st.srv == srv && st.win == was.win && st.inputSum == was.inputSum && st.maxInflight == was.maxInflight
  }

  // A tick admits the next template if there is one and the gate is open; nothing else
  // changes but the next tick.
  ghost predicate Admitted(cfg: Config, templates: seq<seq<Request>>, was: Sim, seenAt: seq<real>, st: Sim) {
    && |seenAt| == |was.win.ttfts|
    && st.pending == was.pending && st.srv == was.srv && st.inflight == was.inflight && st.win.ttfts == was.win.ttfts
    && st.maxSessions == Larger(was.maxSessions, st.active) && st.maxInflight == was.maxInflight
    && st.sess == if templates != [] && GateIsOpen(cfg, was.win.ttfts, seenAt, was.now)
                  then was.sess + [Session(NextTemplate(templates, was.nextSession), 0, was.now, true)] else was.sess
  }

  ghost predicate Handled(cfg: Config, templates: seq<seq<Request>>, was: Sim, seenAt: seq<real>, e: Event, st: Sim, h: History) {
    match e.kind
    case Arrive => Arrived(cfg, was, e.sess, st, h)
    case Done => Responded(cfg, was, e, st, h)
    case Admit => Admitted(cfg, templates, was, seenAt, st)
  }

  lemma PeaksHold(cfg: Config, st: Sim, h: History, queue: seq<Event>)
    requires Inv(cfg, st, h, queue, -1, 0)
    ensures st.maxSessions == Larger(st.maxSessions, st.active) && st.maxInflight == Larger(st.maxInflight, st.inflight)
  {
    hide Places, Full, Little, Engines, WindowOk, Stall, OneTick, Sum, Tally;
  }

  lemma HandledPeaks(cfg: Config, templates: seq<seq<Request>>, was: Sim, seenAt: seq<real>, e: Event, st: Sim, h: History, queue: seq<Event>)
    requires Handled(cfg, templates, was, seenAt, e, st, h) && Inv(cfg, st, h, queue, -1, 0)
    ensures st.maxSessions == Larger(was.maxSessions, st.active) && st.maxInflight == Larger(was.maxInflight, st.inflight)
  {
    PeaksHold(cfg, st, h, queue);
    hide Inv, PlacedAt, IsLeast, GateIsOpen;
  }

  // A run has come to its peaks: no state of it had more, and some state had as many.
  ghost predicate Peaks(trace: seq<Sim>, sessions: int, requests: int) {
    && (forall k: nat :: k < |trace| ==> trace[k].active <= sessions && trace[k].inflight <= requests)
    && (exists k: nat :: k < |trace| && trace[k].active == sessions)
    && (exists k: nat :: k < |trace| && trace[k].inflight == requests)
  }

  lemma OneMoreState(trace: seq<Sim>, sessions: int, requests: int, st: Sim)
    requires Peaks(trace, sessions, requests)
    ensures Peaks(trace + [st], Larger(sessions, st.active), Larger(requests, st.inflight))
  {
    var more := trace + [st];
    var i: nat :| i < |trace| && trace[i].active == sessions;
    var j: nat :| j < |trace| && trace[j].inflight == requests;
    assert more[i] == trace[i] && more[j] == trace[j] && more[|trace|] == st;
  }

  ghost predicate GateIsOpen(cfg: Config, ttfts: seq<real>, seenAt: seq<real>, now: real)
    requires |ttfts| == |seenAt|
  {
    var n := CountSince(seenAt, now - cfg.ttftWindow);
    n == 0 || SumSince(ttfts, seenAt, now - cfg.ttftWindow) / n as real < cfg.ttftLimit
  }

  // The fewest open requests, unless every count is past the starting bound.
  ghost predicate IsLeast(best: nat, srv: seq<Server>) {
    && best < |srv|
    && (forall j: nat :: j < |srv| && srv[j].outstanding < MaxInt32 ==>
          srv[best].outstanding <= srv[j].outstanding && (j < best ==> srv[best].outstanding < srv[j].outstanding))
  }

  ghost function RequestsLeft(st: Sim): nat {
    Sum(st.sess, Left)
  }

  ghost function TicksLeft(cfg: Config, q: seq<Event>): nat {
    Tally(q, TicksToCome(cfg.admitEvery, cfg.horizon))
  }

  // ---------------------------------------------------------------- the sessions' own story

  // Request k is due when its session begins, or at its own time but not before the
  // response to the one before it.
  function Ready(x: Session, calls: seq<Call>, k: nat): real
    requires k <= |calls| && k < |x.reqs|
  {
    if k == 0 then x.admittedAt else Max(x.admittedAt + x.reqs[k].due, calls[k - 1].end)
  }

  // It is sent no sooner, and without a cap at once; prefill and decode take the time the
  // server it was sent to needs.
  ghost predicate CallOk(cfg: Config, x: Session, calls: seq<Call>, k: nat)
    requires k < |calls| && k < |x.reqs|
  {
    && Ready(x, calls, k) <= calls[k].sentAt <= calls[k].begin
    && (cfg.maxSeries <= 0 ==> calls[k].sentAt == Ready(x, calls, k))
    && Took(cfg, x.reqs[k], calls[k])
  }

  ghost predicate Took(cfg: Config, r: Request, c: Call) {
    && c.srv < |cfg.servers| && Sane(cfg.servers[c.srv])
    && c.end == c.begin + PrefillSecs(r, cfg.servers[c.srv]) + DecodeSecs(r, cfg.servers[c.srv])
  }

  // Requests are sent in order, the next one after the response to the last; a session
  // that is over has played them all.
  ghost predicate Story(cfg: Config, x: Session, calls: seq<Call>) {
    && x.cursor <= |calls| <= |x.reqs| && |calls| <= x.cursor + 1
    && (forall k: nat :: k < |calls| ==> CallOk(cfg, x, calls, k))
    && (!x.active ==> x.cursor == |x.reqs|)
  }

  ghost predicate Arriving(x: Session, calls: seq<Call>, at: real) {
    && |calls| == x.cursor
    && if x.cursor < |x.reqs| then at == Ready(x, calls, x.cursor) else x.cursor == 0 && at == x.admittedAt
  }

  ghost predicate Open(x: Session, calls: seq<Call>, at: real) {
    |calls| == x.cursor + 1 && calls[x.cursor].end == at
  }

  ghost predicate Waiting(x: Session, calls: seq<Call>, now: real) {
    |calls| == x.cursor < |x.reqs| && Ready(x, calls, x.cursor) <= now
  }

  ghost predicate Told(cfg: Config, q: seq<Event>, sess: seq<Session>, calls: seq<seq<Call>>, pending: seq<nat>, now: real) {
    && |calls| == |sess|
    && (forall s: nat :: s < |sess| ==> Story(cfg, sess[s], calls[s]))
    && (forall e :: e in q && e.kind == Arrive ==> e.sess < |sess| && Arriving(sess[e.sess], calls[e.sess], e.at))
    && (forall e :: e in q && e.kind == Done ==> e.sess < |sess| && Open(sess[e.sess], calls[e.sess], e.at))
    && (forall s :: s in pending ==> s < |sess| && Waiting(sess[s], calls[s], now))
  }

  // The session's next request may be sent now.
  ghost predicate IsDue(cfg: Config, sess: seq<Session>, calls: seq<seq<Call>>, si: nat, now: real) {
    && si < |sess| == |calls| && |calls[si]| == sess[si].cursor
    && (sess[si].cursor < |sess[si].reqs| ==>
          && Ready(sess[si], calls[si], sess[si].cursor) <= now
          && (cfg.maxSeries <= 0 ==> Ready(sess[si], calls[si], sess[si].cursor) == now))
  }

  // The session's last request has just been answered.
  ghost predicate Answered(sess: seq<Session>, calls: seq<seq<Call>>, si: nat, now: real) {
    si < |sess| == |calls| && |calls[si]| == sess[si].cursor > 0 && calls[si][sess[si].cursor - 1].end == now
  }

  lemma ToldSub(cfg: Config, q: seq<Event>, q': seq<Event>, sess: seq<Session>, calls: seq<seq<Call>>, pending: seq<nat>,
                now: real, now': real)
    requires Told(cfg, q, sess, calls, pending, now) && now <= now'
    requires forall e :: e in q' && e.kind != Admit ==> e in q
    ensures Told(cfg, q', sess, calls, pending, now')
  {
    hide Story;
  }

  lemma ToldPopArrival(cfg: Config, q: seq<Event>, sess: seq<Session>, calls: seq<seq<Call>>, pending: seq<nat>, now: real, e: Event)
    requires Told(cfg, [e] + q, sess, calls, pending, now) && e.kind == Arrive && e.at == now
    ensures Told(cfg, q, sess, calls, pending, now) && IsDue(cfg, sess, calls, e.sess, now)
  {
    hide Story;
    assert e in [e] + q && forall f :: f in q ==> f in [e] + q;
  }

  lemma ToldRetire(cfg: Config, q: seq<Event>, sess: seq<Session>, calls: seq<seq<Call>>, pending: seq<nat>, now: real, si: nat)
    requires Told(cfg, q, sess, calls, pending, now) && si < |sess| && sess[si].cursor >= |sess[si].reqs|
    ensures Told(cfg, q, sess[si := sess[si].(active := false)], calls, pending, now)
  {
    assert Story(cfg, sess[si], calls[si]);
    var x := sess[si].(active := false);
    forall k: nat | k < |calls[si]| ensures CallOk(cfg, x, calls[si], k) {
      assert CallOk(cfg, sess[si], calls[si], k);
    }
  }

  lemma ToldPark(cfg: Config, q: seq<Event>, sess: seq<Session>, calls: seq<seq<Call>>, pending: seq<nat>, now: real, si: nat)
    requires Told(cfg, q, sess, calls, pending, now) && IsDue(cfg, sess, calls, si, now) && sess[si].cursor < |sess[si].reqs|
    ensures Told(cfg, q, sess, calls, pending + [si], now)
  {
    hide Story;
  }

  lemma ToldUnpark(cfg: Config, q: seq<Event>, sess: seq<Session>, calls: seq<seq<Call>>, pending: seq<nat>, now: real)
    requires Told(cfg, q, sess, calls, pending, now) && pending != []
    ensures Told(cfg, q, sess, calls, pending[1..], now)
    ensures cfg.maxSeries > 0 ==> IsDue(cfg, sess, calls, pending[0], now)
  {
    hide Story;
    assert pending[0] in pending && forall s :: s in pending[1..] ==> s in pending;
  }

  // A session in no other place sends its next request.
  lemma ToldSend(cfg: Config, q: seq<Event>, sess: seq<Session>, calls: seq<seq<Call>>, pending: seq<nat>, now: real,
                 si: nat, e: Event, c: Call)
    requires Told(cfg, q, sess, calls, pending, now) && IsDue(cfg, sess, calls, si, now)
    requires Places(q, sess, pending, now, si) && sess[si].cursor < |sess[si].reqs|
    requires c.sentAt == now <= c.begin && Took(cfg, sess[si].reqs[sess[si].cursor], c) && e == Event(c.end, Done, si, e.srv)
    ensures si < |calls| && Told(cfg, [e] + q, sess, calls[si := calls[si] + [c]], pending, now)
  {
    hide Took, Tally;
    NobodyElse(q, sess, pending, now, si);
    StoryGoesOn(cfg, sess[si], calls[si], c, now);
    hide Story;
  }

  lemma NobodyElse(q: seq<Event>, sess: seq<Session>, pending: seq<nat>, now: real, si: nat)
    requires Places(q, sess, pending, now, si) && si < |sess|
    ensures si !in pending && forall e :: e in q && e.kind != Admit ==> e.sess != si
  {
    assert OnePlace(q, sess[si], pending, si, si);
    NoneOf(q, si);
    assert si in pending ==> multiset(pending)[si] > 0;
  }

  lemma StoryGoesOn(cfg: Config, x: Session, calls: seq<Call>, c: Call, now: real)
    requires Story(cfg, x, calls) && |calls| == x.cursor < |x.reqs|
    requires Ready(x, calls, x.cursor) <= now == c.sentAt <= c.begin
    requires cfg.maxSeries <= 0 ==> Ready(x, calls, x.cursor) == now
    requires Took(cfg, x.reqs[x.cursor], c)
    ensures Story(cfg, x, calls + [c]) && Open(x, calls + [c], c.end)
  {
    hide Took;
    var more := calls + [c];
    forall k: nat | k < |more| ensures CallOk(cfg, x, more, k) {
      if k < |calls| { assert CallOk(cfg, x, calls, k); }
    }
  }

  lemma ToldComplete(cfg: Config, q: seq<Event>, sess: seq<Session>, calls: seq<seq<Call>>, pending: seq<nat>, now: real, e: Event)
    requires Told(cfg, [e] + q, sess, calls, pending, now) && e.kind == Done && e.at == now
    requires e.sess < |sess|
    requires Places(q, sess[e.sess := sess[e.sess].(cursor := sess[e.sess].cursor + 1)], pending, now, e.sess)
    ensures var sess' := sess[e.sess := sess[e.sess].(cursor := sess[e.sess].cursor + 1)];
            Told(cfg, q, sess', calls, pending, now) && Answered(sess', calls, e.sess, now)
  {
    hide Tally;
    var x, sess' := sess[e.sess], sess[e.sess := sess[e.sess].(cursor := sess[e.sess].cursor + 1)];
    NobodyElse(q, sess', pending, now, e.sess);
    assert e in [e] + q && forall f :: f in q ==> f in [e] + q;
    var own := calls[e.sess];
    assert Story(cfg, x, own);
    forall k: nat | k < |own| ensures CallOk(cfg, sess'[e.sess], own, k) {
      assert CallOk(cfg, x, own, k);
    }
    assert Story(cfg, sess'[e.sess], own);
    hide Story;
  }

  lemma ToldContinue(cfg: Config, q: seq<Event>, sess: seq<Session>, calls: seq<seq<Call>>, pending: seq<nat>, now: real,
                     si: nat, e: Event)
    requires Told(cfg, q, sess, calls, pending, now) && Answered(sess, calls, si, now)
    requires sess[si].cursor < |sess[si].reqs|
    requires e == Event(Max(sess[si].admittedAt + sess[si].reqs[sess[si].cursor].due, now), Arrive, si, 0)
    ensures Told(cfg, [e] + q, sess, calls, pending, now)
  {
    hide Story;
  }

  lemma ToldNew(cfg: Config, q: seq<Event>, sess: seq<Session>, calls: seq<seq<Call>>, pending: seq<nat>, now: real,
                e: Event, x: Session)
    requires Told(cfg, q, sess, calls, pending, now)
    requires e == Event(now, Arrive, |sess|, 0) && x == Session(x.reqs, 0, now, true)
    ensures Told(cfg, [e] + q, sess + [x], calls + [[]], pending, now)
  {
    assert Story(cfg, x, []);
    hide Story;
  }

  lemma CallTakesItsTime(cfg: Config, was: Sim, h: History, si: nat, c: Call, after: Server)
    requires Engines(cfg, was.srv, h.prefills) && c.srv < |was.srv| && si < |was.sess| && was.sess[si].cursor < |was.sess[si].reqs|
    requires Sane(was.srv[c.srv].prof)
    requires PlacedAt(was.srv[c.srv], was.sess[si].reqs[was.sess[si].cursor], was.now, after, c.begin, c.end)
    ensures Took(cfg, was.sess[si].reqs[was.sess[si].cursor], c)
  {
    assert EngineOk(was.srv[c.srv], cfg.servers[c.srv], h.prefills[c.srv]);
  }

  // Played as far as the horizon reaches: the session is over, or waits for the pool, or
  // its response or its next request is past it.
  ghost predicate PlayedOut(cfg: Config, x: Session, own: seq<Call>, waits: bool) {
    || (!x.active && |own| == |x.reqs|)
    || (waits && |own| < |x.reqs|)
    || (|own| == x.cursor + 1 && own[x.cursor].end > cfg.horizon)
    || (|own| == x.cursor < |x.reqs| && Ready(x, own, |own|) > cfg.horizon)
  }

  lemma EverySessionIsPlayedOut(cfg: Config, st: Sim, h: History, queue: seq<Event>, s: nat)
    requires Inv(cfg, st, h, queue, -1, 0) && Told(cfg, queue, st.sess, h.calls, st.pending, st.now) && s < |st.sess|
    requires forall e :: e in queue ==> e.at > cfg.horizon
    requires st.sess[s].admittedAt <= cfg.horizon
    ensures s < |h.calls| && PlayedOut(cfg, st.sess[s], h.calls[s], s in st.pending)
  {
    OneOfThree(cfg, st, h, queue, s);
    assert Story(cfg, st.sess[s], h.calls[s]);
    hide Inv;
  }

  lemma AllPlayedOut(cfg: Config, templates: seq<seq<Request>>, st: Sim, h: History, queue: seq<Event>)
    requires Inv(cfg, st, h, queue, -1, 0) && Told(cfg, queue, st.sess, h.calls, st.pending, st.now)
    requires Ticked(cfg, templates, st.sess, st.win.ttfts, h.seenAt, h.ticks, queue, st.now)
    requires forall e :: e in queue ==> e.at > cfg.horizon
    ensures |h.calls| == |st.sess|
    ensures forall s: nat :: s < |st.sess| ==> PlayedOut(cfg, st.sess[s], h.calls[s], s in st.pending)
    ensures |h.ticks| as real * cfg.admitEvery > cfg.horizon
  {
    hide Inv, Story, GateIsOpen, AdmitTimes, PlayedOut;
    forall s: nat | s < |st.sess| ensures PlayedOut(cfg, st.sess[s], h.calls[s], s in st.pending) {
      AdmittedInTime(h.ticks, cfg.horizon, s);
      EverySessionIsPlayedOut(cfg, st, h, queue, s);
    }
  }

  lemma {:induction false} AdmittedInTime(ticks: seq<Tick>, horizon: real, s: nat)
    requires (forall k: nat :: k < |ticks| ==> ticks[k].at <= horizon) && s < |AdmitTimes(ticks)|
    ensures AdmitTimes(ticks)[s] <= horizon
  {
    var n := |ticks| - 1;
    if s < |AdmitTimes(ticks[..n])| {
      AdmittedInTime(ticks[..n], horizon, s);
    }
  }

  // ---------------------------------------------------------------- the ticks

  function Moment(every: real, k: nat): real {
    k as real * every
  }

  function AdmitTimes(ticks: seq<Tick>): seq<real> {
    if ticks == [] then []
    else AdmitTimes(ticks[..|ticks| - 1]) + (if ticks[|ticks| - 1].admitted then [ticks[|ticks| - 1].at] else [])
  }

  // Tick k, and the TTFTs it could see: it admits exactly if there is something to admit
  // and the gate is open.
  ghost predicate TickOk(cfg: Config, templates: seq<seq<Request>>, ttfts: seq<real>, seenAt: seq<real>, t: Tick, k: nat)
    requires |ttfts| == |seenAt|
  {
    && t.at == Moment(cfg.admitEvery, k) <= cfg.horizon && t.seen <= |ttfts|
    && (forall j: nat :: j < t.seen ==> seenAt[j] <= t.at)
    && (forall j: nat :: t.seen <= j < |seenAt| ==> seenAt[j] >= t.at)
    && (t.admitted <==> templates != [] && GateIsOpen(cfg, ttfts[..t.seen], seenAt[..t.seen], t.at))
  }

  // Session s was admitted by the s-th tick that admitted, and plays the templates in turn.
  ghost predicate FromTicks(templates: seq<seq<Request>>, sess: seq<Session>, times: seq<real>) {
    && |sess| == |times|
    && (templates == [] ==> sess == [])
    && (forall s: nat :: s < |sess| ==> sess[s].reqs == NextTemplate(templates, s) && sess[s].admittedAt == times[s])
  }

  // The next tick is in the queue, unless it is past the horizon.
  ghost predicate NextTickIn(cfg: Config, n: nat, q: seq<Event>) {
    && (forall e :: e in q && e.kind == Admit ==> e.at == Moment(cfg.admitEvery, n) <= cfg.horizon)
    && (Moment(cfg.admitEvery, n) > cfg.horizon || exists e :: e in q && e.kind == Admit)
  }

  ghost predicate Ticked(cfg: Config, templates: seq<seq<Request>>, sess: seq<Session>, ttfts: seq<real>, seenAt: seq<real>,
                         ticks: seq<Tick>, q: seq<Event>, now: real) {
    && |ttfts| == |seenAt|
    && (forall k: nat :: k < |ticks| ==> ticks[k].at <= now && TickOk(cfg, templates, ttfts, seenAt, ticks[k], k))
    && FromTicks(templates, sess, AdmitTimes(ticks))
    && NextTickIn(cfg, |ticks|, q)
  }

  // What handling anything but a tick leaves alone: the ticks, who the sessions are, what
  // was seen so far, and the next tick.
  ghost predicate Quiet(was: Sim, past: History, st: Sim, h: History) {
    && h.ticks == past.ticks && was.now <= st.now
    && SameSessions(was.sess, st.sess)
    && SeenMore(was.win.ttfts, past.seenAt, st.win.ttfts, h.seenAt, was.now)
    && SameTicks(was.q, st.q)
  }

  ghost predicate SameSessions(a: seq<Session>, b: seq<Session>) {
    |a| == |b| && forall s: nat :: s < |a| ==> a[s].reqs == b[s].reqs && a[s].admittedAt == b[s].admittedAt
  }

  ghost predicate SeenMore(ttfts: seq<real>, seenAt: seq<real>, ttfts': seq<real>, seenAt': seq<real>, now: real) {
    && ttfts <= ttfts' && seenAt <= seenAt' && |ttfts'| - |ttfts| == |seenAt'| - |seenAt|
    && forall j: nat :: |seenAt| <= j < |seenAt'| ==> seenAt'[j] >= now
  }

  ghost predicate SameTicks(q: seq<Event>, q': seq<Event>) {
    forall e: Event :: e.kind == Admit ==> (e in q <==> e in q')
  }

  predicate Alike(was: Sim, past: History, st: Sim, h: History) {
    st.win == was.win && st.now == was.now && h.ticks == past.ticks && h.seenAt == past.seenAt
  }

  lemma QuietStays(was: Sim, past: History)
    ensures forall st: Sim, h: History :: Alike(was, past, st, h) && st.sess == was.sess && st.q == was.q ==> Quiet(was, past, st, h)
  {
  }

  lemma QuietSession(was: Sim, past: History, si: nat, x: Session)
    requires si < |was.sess| && x.reqs == was.sess[si].reqs && x.admittedAt == was.sess[si].admittedAt
    ensures forall st: Sim, h: History :: Alike(was, past, st, h) && st.q == was.q && st.sess == was.sess[si := x] ==> Quiet(was, past, st, h)
  {
  }

  lemma QuietPush(was: Sim, past: History, e: Event)
    requires e.kind != Admit
    ensures Quiet(was, past, was.(q := [e] + was.q), past)
  {
  }

  lemma QuietSend(was: Sim, past: History, st: Sim, h: History, ttft: real, e: Event)
    requires e.kind != Admit && st.sess == was.sess && st.q == [e] + was.q && st.now == was.now && h.ticks == past.ticks
    requires st.win.ttfts == was.win.ttfts + [ttft] && h.seenAt == past.seenAt + [was.now]
    ensures Quiet(was, past, st, h)
  {
  }

  lemma QuietTwice(a: Sim, ha: History, b: Sim, hb: History, c: Sim, hc: History)
    requires Quiet(a, ha, b, hb) && Quiet(b, hb, c, hc)
    ensures Quiet(a, ha, c, hc)
  {
    assert forall j: nat :: j < |ha.seenAt| ==> hc.seenAt[j] == hb.seenAt[j];
    assert forall j: nat :: j < |a.win.ttfts| ==> c.win.ttfts[j] == b.win.ttfts[j];
  }

  lemma TickedSame(cfg: Config, templates: seq<seq<Request>>, sess: seq<Session>, ttfts: seq<real>, seenAt: seq<real>,
                   ticks: seq<Tick>, q: seq<Event>, q': seq<Event>, now: real, now': real)
    requires Ticked(cfg, templates, sess, ttfts, seenAt, ticks, q, now) && SameTicks(q, q') && now <= now'
    ensures Ticked(cfg, templates, sess, ttfts, seenAt, ticks, q', now')
  {
    hide TickOk, FromTicks, AdmitTimes, Moment;
  }

  lemma PoppedIsSame(q: seq<Event>, e: Event, rest: seq<Event>)
    requires e in q && multiset(q) == multiset(rest) + multiset{e}
    ensures forall f :: f in q <==> f in [e] + rest
    ensures SameTicks(q, [e] + rest)
  {
    forall f ensures f in q <==> f in [e] + rest {
      assert f in q <==> f in multiset(q);
      assert f in rest <==> f in multiset(rest);
    }
  }

  // Anything but a tick leaves the ticks as they were.
  lemma TickedQuiet(cfg: Config, templates: seq<seq<Request>>, was: Sim, past: History, e: Event, st: Sim, h: History)
    requires Ticked(cfg, templates, was.sess, was.win.ttfts, past.seenAt, past.ticks, [e] + was.q, was.now)
    requires e.kind != Admit && Quiet(was, past, st, h)
    ensures Ticked(cfg, templates, st.sess, st.win.ttfts, h.seenAt, h.ticks, st.q, st.now)
  {
    hide TickOk, AdmitTimes, Moment, FromTicks;
    TickedSame(cfg, templates, was.sess, was.win.ttfts, past.seenAt, past.ticks, [e] + was.q, st.q, was.now, st.now);
    forall k: nat | k < |h.ticks| ensures TickOk(cfg, templates, st.win.ttfts, h.seenAt, h.ticks[k], k) {
      TickStays(cfg, templates, was.win.ttfts, past.seenAt, st.win.ttfts, h.seenAt, was.now, h.ticks[k], k);
    }
    SessionsStay(templates, was.sess, st.sess, AdmitTimes(h.ticks));
  }

  lemma SessionsStay(templates: seq<seq<Request>>, a: seq<Session>, b: seq<Session>, times: seq<real>)
    requires FromTicks(templates, a, times) && SameSessions(a, b)
    ensures FromTicks(templates, b, times)
  {
    assert forall s: nat :: s < |b| ==> b[s].reqs == a[s].reqs && b[s].admittedAt == a[s].admittedAt;
  }

  lemma TickStays(cfg: Config, templates: seq<seq<Request>>, ttfts: seq<real>, seenAt: seq<real>, ttfts': seq<real>, seenAt': seq<real>,
                  now: real, t: Tick, k: nat)
    requires |ttfts| == |seenAt| && TickOk(cfg, templates, ttfts, seenAt, t, k) && t.at <= now
    requires SeenMore(ttfts, seenAt, ttfts', seenAt', now)
    ensures TickOk(cfg, templates, ttfts', seenAt', t, k)
  {
    hide GateIsOpen, Moment;
    assert ttfts'[..t.seen] == ttfts[..t.seen] && seenAt'[..t.seen] == seenAt[..t.seen];
    assert forall j: nat :: j < |seenAt| ==> seenAt'[j] == seenAt[j];
  }

  // A tick: what it admitted, and the one after it.
  lemma TickedOnce(cfg: Config, templates: seq<seq<Request>>, was: Sim, past: History, e: Event, st: Sim, h: History,
                   between: seq<Event>, t: Tick)
    requires Ticked(cfg, templates, was.sess, was.win.ttfts, past.seenAt, past.ticks, [e] + was.q, was.now)
    requires e.kind == Admit && e.at == was.now == st.now && cfg.admitEvery > 0.0
    requires Tally(was.q, Ticks) == 0 && was.nextSession == |was.sess|
    requires st.win.ttfts == was.win.ttfts && h.seenAt == past.seenAt && (forall j :: 0 <= j < |h.seenAt| ==> h.seenAt[j] <= st.now)
    requires t.at == e.at && t.seen == |was.win.ttfts| && h.ticks == past.ticks + [t]
    requires t.admitted <==> templates != [] && |past.seenAt| == |was.win.ttfts| && GateIsOpen(cfg, was.win.ttfts, past.seenAt, was.now)
    requires if t.admitted then st.sess == was.sess + [Session(NextTemplate(templates, was.nextSession), 0, was.now, true)]
                                && between == [Event(was.now, Arrive, |was.sess|, 0)] + was.q
             else st.sess == was.sess && between == was.q
    requires st.q == if e.at + cfg.admitEvery <= cfg.horizon then [Event(e.at + cfg.admitEvery, Admit, 0, 0)] + between else between
    ensures Ticked(cfg, templates, st.sess, st.win.ttfts, h.seenAt, h.ticks, st.q, st.now)
  {
    hide GateIsOpen, Tally, TickOk, FromTicks, AdmitTimes, NextTickIn, Moment;
    NextTickQueued(cfg, |past.ticks|, e, was.q, between, st.q);
    ThisTickOk(cfg, templates, st.win.ttfts, h.seenAt, t, |past.ticks|);
    AdmittedThen(templates, was.sess, past.ticks, t);
  }

  lemma ThisTickOk(cfg: Config, templates: seq<seq<Request>>, ttfts: seq<real>, seenAt: seq<real>, t: Tick, k: nat)
    requires |ttfts| == |seenAt| == t.seen && t.at == Moment(cfg.admitEvery, k) <= cfg.horizon
    requires forall j :: 0 <= j < |seenAt| ==> seenAt[j] <= t.at
    requires t.admitted <==> templates != [] && GateIsOpen(cfg, ttfts, seenAt, t.at)
    ensures TickOk(cfg, templates, ttfts, seenAt, t, k)
  {
    hide GateIsOpen;
    assert ttfts[..t.seen] == ttfts && seenAt[..t.seen] == seenAt;
  }

  // The tick in the queue was the next one, and the one after it is there unless it is too late.
  lemma NextTickQueued(cfg: Config, n: nat, e: Event, q: seq<Event>, between: seq<Event>, q': seq<Event>)
    requires NextTickIn(cfg, n, [e] + q) && e.kind == Admit && Tally(q, Ticks) == 0
    requires between == q || (between != [] && between == [between[0]] + q && between[0].kind == Arrive)
    requires q' == if e.at + cfg.admitEvery <= cfg.horizon then [Event(e.at + cfg.admitEvery, Admit, 0, 0)] + between else between
    ensures e.at == Moment(cfg.admitEvery, n) <= cfg.horizon && NextTickIn(cfg, n + 1, q')
  {
    hide Tally, Moment;
    assert e in [e] + q;
    NextMoment(cfg.admitEvery, n);
    NoTickQueued(q);
  }

  lemma AdmittedThen(templates: seq<seq<Request>>, sess: seq<Session>, ticks: seq<Tick>, t: Tick)
    requires FromTicks(templates, sess, AdmitTimes(ticks)) && (t.admitted ==> templates != [])
    ensures !t.admitted ==> FromTicks(templates, sess, AdmitTimes(ticks + [t]))
    ensures t.admitted ==> FromTicks(templates, sess + [Session(NextTemplate(templates, |sess|), 0, t.at, true)], AdmitTimes(ticks + [t]))
  {
    assert (ticks + [t])[..|ticks|] == ticks;
  }

  lemma NextMoment(every: real, n: nat)
    ensures Moment(every, n + 1) == Moment(every, n) + every
  {
  }

  lemma NoTickQueued(q: seq<Event>)
    requires Tally(q, Ticks) == 0
    ensures forall e :: e in q ==> e.kind != Admit
  {
    forall e | e in q ensures e.kind != Admit {
      if e.kind == Admit { TallyPositive(q, e, Ticks); }
    }
  }

  lemma PushFactsDone(q: seq<Event>)
    ensures forall e, m :: Tally([e] + q, m) == Weight(e, m) + Tally(q, m)
  {
    forall e, m ensures Tally([e] + q, m) == Weight(e, m) + Tally(q, m) {
      PushFacts(e, q);
    }
  }

  lemma PlacesRetire(q: seq<Event>, sess: seq<Session>, pending: seq<nat>, now: real, s: nat)
    requires Places(q, sess, pending, now, s) && s < |sess| && sess[s].cursor >= |sess[s].reqs|
    ensures sess[s].active
    ensures Places(q, sess[s := sess[s].(active := false)], pending, now, -1)
  {
    var sess' := sess[s := sess[s].(active := false)];
    forall i: nat | i < |sess'| ensures OnePlace(q, sess'[i], pending, -1, i) {
      assert OnePlace(q, sess[i], pending, s, i);
    }
    assert OnePlace(q, sess[s], pending, s, s);
  }

  lemma PlacesPark(q: seq<Event>, sess: seq<Session>, pending: seq<nat>, now: real, s: nat)
    requires Places(q, sess, pending, now, s) && s < |sess| && sess[s].cursor < |sess[s].reqs|
    ensures Places(q, sess, pending + [s], now, -1)
  {
    forall i: nat | i < |sess| ensures OnePlace(q, sess[i], pending + [s], -1, i) {
      assert OnePlace(q, sess[i], pending, s, i);
    }
  }

  lemma PlacesComplete(e: Event, q: seq<Event>, sess: seq<Session>, pending: seq<nat>, now: real)
    requires Places([e] + q, sess, pending, now, -1) && e.kind == Done
    ensures e.sess < |sess| && sess[e.sess].cursor < |sess[e.sess].reqs| && sess[e.sess].active
    ensures Places(q, sess[e.sess := sess[e.sess].(cursor := sess[e.sess].cursor + 1)], pending, now, e.sess)
  {
    assert e in [e] + q;
    PushFacts(e, q);
    var s := e.sess;
    var sess' := sess[s := sess[s].(cursor := sess[s].cursor + 1)];
    assert OnePlace([e] + q, sess[s], pending, -1, s);
    NoneOf(q, s);
    assert s !in pending;
    assert forall f :: f in q ==> f in [e] + q;
    forall i: nat | i < |sess'| ensures OnePlace(q, sess'[i], pending, s, i) {
      assert OnePlace([e] + q, sess[i], pending, -1, i);
    }
  }

  lemma PoolComplete(e: Event, st: Sim, cap: int)
    requires PoolOk([e] + st.q, st.srv, st.sess, st.inflight, st.maxInflight, st.completed, |st.win.ttfts|, cap)
    requires e.kind == Done && e.sess < |st.sess|
    ensures e.srv < |st.srv| && st.inflight >= 1
    ensures PoolOk(st.q, st.srv[e.srv := st.srv[e.srv].(outstanding := st.srv[e.srv].outstanding - 1)],
                   st.sess[e.sess := st.sess[e.sess].(cursor := st.sess[e.sess].cursor + 1)],
                   st.inflight - 1, st.maxInflight, st.completed + 1, |st.win.ttfts|, cap)
  {
    assert e in [e] + st.q;
    PushFacts(e, st.q);
    SumUpdate(st.sess, e.sess, st.sess[e.sess].(cursor := st.sess[e.sess].cursor + 1), Sent);
    assert forall f :: f in st.q ==> f in [e] + st.q;
  }

  lemma PoolSameSent(st: Sim, sess': seq<Session>, q: seq<Event>, cap: int)
    requires PoolOk(q, st.srv, st.sess, st.inflight, st.maxInflight, st.completed, |st.win.ttfts|, cap)
    requires Sum(sess', Sent) == Sum(st.sess, Sent)
    ensures PoolOk(q, st.srv, sess', st.inflight, st.maxInflight, st.completed, |st.win.ttfts|, cap)
  {
  }

  lemma SaneUpdate(sess: seq<Session>, i: nat, s: Session)
    requires AllSane(sess) && i < |sess| && s.reqs == sess[i].reqs
    ensures AllSane(sess[i := s])
  {
  }

  lemma EnginesComplete(cfg: Config, srv: seq<Server>, prefills: seq<seq<Span>>, i: nat)
    requires Engines(cfg, srv, prefills) && i < |srv|
    ensures Engines(cfg, srv[i := srv[i].(outstanding := srv[i].outstanding - 1)], prefills)
  {
    assert EngineOk(srv[i], cfg.servers[i], prefills[i]);
  }

  lemma PlacesPushArrival(e: Event, q: seq<Event>, sess: seq<Session>, pending: seq<nat>, now: real)
    requires e.kind == Arrive && e.at >= now && e.sess < |sess| && Places(q, sess, pending, now, e.sess)
    ensures Places([e] + q, sess, pending, now, -1)
  {
    PushFacts(e, q);
    forall i: nat | i < |sess| ensures OnePlace([e] + q, sess[i], pending, -1, i) {
      assert OnePlace(q, sess[i], pending, e.sess, i);
    }
  }

  lemma PlacesPushTick(e: Event, q: seq<Event>, sess: seq<Session>, pending: seq<nat>, now: real)
    requires e.kind == Admit && e.at >= now && Places(q, sess, pending, now, -1)
    ensures Places([e] + q, sess, pending, now, -1)
  {
    PushFacts(e, q);
    forall i: nat | i < |sess| ensures OnePlace([e] + q, sess[i], pending, -1, i) {
      assert OnePlace(q, sess[i], pending, -1, i);
    }
  }

  lemma PlacesPopTick(e: Event, q: seq<Event>, sess: seq<Session>, pending: seq<nat>, now: real)
    requires e.kind == Admit && Places([e] + q, sess, pending, now, -1)
    ensures Places(q, sess, pending, now, -1)
  {
    PushFacts(e, q);
    assert forall f :: f in q ==> f in [e] + q;
    forall i: nat | i < |sess| ensures OnePlace(q, sess[i], pending, -1, i) {
      assert OnePlace([e] + q, sess[i], pending, -1, i);
    }
  }

  lemma PlacesPopArrival(e: Event, q: seq<Event>, sess: seq<Session>, pending: seq<nat>, now: real)
    requires e.kind == Arrive && Places([e] + q, sess, pending, now, -1)
    ensures e.sess < |sess| && Places(q, sess, pending, now, e.sess)
  {
    PushFacts(e, q);
    assert e in [e] + q;
    assert forall f :: f in q ==> f in [e] + q;
    forall i: nat | i < |sess| ensures OnePlace(q, sess[i], pending, e.sess, i) {
      assert OnePlace([e] + q, sess[i], pending, -1, i);
    }
  }

  lemma PlacesUnpark(q: seq<Event>, sess: seq<Session>, pending: seq<nat>, now: real)
    requires pending != [] && Places(q, sess, pending, now, -1)
    ensures pending[0] < |sess| && sess[pending[0]].cursor < |sess[pending[0]].reqs|
    ensures Places(q, sess, pending[1..], now, pending[0])
  {
    var s := pending[0];
    assert pending == [s] + pending[1..];
    assert s in pending && forall f :: f in pending[1..] ==> f in pending;
    forall i: nat | i < |sess| ensures OnePlace(q, sess[i], pending[1..], s, i) {
      assert OnePlace(q, sess[i], pending, -1, i);
    }
  }

  lemma PoolPushOther(e: Event, st: Sim, cap: int)
    requires e.kind != Done
    requires PoolOk(st.q, st.srv, st.sess, st.inflight, st.maxInflight, st.completed, |st.win.ttfts|, cap)
    ensures PoolOk([e] + st.q, st.srv, st.sess, st.inflight, st.maxInflight, st.completed, |st.win.ttfts|, cap)
  {
    PushFacts(e, st.q);
  }

  lemma PoolPopOther(e: Event, st: Sim, cap: int)
    requires e.kind != Done
    requires PoolOk([e] + st.q, st.srv, st.sess, st.inflight, st.maxInflight, st.completed, |st.win.ttfts|, cap)
    ensures PoolOk(st.q, st.srv, st.sess, st.inflight, st.maxInflight, st.completed, |st.win.ttfts|, cap)
  {
    PushFacts(e, st.q);
    assert forall f :: f in st.q ==> f in [e] + st.q;
  }

  // A tick taken out of the queue leaves the invariants, and no other tick.
  lemma TickPopped(cfg: Config, st: Sim, h: History, e: Event)
    requires e.kind == Admit && Inv(cfg, st, h, [e] + st.q, -1, 0)
    ensures Inv(cfg, st, h, st.q, -1, 0) && Tally(st.q, Ticks) == 0 && st.nextSession == |st.sess|
    ensures |h.seenAt| == |st.win.ttfts| && forall j :: 0 <= j < |h.seenAt| ==> h.seenAt[j] <= st.now
  {
    hide Engines, AllSane, Places, Tally, OpenSecs, Length, Total, Sum, PoolOk;
    PushFacts(e, st.q);
    PlacesPopTick(e, st.q, st.sess, st.pending, st.now);
    PoolPopOther(e, st, cfg.maxSeries);
  }

  lemma TicksAreApart(cfg: Config, st: Sim, h: History, ticks: seq<Tick>)
    requires Inv(cfg, st, h, st.q, -1, 0)
    ensures Inv(cfg, st, h.(ticks := ticks), st.q, -1, 0)
  {
    hide Places, PoolOk, Full, Sessions, Engines, WindowOk, OneTick, Length, OpenSecs;
  }

  lemma WindowLengths(cfg: Config, w: Window, seenAt: seq<real>, now: real)
    requires WindowOk(cfg, w, seenAt, now)
    ensures |w.ttfts| == |seenAt|
  {
  }

  lemma {:induction false} NoTicksLeft(q: seq<Event>, every: real, horizon: real)
    requires Tally(q, Ticks) == 0
    ensures Tally(q, TicksToCome(every, horizon)) == 0
  {
    if q != [] {
      NoTicksLeft(q[1..], every, horizon);
    }
  }

  lemma PoolCounts(queue: seq<Event>, st: Sim, cap: int)
    requires PoolOk(queue, st.srv, st.sess, st.inflight, st.maxInflight, st.completed, |st.win.ttfts|, cap)
    ensures st.inflight == Tally(queue, Completions) && st.inflight <= st.maxInflight
  {
  }

  // Over a jump of the clock, what is in flight stays open.
  lemma LittleGrows(queue: seq<Event>, st: Sim, h: History, d: real)
    requires Little(queue, st, h) && d >= 0.0
    requires forall e :: e in queue && e.kind == Done ==> e.sess < |st.sess|
    requires st.inflight == Tally(queue, Completions) && st.inflight <= st.maxInflight
    ensures Little(queue, st.(concSecs := st.concSecs + (st.inflight as real) * d, now := st.now + d), h)
  {
    hide Length, OpenSecs, Tally;
    OpenGrows(queue, h.begun, st.now, d);
    PeakBounds(st.concSecs, st.inflight, st.maxInflight, st.now, d);
  }

  lemma PeakBounds(secs: real, n: int, m: int, now: real, d: real)
    requires n <= m && d >= 0.0 && secs <= m as real * now
    ensures secs + n as real * d <= m as real * (now + d)
  {
    var gap := (m - n) as real;
    assert gap * d >= 0.0;
    assert gap == m as real - n as real;
    assert m as real * (now + d) == m as real * now + n as real * d + gap * d;
  }

  lemma PopKeepsInv(cfg: Config, st: Sim, h: History, e: Event, rest: seq<Event>)
    requires Inv(cfg, st, h, st.q, -1, 0) && e in st.q
    requires forall m :: Tally(st.q, m) == Weight(e, m) + Tally(rest, m)
    requires forall b, t :: OpenSecs(st.q, b, t) == OpenOne(e, b, t) + OpenSecs(rest, b, t)
    requires forall f :: f in rest ==> f in st.q
    ensures Inv(cfg, st.(q := rest), h, [e] + rest, -1, 0)
  {
    hide WindowOk, Engines, AllSane, Sum, Length, Total, Places, PoolOk, Little, Tally, OpenSecs, Sessions;
    PushFacts(e, rest);
    PlacesPop(st, e, rest);
    LittlePop(st, h, e, rest);
    PoolPop(st, e, rest, cfg.maxSeries);
  }

  lemma PlacesPop(st: Sim, e: Event, rest: seq<Event>)
    requires Places(st.q, st.sess, st.pending, st.now, -1) && e in st.q
    requires forall m :: Tally(st.q, m) == Weight(e, m) + Tally(rest, m)
    requires forall f :: f in rest ==> f in st.q
    ensures Places([e] + rest, st.sess, st.pending, st.now, -1)
  {
    PushFacts(e, rest);
    forall i: nat | i < |st.sess| ensures OnePlace([e] + rest, st.sess[i], st.pending, -1, i) {
      assert OnePlace(st.q, st.sess[i], st.pending, -1, i);
    }
  }

  lemma LittlePop(st: Sim, h: History, e: Event, rest: seq<Event>)
    requires Little(st.q, st, h) && Sessions(st)
    requires forall b, t :: OpenSecs(st.q, b, t) == OpenOne(e, b, t) + OpenSecs(rest, b, t)
    ensures Little([e] + rest, st.(q := rest), h) && Sessions(st.(q := rest))
  {
    PushFacts(e, rest);
  }

  lemma PoolPop(st: Sim, e: Event, rest: seq<Event>, cap: int)
    requires PoolOk(st.q, st.srv, st.sess, st.inflight, st.maxInflight, st.completed, |st.win.ttfts|, cap) && e in st.q
    requires forall m :: Tally(st.q, m) == Weight(e, m) + Tally(rest, m)
    requires forall f :: f in rest ==> f in st.q
    ensures PoolOk([e] + rest, st.srv, st.sess, st.inflight, st.maxInflight, st.completed, |st.win.ttfts|, cap)
  {
    PushFacts(e, rest);
  }

  // Templates are reused in turn.
  function NextTemplate(templates: seq<seq<Request>>, k: nat): (t: seq<Request>)
    requires templates != []
    ensures t in templates
  {
    templates[k % |templates|]
  }

  lemma OneMoreSane(sess: seq<Session>, s: Session, templates: seq<seq<Request>>)
    requires AllSane(sess) && s.reqs in templates && forall t :: t in templates ==> SaneRequests(t)
    ensures AllSane(sess + [s])
  {
  }

  lemma SessionIsSane(st: Sim, s: nat)
    requires Sessions(st) && s < |st.sess|
    ensures SaneRequests(st.sess[s].reqs)
  {
  }

  lemma PlacesPushDone(e: Event, q: seq<Event>, sess: seq<Session>, pending: seq<nat>, now: real)
    requires e.kind == Done && e.at >= now && e.sess < |sess| && sess[e.sess].cursor < |sess[e.sess].reqs|
    requires Places(q, sess, pending, now, e.sess)
    ensures Places([e] + q, sess, pending, now, -1)
    ensures Tally(q, OfSession(e.sess)) == 0
    ensures forall f :: f in q && f.kind == Done ==> f.sess < |sess|
  {
    PushFacts(e, q);
    assert OnePlace(q, sess[e.sess], pending, e.sess, e.sess);
    forall s: nat | s < |sess| ensures OnePlace([e] + q, sess[s], pending, -1, s) {
      assert OnePlace(q, sess[s], pending, e.sess, s);
    }
  }

  lemma LittleOneMore(e: Event, st: Sim, h: History, peak: int)
    requires e.kind == Done && e.sess < |st.sess| && Little(st.q, st, h) && Tally(st.q, OfSession(e.sess)) == 0
    requires forall f :: f in st.q && f.kind == Done ==> f.sess < |st.sess|
    requires peak >= st.maxInflight
    ensures Little([e] + st.q, st.(maxInflight := peak), h.(begun := h.begun[e.sess := st.now]))
  {
    var begun := h.begun[e.sess := st.now];
    NoneOf(st.q, e.sess);
    OpenFrame(st.q, h.begun, begun, st.now);
    PushFacts(e, st.q);
    assert (peak - st.maxInflight) as real * st.now >= 0.0;
  }

  // The request is on its server and its TTFT observed; now it counts as in flight.
  lemma SendKeepsInv(cfg: Config, was: Sim, past: History, st: Sim, h: History, e: Event, calls: seq<seq<Call>>)
    requires Inv(cfg, was, past, was.q, e.sess, 1) && e.kind == Done && e.at >= was.now
    requires st == was.(srv := st.srv, win := st.win, inputSum := st.inputSum) && h == past.(prefills := h.prefills, seenAt := h.seenAt)
    requires e.sess < |was.sess| && was.sess[e.sess].cursor < |was.sess[e.sess].reqs|
    requires cfg.maxSeries > 0 ==> was.inflight < cfg.maxSeries
    requires Engines(cfg, st.srv, h.prefills) && WindowOk(cfg, st.win, h.seenAt, st.now) && |st.win.ttfts| == |was.win.ttfts| + 1
    requires e.srv < |was.srv| == |st.srv| && st.srv == was.srv[e.srv := st.srv[e.srv]]
    requires st.srv[e.srv].outstanding == was.srv[e.srv].outstanding + 1
    ensures e.sess < |h.begun|
    ensures var st' := st.(inflight := st.inflight + 1, q := [e] + st.q,
                           maxInflight := if st.inflight + 1 > st.maxInflight then st.inflight + 1 else st.maxInflight);
            Inv(cfg, st', h.(begun := h.begun[e.sess := st.now], calls := calls), st'.q, -1, 0)
  {
    hide PoolOk, WindowOk, Engines, Places, AllSane, Tally, OpenSecs, Length, Total, Sum;
    PoolOneMore(was.q, was.srv, was.sess, was.inflight, was.maxInflight, was.completed, |was.win.ttfts|, cfg.maxSeries, e, st.srv);
    PlacesPushDone(e, st.q, st.sess, st.pending, st.now);
    LittleOneMore(e, st, h, if st.inflight + 1 > st.maxInflight then st.inflight + 1 else st.maxInflight);
    PushFacts(e, st.q);
  }

  lemma PlacesNewSession(e: Event, q: seq<Event>, sess: seq<Session>, pending: seq<nat>, now: real, s: Session)
    requires Places(q, sess, pending, now, -1) && e == Event(now, Arrive, |sess|, 0) && s.active
    ensures Places([e] + q, sess + [s], pending, now, -1)
    ensures forall f :: f in q && f.kind == Done ==> f.sess < |sess|
  {
    PushFacts(e, q);
    NobodyYet(q, |sess|);
    forall i: nat | i < |sess + [s]| ensures OnePlace([e] + q, (sess + [s])[i], pending, -1, i) {
      if i < |sess| {
        assert OnePlace(q, sess[i], pending, -1, i);
      }
    }
  }

  lemma PoolNewSession(queue: seq<Event>, srv: seq<Server>, sess: seq<Session>, inflight: int, maxInflight: int,
                       completed: nat, sent: nat, cap: int, e: Event, s: Session)
    requires PoolOk(queue, srv, sess, inflight, maxInflight, completed, sent, cap)
    requires e.kind == Arrive && s.cursor == 0
    ensures PoolOk([e] + queue, srv, sess + [s], inflight, maxInflight, completed, sent, cap)
  {
    PushFacts(e, queue);
    SumAppend(sess, s, Sent);
  }

  lemma {:induction false} NobodyYet(q: seq<Event>, s: nat)
    requires forall e :: e in q && e.kind != Admit ==> e.sess < s
    ensures Tally(q, OfSession(s)) == 0
  {
    if q != [] {
      assert q[0] in q;
      NobodyYet(q[1..], s);
    }
  }

  // The request begins when the engine is free and, with the batch full, when the earliest
  // of the running sequences ends; its slot is held until its last token.
  ghost predicate PlacedAt(was: Server, r: Request, now: real, st: Server, start: real, end: real)
    requires Sane(was.prof)
  {
    var running := Running(was.resident, now);
    var slotAt := if |running| >= was.prof.maxSeqs then running[0] else now;
    && start == Max(Max(now, was.prefillFreeAt), slotAt)
    && st.prefillFreeAt == start + PrefillSecs(r, was.prof)
    && end == st.prefillFreeAt + DecodeSecs(r, was.prof)
    && multiset(st.resident) == multiset(running) + multiset{end}
    && st.slotSecs == was.slotSecs + (end - start)
  }

  function PrefillSecs(r: Request, p: Profile): (d: real)
    requires p.prefillRate != 0.0
    ensures p.prefillRate > 0.0 && r.input >= 0.0 && p.hitRate <= 1.0 ==> d >= 0.0
  {
    var missed := r.input * (1.0 - p.hitRate);
    missed / p.prefillRate
  }

  function DecodeSecs(r: Request, p: Profile): (d: real)
    requires p.decodeRate != 0.0
    ensures p.decodeRate > 0.0 && r.output >= 0.0 ==> d >= 0.0
  {
    r.output / p.decodeRate
  }

  const MaxInt32: int := 2147483647

  // ---------------------------------------------------------------- what it means

  function Outstanding(srv: seq<Server>): int {
    if srv == [] then 0 else Outstanding(srv[..|srv| - 1]) + srv[|srv| - 1].outstanding
  }

  // Completions for the first `n` servers.
  function UpTo(q: seq<Event>, n: nat): nat {
    if n == 0 then 0 else UpTo(q, n - 1) + Tally(q, OfServer(n - 1))
  }

  lemma {:induction false} UpToPush(e: Event, q: seq<Event>, n: nat)
    ensures UpTo([e] + q, n) == UpTo(q, n) + if e.kind == Done && e.srv < n then 1 else 0
  {
    if n > 0 {
      UpToPush(e, q, n - 1);
      TallyPush(e, q, OfServer(n - 1));
    }
  }

  lemma {:induction false} UpToIsAll(q: seq<Event>, n: nat)
    requires forall e :: e in q && e.kind == Done ==> e.srv < n
    ensures UpTo(q, n) == Tally(q, Completions)
  {
    if q == [] {
      UpToNone(n);
    } else {
      assert q == [q[0]] + q[1..] && q[0] in q;
      UpToIsAll(q[1..], n);
      UpToPush(q[0], q[1..], n);
    }
  }

  lemma {:induction false} UpToNone(n: nat)
    ensures UpTo([], n) == 0
  {
    if n > 0 {
      UpToNone(n - 1);
    }
  }

  lemma {:induction false} OutstandingIsUpTo(q: seq<Event>, srv: seq<Server>, n: nat)
    requires n <= |srv|
    requires forall i: nat :: i < |srv| ==> srv[i].outstanding == Tally(q, OfServer(i))
    ensures Outstanding(srv[..n]) == UpTo(q, n)
  {
    if n > 0 {
      OutstandingIsUpTo(q, srv, n - 1);
      assert srv[..n][..n - 1] == srv[..n - 1];
    }
  }

  /**
   * Between any two events, what the servers have open adds up to what is in flight, the
   * pool is full whenever anyone waits for it, and what was sent either finished or is in
   * flight.
   */
  lemma InFlightAddsUp(cfg: Config, st: Sim, h: History, queue: seq<Event>)
    requires Inv(cfg, st, h, queue, -1, 0)
    ensures Outstanding(st.srv) == st.inflight == Tally(queue, Completions)
    ensures cfg.maxSeries > 0 ==> st.inflight <= cfg.maxSeries
    ensures st.pending != [] ==> cfg.maxSeries > 0 && st.inflight == cfg.maxSeries
    ensures |st.win.ttfts| == st.completed + st.inflight
    ensures |st.sess| == st.active + st.retired && st.completed == Sum(st.sess, Sent)
  {
    OutstandingIsUpTo(queue, st.srv, |st.srv|);
    assert st.srv[..|st.srv|] == st.srv;
    UpToIsAll(queue, |st.srv|);
  }

  /**
   * Every active session is in exactly one place: one event of the queue, and then it is
   * not waiting for the pool, or one entry of the waiting list, and then no event is about
   * it. A session that is over is in neither.
   */
  lemma OneOfThree(cfg: Config, st: Sim, h: History, queue: seq<Event>, s: nat)
    requires Inv(cfg, st, h, queue, -1, 0) && s < |st.sess|
    ensures st.sess[s].active <==> (s in st.pending || exists e :: e in queue && e.kind != Admit && e.sess == s)
    ensures multiset(st.pending)[s] + Tally(queue, OfSession(s)) <= 1
    ensures forall e, f :: e in queue && f in queue && e.kind != Admit && f.kind != Admit && e.sess == f.sess == s ==> e == f
  {
    assert OnePlace(queue, st.sess[s], st.pending, -1, s);
    assert s in st.pending <==> s in multiset(st.pending);
    if Tally(queue, OfSession(s)) == 0 {
      NoneOf(queue, s);
    } else {
      var e := Someone(queue, s);
      forall f | f in queue && f.kind != Admit && f.sess == s ensures e == f {
        AtMostOne(queue, e, f, s);
      }
    }
  }

  lemma {:induction false} Someone(q: seq<Event>, s: nat) returns (e: Event)
    requires Tally(q, OfSession(s)) > 0
    ensures e in q && e.kind != Admit && e.sess == s
  {
    if q[0].kind != Admit && q[0].sess == s {
      e := q[0];
    } else {
      e := Someone(q[1..], s);
    }
  }

  lemma {:induction false} AtMostOne(q: seq<Event>, e: Event, f: Event, s: nat)
    requires e in q && f in q && e.kind != Admit && f.kind != Admit && e.sess == f.sess == s
    requires Tally(q, OfSession(s)) <= 1
    ensures e == f
  {
    if q[0].kind != Admit && q[0].sess == s {
      NoneOf(q[1..], s);
      assert forall g :: g in q ==> g == q[0] || g in q[1..];
    } else {
      AtMostOne(q[1..], e, f, s);
    }
  }

  /** No server ever prefills two requests at once. */
  lemma PrefillsNeverOverlap(cfg: Config, st: Sim, h: History, queue: seq<Event>, i: nat, j: nat, k: nat)
    requires Inv(cfg, st, h, queue, -1, 0) && i < |st.srv| && |h.prefills| == |st.srv| && j < k < |h.prefills[i]|
    ensures h.prefills[i][k].end <= h.prefills[i][j].begin
  {
    assert EngineOk(st.srv[i], cfg.servers[i], h.prefills[i]);
    SerialNeverOverlaps(h.prefills[i], st.srv[i].prefillFreeAt, j, k);
  }

  /**
   * Little's law for the report: mean concurrency times the run's length is the time
   * requests were open, those in flight at the end up to the end; and the peak bounds it.
   */
  lemma LittlesLaw(cfg: Config, st: Sim, h: History, queue: seq<Event>)
    requires Inv(cfg, st, h, queue, -1, 0)
    ensures var r := Reported(st, h.stalled);
            && (st.now > 0.0 ==> r.meanConcurrency * st.now == Length(h.log) + OpenSecs(queue, h.begun, st.now))
            && |h.log| == r.completed && (st.now > 0.0 ==> r.throughput * st.now == r.completed as real)
            && r.meanConcurrency <= r.maxConcurrency as real
            && (cfg.maxSeries > 0 ==> r.maxConcurrency <= cfg.maxSeries)
            && r.finalSessions <= r.maxSessions && r.finalSessions + r.sessionsRetired == |st.sess|
  {
    hide Places, WindowOk, Engines, OneTick;
    if st.now > 0.0 {
      MeanIsBelow(st.concSecs, st.maxInflight as real, st.now);
    }
  }

  lemma MeanIsBelow(secs: real, peak: real, now: real)
    requires now > 0.0 && secs <= peak * now
    ensures secs / now <= peak && (secs / now) * now == secs
  {
    var mean := secs / now;
    assert mean * now == secs;
    if mean > peak {
      assert (mean - peak) * now > 0.0;
    }
  }

  /** The whole simulation: its report is that of a state every invariant holds of, with
      everything due by the horizon played. The ticks are 0, every, 2*every and so on up to
      the horizon; each admits exactly when there are templates and the gate is open, the
      sessions are the ticks that admitted, and each played its requests as Told says. */
  method RunAdmissionSim(config: Config, workload: seq<seq<Request>>)
    returns (r: SimResult, ghost st: Sim, ghost h: History, ghost cut: seq<Event>, ghost trace: seq<Sim>)
    requires config.servers != []
    requires forall p :: p in config.servers ==> Sane(p)
    requires forall t :: t in workload ==> SaneRequests(t)
    ensures Inv(Defaulted(config), st, h, cut + st.q, -1, 0) && r == Reported(st, h.stalled)
    ensures forall e :: e in cut + st.q ==> e.at > Defaulted(config).horizon
    ensures Told(Defaulted(config), cut + st.q, st.sess, h.calls, st.pending, st.now)
    ensures |st.win.ttfts| == |h.seenAt|
    ensures forall k: nat :: k < |h.ticks| ==> TickOk(Defaulted(config), workload, st.win.ttfts, h.seenAt, h.ticks[k], k)
    ensures |h.ticks| as real * Defaulted(config).admitEvery > Defaulted(config).horizon
    ensures FromTicks(workload, st.sess, AdmitTimes(h.ticks))
    ensures |h.calls| == |st.sess|
    ensures forall s: nat :: s < |st.sess| ==> PlayedOut(Defaulted(config), st.sess[s], h.calls[s], s in st.pending)
    ensures trace != [] && trace[|trace| - 1] == st && Peaks(trace, r.maxSessions, r.maxConcurrency)
    ensures r.meanConcurrency <= r.maxConcurrency as real
    ensures config.maxSeries > 0 ==> r.maxConcurrency <= config.maxSeries
    ensures r.finalSessions <= r.maxSessions
  {
    hide Inv, Tally, Sum, Told, TickOk, FromTicks, AdmitTimes, PlayedOut, Peaks;
    var sim := new AdmissionSim(config, workload);
    r, cut, trace := sim.Run();
    st, h := sim.st, sim.h;
    LittlesLaw(sim.cfg, st, h, cut + st.q);
    AllPlayedOut(sim.cfg, workload, st, h, cut + st.q);
  }
}
