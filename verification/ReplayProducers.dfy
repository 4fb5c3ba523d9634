// The two producers of the session stream (benchmark/replay_router.go): one reads the file
// line by line, the other seeks through its index. Both emit the same stream.

module ReplayProducers {
  import opened Options
  import opened ReplayIndexes
  import opened Sets

  // What a line holds once the newline is trimmed.
  datatype Line = Blank | Index | Garbage | Session(id: nat)

  // The lines after the header; `terminated` if the last of them ends in a newline.
  datatype File = File(lines: seq<Line>, terminated: bool)

  datatype Emitted = Emitted(id: nat, fileIdx: nat, pass: nat)

  // The consumer takes `patience` sessions and then cancels.
  datatype Plan = Plan(limit: int, allowed: Option<set<nat>>, reuse: bool, patience: nat)

  predicate IsSession(l: Line) {
    l.Garbage? || l.Session?
  }

  // The session lines, in file order: a line that does not parse still has its position.
  function Corpus(lines: seq<Line>): seq<Line> {
    if lines == [] then []
    else Corpus(lines[..|lines| - 1]) + (if IsSession(lines[|lines| - 1]) then [lines[|lines| - 1]] else [])
  }

  lemma {:induction false} CorpusOfPrefix(lines: seq<Line>, n: nat)
    requires n <= |lines|
    ensures |Corpus(lines[..n])| <= |Corpus(lines)| && Corpus(lines)[..|Corpus(lines[..n])|] == Corpus(lines[..n])
    decreases |lines|
  {
    if n < |lines| {
      CorpusOfPrefix(lines[..|lines| - 1], n);
      assert lines[..|lines| - 1][..n] == lines[..n];
    } else {
      assert lines[..n] == lines;
    }
  }

  // ---------------------------------------------------------------- the stream

  // The positions a lap emits, among the first `n`.
  function Chosen(corpus: seq<Line>, allowed: Option<set<nat>>, n: nat): seq<nat>
    requires n <= |corpus|
  {
    if n == 0 then []
    else Chosen(corpus, allowed, n - 1) + (if corpus[n - 1].Session? && Allows(allowed, n - 1) then [n - 1] else [])
  }

  lemma {:induction false} ChosenIsPrefix(corpus: seq<Line>, allowed: Option<set<nat>>, m: nat, n: nat)
    requires m <= n <= |corpus|
    ensures var a, b := Chosen(corpus, allowed, m), Chosen(corpus, allowed, n);
            |a| <= |b| && b[..|a|] == a
    decreases n
  {
    if m < n {
      ChosenIsPrefix(corpus, allowed, m, n - 1);
    }
  }

  lemma {:induction false} ChosenAreSessions(corpus: seq<Line>, allowed: Option<set<nat>>, n: nat)
    requires n <= |corpus|
    ensures forall k :: 0 <= k < |Chosen(corpus, allowed, n)| ==>
              var i := Chosen(corpus, allowed, n)[k]; i < n && corpus[i].Session? && Allows(allowed, i)
    ensures forall j, k :: 0 <= j < k < |Chosen(corpus, allowed, n)| ==>
              Chosen(corpus, allowed, n)[j] < Chosen(corpus, allowed, n)[k]
  {
    if n > 0 {
      ChosenAreSessions(corpus, allowed, n - 1);
    }
  }

  /** No session the filter allows is left out of a lap. */
  lemma {:induction false} ChosenAreAll(corpus: seq<Line>, allowed: Option<set<nat>>, n: nat, i: nat)
    requires i < n <= |corpus| && corpus[i].Session? && Allows(allowed, i)
    ensures i in Chosen(corpus, allowed, n)
  {
    if i < n - 1 {
      ChosenAreAll(corpus, allowed, n - 1, i);
    }
  }

  // The k-th session of the endless stream: lap after lap over the chosen positions.
  ghost function Stream(corpus: seq<Line>, allowed: Option<set<nat>>, k: nat): Emitted
    requires Chosen(corpus, allowed, |corpus|) != []
    decreases k
  {
    var a := Chosen(corpus, allowed, |corpus|);
    ChosenAreSessions(corpus, allowed, |corpus|);
    if k < |a| then Emitted(corpus[a[k]].id, a[k], 0)
    else
      var e := Stream(corpus, allowed, k - |a|);
      e.(pass := e.pass + 1)
  }

  // Where lap `pass` of the stream begins.
  function LapBegins(lap: nat, pass: nat): nat {
    if pass == 0 then 0 else LapBegins(lap, pass - 1) + lap
  }

  /** Every lap is the chosen positions in file order, stamped with its number. */
  lemma {:induction false} StreamIsLapByLap(corpus: seq<Line>, allowed: Option<set<nat>>, pass: nat, k: nat)
    requires k < |Chosen(corpus, allowed, |corpus|)|
    ensures var a := Chosen(corpus, allowed, |corpus|);
            && a[k] < |corpus| && corpus[a[k]].Session?
            && Stream(corpus, allowed, LapBegins(|a|, pass) + k) == Emitted(corpus[a[k]].id, a[k], pass)
  {
    var a := Chosen(corpus, allowed, |corpus|);
    ChosenAreSessions(corpus, allowed, |corpus|);
    if pass > 0 {
      StreamIsLapByLap(corpus, allowed, pass - 1, k);
      assert LapBegins(|a|, pass) + k - |a| == LapBegins(|a|, pass - 1) + k;
    }
  }

  // How many of the stream's sessions come out: as many as are wanted if the laps go on,
  // else one lap at most.
  ghost function Wanted(o: Plan): nat {
    if o.limit > 0 && o.limit < o.patience then o.limit else o.patience
  }

  /** The length is the largest that the consumer, the session limit and, without another
      lap, the lap allow. */
  lemma OutputIsAllAllowed(corpus: seq<Line>, o: Plan, laps: bool)
    ensures var n, lap := OutputLength(corpus, o, laps), |Chosen(corpus, o.allowed, |corpus|)|;
            && n <= o.patience && (o.limit > 0 ==> n <= o.limit) && (!laps || lap == 0 ==> n <= lap)
            && (n == o.patience || (o.limit > 0 && n == o.limit) || ((!laps || lap == 0) && n == lap))
  {
  }

  ghost predicate IsStream(corpus: seq<Line>, o: Plan, out: seq<Emitted>) {
    forall k :: 0 <= k < |out| ==>
      Chosen(corpus, o.allowed, |corpus|) != [] && out[k] == Stream(corpus, o.allowed, k)
  }

  ghost function OutputLength(corpus: seq<Line>, o: Plan, laps: bool): nat {
    var lap := |Chosen(corpus, o.allowed, |corpus|)|;
    if lap == 0 then 0 else if laps || Wanted(o) < lap then Wanted(o) else lap
  }

  // ---------------------------------------------------------------- the lap invariant

  // `out` is every earlier lap and the first `inLap` sessions of lap `pass`.
  ghost predicate At(corpus: seq<Line>, o: Plan, out: seq<Emitted>, pass: nat, inLap: nat) {
    var a := Chosen(corpus, o.allowed, |corpus|);
    && inLap <= |a| && inLap <= |out|
    && IsStream(corpus, o, out)
    && StartsLap(corpus, o, |out| - inLap, pass)
  }

  ghost predicate StartsLap(corpus: seq<Line>, o: Plan, base: nat, pass: nat) {
    forall k: nat :: k < |Chosen(corpus, o.allowed, |corpus|)| ==> LapStarts(corpus, o, base, pass, k)
  }

  ghost predicate LapStarts(corpus: seq<Line>, o: Plan, base: nat, pass: nat, k: nat)
    requires k < |Chosen(corpus, o.allowed, |corpus|)|
  {
    var a := Chosen(corpus, o.allowed, |corpus|);
    ChosenAreSessions(corpus, o.allowed, |corpus|);
    Stream(corpus, o.allowed, base + k) == Emitted(corpus[a[k]].id, a[k], pass)
  }

  lemma Begin(corpus: seq<Line>, o: Plan)
    ensures At(corpus, o, [], 0, 0)
  {
    ChosenAreSessions(corpus, o.allowed, |corpus|);
  }

  lemma Emit(corpus: seq<Line>, o: Plan, out: seq<Emitted>, pass: nat, inLap: nat, i: nat)
    requires At(corpus, o, out, pass, inLap) && i < |corpus|
    requires |Chosen(corpus, o.allowed, i)| == inLap && corpus[i].Session? && Allows(o.allowed, i)
    ensures At(corpus, o, out + [Emitted(corpus[i].id, i, pass)], pass, inLap + 1)
    ensures |Chosen(corpus, o.allowed, i + 1)| == inLap + 1
  {
    var a := Chosen(corpus, o.allowed, |corpus|);
    ChosenIsPrefix(corpus, o.allowed, i + 1, |corpus|);
    assert Chosen(corpus, o.allowed, i + 1)[inLap] == i;
    assert a[inLap] == i;
    assert LapStarts(corpus, o, |out| - inLap, pass, inLap);
  }

  lemma NextLap(corpus: seq<Line>, o: Plan, out: seq<Emitted>, pass: nat, inLap: nat)
    requires At(corpus, o, out, pass, inLap) && inLap == |Chosen(corpus, o.allowed, |corpus|)|
    ensures At(corpus, o, out, pass + 1, 0)
  {
    var a := Chosen(corpus, o.allowed, |corpus|);
    LapAfter(corpus, o, |out| - inLap, pass);
  }

  lemma LapAfter(corpus: seq<Line>, o: Plan, base: nat, pass: nat)
    requires StartsLap(corpus, o, base, pass)
    ensures StartsLap(corpus, o, base + |Chosen(corpus, o.allowed, |corpus|)|, pass + 1)
  {
    var a := Chosen(corpus, o.allowed, |corpus|);
    var next, later := base + |a|, pass + 1;
    forall k: nat | k < |a| ensures LapStarts(corpus, o, next, later, k) {
      assert LapStarts(corpus, o, base, pass, k);
      assert next + k - |a| == base + k;
    }
  }

  // ---------------------------------------------------------------- the indexed producer

  /** The index lists every session line and its id; each lap takes the whole corpus. */
  method ProduceIndexed(corpus: seq<Line>, ids: seq<nat>, o: Plan) returns (out: seq<Emitted>)
    requires |ids| == |corpus| && forall i :: 0 <= i < |ids| ==> corpus[i].Session? ==> corpus[i].id == ids[i]
    requires forall l :: l in corpus ==> IsSession(l)
    ensures IsStream(corpus, o, out) && |out| == OutputLength(corpus, o, o.reuse)
  {
    out := [];
    var pass: nat := 0;
    var k: nat := 0;
    ghost var whole := |Chosen(corpus, o.allowed, |corpus|)|;
    Begin(corpus, o);
    while true
      invariant At(corpus, o, out, pass, 0) && |out| <= Wanted(o)
      invariant k > 0 ==> o.reuse && (whole > 0 ==> |out| >= whole)
      invariant whole == 0 || k == 0 ==> out == []
      decreases Wanted(o) - |out|, if k == 0 then 1 else 0
    {
      var thisPass, done;
      out, thisPass, done := ProduceLap(corpus, ids, o, out, pass, k);
      if done || !o.reuse {
        return;
      }
      if thisPass == 0 && k > 0 {
        return;
      }
      NextLap(corpus, o, out, pass, thisPass);
      if thisPass > 0 {
        pass := pass + 1;
      }
      k := k + 1;
    }
  }

  method ProduceLap(corpus: seq<Line>, ids: seq<nat>, o: Plan, out0: seq<Emitted>, pass: nat, k: nat)
    returns (out: seq<Emitted>, thisPass: nat, done: bool)
    requires |ids| == |corpus| && forall i :: 0 <= i < |ids| ==> corpus[i].Session? ==> corpus[i].id == ids[i]
    requires forall l :: l in corpus ==> IsSession(l)
    requires At(corpus, o, out0, pass, 0) && |out0| <= Wanted(o)
    ensures At(corpus, o, out, pass, thisPass) && |out| == |out0| + thisPass <= Wanted(o)
    ensures if done then |out| == Wanted(o) else thisPass == |Chosen(corpus, o.allowed, |corpus|)|
  {
    hide At, Chosen, IsLapOrder, Reached, Ascending;
    out, thisPass, done := out0, 0, false;
    var order := Lap(Laps(|corpus|, Beginning, 0, o.allowed), k, []);
    OrderOfLap(corpus, o.allowed);
    ReachedNone(corpus, o.allowed, order);
    for j := 0 to |order|
      invariant At(corpus, o, out, pass, thisPass) && |out| == |out0| + thisPass <= Wanted(o)
      invariant thisPass == Reached(corpus, o.allowed, order, j)
    {
      if |out| >= o.patience || (o.limit > 0 && |out| >= o.limit) {
        done := true;
        return;
      }
      var i := order[j];
      ReachedNext(corpus, o.allowed, order, j);
      match corpus[i]
      case Session(id) =>
        if id != ids[i] {
          return;
        }
        Emit(corpus, o, out, pass, thisPass, i);
        thisPass := thisPass + 1;
        out := out + [Emitted(id, i, pass)];
      case _ =>
    }
    ReachedAll(corpus, o.allowed, order);
  }

  ghost predicate IsLapOrder(corpus: seq<Line>, allowed: Option<set<nat>>, order: seq<nat>) {
    && (forall j :: 0 <= j < |order| ==> order[j] < |corpus| && Allows(allowed, order[j]))
    && (forall i, j :: 0 <= i < j < |order| ==> order[i] < order[j])
    && (forall i: nat :: i < |corpus| && Allows(allowed, i) ==> i in order)
  }

  lemma {:induction false} AscendingFacts(allowed: Option<set<nat>>, n: nat)
    ensures var order := Ascending(allowed, 0, n);
            && (forall j :: 0 <= j < |order| ==> order[j] < n && Allows(allowed, order[j]))
            && (forall i, j :: 0 <= i < j < |order| ==> order[i] < order[j])
            && (forall i: nat :: i < n && Allows(allowed, i) ==> i in order)
  {
    if n > 0 {
      AscendingFacts(allowed, n - 1);
    }
  }

  lemma OrderOfLap(corpus: seq<Line>, allowed: Option<set<nat>>)
    ensures IsLapOrder(corpus, allowed, Ascending(allowed, 0, |corpus|))
  {
    AscendingFacts(allowed, |corpus|);
  }

  // Sessions emitted once the lap has passed its first j positions.
  ghost function Reached(corpus: seq<Line>, allowed: Option<set<nat>>, order: seq<nat>, j: nat): nat
    requires IsLapOrder(corpus, allowed, order) && j <= |order|
  {
    |Chosen(corpus, allowed, if j == 0 then 0 else order[j - 1] + 1)|
  }

  lemma ReachedNone(corpus: seq<Line>, allowed: Option<set<nat>>, order: seq<nat>)
    requires IsLapOrder(corpus, allowed, order)
    ensures Reached(corpus, allowed, order, 0) == 0
  {
  }

  lemma {:induction false} SameChosen(corpus: seq<Line>, allowed: Option<set<nat>>, m: nat, n: nat)
    requires m <= n <= |corpus| && forall i: nat :: m <= i < n ==> !Allows(allowed, i)
    ensures Chosen(corpus, allowed, n) == Chosen(corpus, allowed, m)
    decreases n
  {
    if m < n {
      SameChosen(corpus, allowed, m, n - 1);
    }
  }

  lemma ReachedNext(corpus: seq<Line>, allowed: Option<set<nat>>, order: seq<nat>, j: nat)
    requires IsLapOrder(corpus, allowed, order) && j < |order|
    ensures order[j] < |corpus| && Allows(allowed, order[j])
    ensures |Chosen(corpus, allowed, order[j])| == Reached(corpus, allowed, order, j)
    ensures Reached(corpus, allowed, order, j + 1)
         == Reached(corpus, allowed, order, j) + if corpus[order[j]].Session? then 1 else 0
  {
    var from := if j == 0 then 0 else order[j - 1] + 1;
    forall i: nat | from <= i < order[j] ensures i !in order {
      assert forall p :: 0 <= p < |order| ==> if p < j then order[p] < from else order[p] >= order[j];
    }
    SameChosen(corpus, allowed, from, order[j]);
  }

  lemma ReachedAll(corpus: seq<Line>, allowed: Option<set<nat>>, order: seq<nat>)
    requires IsLapOrder(corpus, allowed, order)
    ensures |Chosen(corpus, allowed, |corpus|)| == Reached(corpus, allowed, order, |order|)
  {
    var from := if order == [] then 0 else order[|order| - 1] + 1;
    forall i: nat | from <= i < |corpus| ensures i !in order {
      assert forall p :: 0 <= p < |order| ==> order[p] < from;
    }
    SameChosen(corpus, allowed, from, |corpus|);
  }

  // ---------------------------------------------------------------- the line reader

  // The reader is past `pos` lines, `lineIdx` of them sessions, `thisPass` of those emitted.
  ghost predicate Walk(lines: seq<Line>, allowed: Option<set<nat>>, pos: nat, lineIdx: nat, thisPass: nat) {
    && pos <= |lines|
    && lineIdx == |Corpus(lines[..pos])| <= |Corpus(lines)|
    && thisPass == |Chosen(Corpus(lines), allowed, lineIdx)|
  }

  lemma WalkBegins(lines: seq<Line>, allowed: Option<set<nat>>)
    ensures Walk(lines, allowed, 0, 0, 0)
  {
    assert lines[..0] == [];
  }

  lemma WalkEnds(lines: seq<Line>, allowed: Option<set<nat>>, pos: nat, lineIdx: nat, thisPass: nat)
    requires Walk(lines, allowed, pos, lineIdx, thisPass) && pos == |lines|
    ensures thisPass == |Chosen(Corpus(lines), allowed, |Corpus(lines)|)|
  {
    assert lines[..pos] == lines;
  }

  lemma WalkSkips(lines: seq<Line>, allowed: Option<set<nat>>, pos: nat, lineIdx: nat, thisPass: nat)
    requires Walk(lines, allowed, pos, lineIdx, thisPass) && pos < |lines| && !IsSession(lines[pos])
    ensures Walk(lines, allowed, pos + 1, lineIdx, thisPass)
  {
    assert lines[..pos + 1][..pos] == lines[..pos];
  }

  lemma WalkReads(lines: seq<Line>, allowed: Option<set<nat>>, pos: nat, lineIdx: nat, thisPass: nat)
    requires Walk(lines, allowed, pos, lineIdx, thisPass) && pos < |lines| && IsSession(lines[pos])
    ensures lineIdx < |Corpus(lines)| && Corpus(lines)[lineIdx] == lines[pos]
    ensures var chosen := lines[pos].Session? && Allows(allowed, lineIdx);
            Walk(lines, allowed, pos + 1, lineIdx + 1, if chosen then thisPass + 1 else thisPass)
  {
    assert lines[..pos + 1][..pos] == lines[..pos];
    CorpusOfPrefix(lines, pos + 1);
    assert Corpus(lines[..pos + 1])[lineIdx] == lines[pos];
    assert Corpus(lines)[..lineIdx + 1][lineIdx] == lines[pos];
  }

  function Below(allowed: set<nat>, n: nat): set<nat> {
    set i | i in allowed && i < n
  }

  lemma {:induction false} ChosenFitsBelow(corpus: seq<Line>, allowed: set<nat>, n: nat)
    requires n <= |corpus|
    ensures |Chosen(corpus, Some(allowed), n)| <= |Below(allowed, n)|
  {
    if n > 0 {
      ChosenFitsBelow(corpus, allowed, n - 1);
      assert Below(allowed, n) == Below(allowed, n - 1) + (if n - 1 in allowed then {n - 1} else {});
    }
  }

  /** No lap emits more sessions than are allowed. */
  lemma ChosenFits(corpus: seq<Line>, allowed: set<nat>)
    ensures |Chosen(corpus, Some(allowed), |corpus|)| <= |allowed|
  {
    ChosenFitsBelow(corpus, allowed, |corpus|);
    SubsetSize(Below(allowed, |corpus|), allowed);
  }

  lemma ChosenSoFar(corpus: seq<Line>, allowed: Option<set<nat>>, n: nat)
    requires n <= |corpus|
    ensures |Chosen(corpus, allowed, n)| <= |Chosen(corpus, allowed, |corpus|)|
  {
    ChosenIsPrefix(corpus, allowed, n, |corpus|);
  }

  /**
   * The one way the laps can stop short: the last line has no newline and is filtered out,
   * and the filter names a session the file does not have. Then the reader returns from
   * the filter instead of starting another lap.
   */
  ghost predicate StopsShort(file: File, o: Plan) {
    && !file.terminated && file.lines != [] && IsSession(file.lines[|file.lines| - 1])
    && o.allowed.Some? && |Corpus(file.lines)| - 1 !in o.allowed.value
    && |Chosen(Corpus(file.lines), o.allowed, |Corpus(file.lines)|)| < |o.allowed.value|
  }

  // advancePass: whether there is another lap.
  predicate Advances(o: Plan, emitted: nat) {
    o.reuse && emitted > 0
  }

  // Between two reads.
  ghost predicate Reading(file: File, o: Plan, out: seq<Emitted>, pos: nat, lineIdx: nat, thisPass: nat, pass: nat) {
    && At(Corpus(file.lines), o, out, pass, thisPass) && |out| <= Wanted(o)
    && Walk(file.lines, o.allowed, pos, lineIdx, thisPass)
    && (pass == 0 ==> |out| == thisPass)
    && (pass > 0 ==> o.reuse && !StopsShort(file, o) && |out| >= |Chosen(Corpus(file.lines), o.allowed, |Corpus(file.lines)|)| > 0)
  }

  // The stream is over, for the right reason.
  ghost predicate Complete(file: File, o: Plan, out: seq<Emitted>) {
    var corpus := Corpus(file.lines);
    IsStream(corpus, o, out) && |out| == OutputLength(corpus, o, o.reuse && !StopsShort(file, o))
  }

  lemma EnoughIsComplete(file: File, o: Plan, out: seq<Emitted>, pos: nat, lineIdx: nat, thisPass: nat, pass: nat)
    requires Reading(file, o, out, pos, lineIdx, thisPass, pass) && |out| == Wanted(o)
    ensures Complete(file, o, out)
  {
    ChosenSoFar(Corpus(file.lines), o.allowed, lineIdx);
  }

  lemma LastLapIsComplete(file: File, o: Plan, out: seq<Emitted>, pos: nat, lineIdx: nat, thisPass: nat, pass: nat)
    requires Reading(file, o, out, pos, lineIdx, thisPass, pass)
    requires thisPass == |Chosen(Corpus(file.lines), o.allowed, |Corpus(file.lines)|)|
    requires !Advances(o, thisPass) || StopsShort(file, o)
    ensures Complete(file, o, out)
  {
  }

  lemma NextLapReads(file: File, o: Plan, out: seq<Emitted>, pos: nat, lineIdx: nat, thisPass: nat, pass: nat)
    requires Reading(file, o, out, pos, lineIdx, thisPass, pass) && Advances(o, thisPass) && !StopsShort(file, o)
    requires thisPass == |Chosen(Corpus(file.lines), o.allowed, |Corpus(file.lines)|)|
    ensures Reading(file, o, out, 0, 0, 0, pass + 1)
  {
    NextLap(Corpus(file.lines), o, out, pass, thisPass);
    WalkBegins(file.lines, o.allowed);
  }

  // With the filter's last session emitted, the lap is over; that never happens to a file
  // whose laps stop short.
  lemma FilterExhausted(file: File, o: Plan, out: seq<Emitted>, pos: nat, lineIdx: nat, thisPass: nat, pass: nat)
    requires Reading(file, o, out, pos, lineIdx, thisPass, pass) && o.allowed.Some? && thisPass >= |o.allowed.value|
    ensures thisPass == |Chosen(Corpus(file.lines), o.allowed, |Corpus(file.lines)|)| && !StopsShort(file, o)
  {
    ChosenFits(Corpus(file.lines), o.allowed.value);
    ChosenSoFar(Corpus(file.lines), o.allowed, lineIdx);
  }

  predicate AtEof(file: File, pos: nat) {
    pos >= |file.lines| || (pos == |file.lines| - 1 && !file.terminated)
  }

  // A line that does not belong to the lap leaves everything but the position as it was.
  lemma PassedOver(file: File, o: Plan, out: seq<Emitted>, pos: nat, lineIdx: nat, thisPass: nat, pass: nat)
    requires Reading(file, o, out, pos, lineIdx, thisPass, pass) && pos < |file.lines|
    requires !(file.lines[pos].Session? && Allows(o.allowed, lineIdx))
    ensures Reading(file, o, out, pos + 1, if IsSession(file.lines[pos]) then lineIdx + 1 else lineIdx, thisPass, pass)
  {
    hide At, StopsShort, Walk, Chosen, Corpus;
    if IsSession(file.lines[pos]) {
      WalkReads(file.lines, o.allowed, pos, lineIdx, thisPass);
    } else {
      WalkSkips(file.lines, o.allowed, pos, lineIdx, thisPass);
    }
  }

  lemma SentOn(file: File, o: Plan, out: seq<Emitted>, pos: nat, lineIdx: nat, thisPass: nat, pass: nat)
    requires Reading(file, o, out, pos, lineIdx, thisPass, pass) && pos < |file.lines| && |out| < Wanted(o)
    requires file.lines[pos].Session? && Allows(o.allowed, lineIdx)
    ensures Reading(file, o, out + [Emitted(file.lines[pos].id, lineIdx, pass)], pos + 1, lineIdx + 1, thisPass + 1, pass)
  {
    hide At, StopsShort, Walk, Chosen, Corpus, Allows;
    WalkReads(file.lines, o.allowed, pos, lineIdx, thisPass);
    WalkCounts(file.lines, o.allowed, pos, lineIdx, thisPass);
    Emit(Corpus(file.lines), o, out, pass, thisPass, lineIdx);
  }

  lemma WalkCounts(lines: seq<Line>, allowed: Option<set<nat>>, pos: nat, lineIdx: nat, thisPass: nat)
    requires Walk(lines, allowed, pos, lineIdx, thisPass)
    ensures thisPass == |Chosen(Corpus(lines), allowed, lineIdx)|
  {
  }

  // A filtered last line without a newline: the laps stop short, unless they have stopped
  // for another reason.
  lemma FilteredAtEof(file: File, o: Plan, out: seq<Emitted>, pos: nat, lineIdx: nat, thisPass: nat, pass: nat)
    requires Reading(file, o, out, pos, lineIdx, thisPass, pass) && pos < |file.lines| && AtEof(file, pos)
    requires IsSession(file.lines[pos]) && o.allowed.Some? && lineIdx !in o.allowed.value && thisPass < |o.allowed.value|
    ensures StopsShort(file, o) && thisPass == |Chosen(Corpus(file.lines), o.allowed, |Corpus(file.lines)|)|
  {
    WalkReads(file.lines, o.allowed, pos, lineIdx, thisPass);
    WalkEnds(file.lines, o.allowed, pos + 1, lineIdx + 1, thisPass);
    assert file.lines[..pos + 1] == file.lines;
  }

  // The reader meets the end any other way only in a file whose laps go on.
  lemma EofMeansMore(file: File, o: Plan, pos: nat, lineIdx: nat, thisPass: nat)
    requires pos <= |file.lines| && AtEof(file, pos) && Walk(file.lines, o.allowed, pos, lineIdx, thisPass)
    requires pos == |file.lines| ==> file.terminated || file.lines == []
    requires pos < |file.lines| && IsSession(file.lines[pos]) ==> Allows(o.allowed, lineIdx)
    ensures !StopsShort(file, o)
  {
    if pos < |file.lines| && IsSession(file.lines[pos]) {
      WalkReads(file.lines, o.allowed, pos, lineIdx, thisPass);
      assert file.lines[..pos + 1] == file.lines;
    }
  }

  /** The line-by-line producer. */
  method Produce(file: File, o: Plan) returns (out: seq<Emitted>)
    ensures Complete(file, o, out)
  {
    hide Reading, Complete, StopsShort, Walk;
    out := [];
    var pos: nat, lineIdx: nat, thisPass: nat, pass: nat := 0, 0, 0, 0;
    FirstRead(file, o);
    while true
      invariant Reading(file, o, out, pos, lineIdx, thisPass, pass) && |out| <= Wanted(o) && pos <= |file.lines|
      invariant pos == |file.lines| ==> file.terminated || file.lines == []
      decreases Wanted(o) - |out|, (if thisPass > 0 then |file.lines| + 2 else 0) + |file.lines| - pos
    {
      if |out| >= o.patience || (o.limit > 0 && |out| >= o.limit) {
        EnoughIsComplete(file, o, out, pos, lineIdx, thisPass, pass);
        return;
      }
      if o.allowed.Some? && thisPass >= |o.allowed.value| {
        FilterExhausted(file, o, out, pos, lineIdx, thisPass, pass);
        if !Advances(o, thisPass) {
          LastLapIsComplete(file, o, out, pos, lineIdx, thisPass, pass);
          return;
        }
        NextLapReads(file, o, out, pos, lineIdx, thisPass, pass);
        pos, lineIdx, thisPass, pass := 0, 0, 0, pass + 1;
        continue;
      }
      var eof := AtEof(file, pos);
      ghost var more := !StopsShort(file, o);
      if pos < |file.lines| {
        var line := file.lines[pos];
        if IsSession(line) && !Allows(o.allowed, lineIdx) {
          if eof {
            FilteredAtEof(file, o, out, pos, lineIdx, thisPass, pass);
            LastLapIsComplete(file, o, out, pos, lineIdx, thisPass, pass);
            return;
          }
          PassedOver(file, o, out, pos, lineIdx, thisPass, pass);
          pos, lineIdx := pos + 1, lineIdx + 1;
          continue;
        }
        if eof {
          ReadingWalks(file, o, out, pos, lineIdx, thisPass, pass);
          EofMeansMore(file, o, pos, lineIdx, thisPass);
        }
        if line.Session? {
          SentOn(file, o, out, pos, lineIdx, thisPass, pass);
          out := out + [Emitted(line.id, lineIdx, pass)];
          thisPass := thisPass + 1;
        } else {
          PassedOver(file, o, out, pos, lineIdx, thisPass, pass);
        }
        pos, lineIdx := pos + 1, if IsSession(line) then lineIdx + 1 else lineIdx;
      } else {
        ReadingWalks(file, o, out, pos, lineIdx, thisPass, pass);
        EofMeansMore(file, o, pos, lineIdx, thisPass);
      }
      if eof {
        ReadingWalks(file, o, out, pos, lineIdx, thisPass, pass);
        WalkEnds(file.lines, o.allowed, pos, lineIdx, thisPass);
        if !Advances(o, thisPass) {
          LastLapIsComplete(file, o, out, pos, lineIdx, thisPass, pass);
          return;
        }
        NextLapReads(file, o, out, pos, lineIdx, thisPass, pass);
        pos, lineIdx, thisPass, pass := 0, 0, 0, pass + 1;
      }
    }
  }

  lemma FirstRead(file: File, o: Plan)
    ensures Reading(file, o, [], 0, 0, 0, 0)
  {
    Begin(Corpus(file.lines), o);
    WalkBegins(file.lines, o.allowed);
  }

  lemma ReadingWalks(file: File, o: Plan, out: seq<Emitted>, pos: nat, lineIdx: nat, thisPass: nat, pass: nat)
    requires Reading(file, o, out, pos, lineIdx, thisPass, pass)
    ensures Walk(file.lines, o.allowed, pos, lineIdx, thisPass)
  {
  }

  // ---------------------------------------------------------------- agreement

  lemma StreamIsDetermined(corpus: seq<Line>, o: Plan, a: seq<Emitted>, b: seq<Emitted>)
    requires IsStream(corpus, o, a) && IsStream(corpus, o, b) && |a| <= |b|
    ensures a == b[..|a|]
  {
  }

  /**
   * The two producers emit the same stream for every filter, limit, reuse setting and
   * consumer, exactly unless a second lap is wanted of a file whose laps stop short; a
   * file that ends in a newline never is one.
   */
  lemma ProducersAgree(file: File, o: Plan, byLine: seq<Emitted>, byIndex: seq<Emitted>)
    requires Complete(file, o, byLine)
    requires IsStream(Corpus(file.lines), o, byIndex) && |byIndex| == OutputLength(Corpus(file.lines), o, o.reuse)
    ensures var lap := |Chosen(Corpus(file.lines), o.allowed, |Corpus(file.lines)|)|;
            byLine == byIndex <==> !(StopsShort(file, o) && o.reuse && 0 < lap < Wanted(o))
    ensures file.terminated ==> byLine == byIndex
    ensures |byLine| <= |byIndex| && byLine == byIndex[..|byLine|]
  {
    StreamIsDetermined(Corpus(file.lines), o, byLine, byIndex);
  }

  /** A file that does stop short: its last session is filtered out and the filter also
      names a session past the end. */
  lemma StopsShortOnce(a: nat, b: nat, reuse: bool, patience: nat, past: nat)
    requires past >= 2
    ensures StopsShort(File([Session(a), Session(b)], false), Plan(0, Some({0, past}), reuse, patience))
  {
    var lines := [Session(a), Session(b)];
    var allowed: Option<set<nat>> := Some({0, past});
    assert lines[..1] == [Session(a)] && [Session(a)][..0] == [];
    assert Corpus([Session(a)]) == [Session(a)];
    assert Corpus(lines) == lines;
    assert Chosen(lines, allowed, 1) == [0];
    assert |{0, past}| == 2;
  }
}
