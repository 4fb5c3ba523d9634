// Finding the index at the end of a replay file, and the order each lap over the corpus
// takes (benchmark/replay_index.go).

module ReplayIndexes {
  import opened Options

  // ---------------------------------------------------------------- the trailer

  function TrimRight(s: string): string {
    if s != [] && s[|s| - 1] == '\n' then TrimRight(s[..|s| - 1]) else s
  }

  // The index of the last newline, -1 if there is none.
  function LastNewline(s: string): (n: int)
    ensures -1 <= n < |s|
    ensures n >= 0 ==> s[n] == '\n'
    ensures forall i :: n < i < |s| ==> s[i] != '\n'
  {
    if s == [] then -1
    else if s[|s| - 1] == '\n' then |s| - 1
    else LastNewline(s[..|s| - 1])
  }

  // The last line with anything on it.
  function LastLine(file: string): string {
    var body := TrimRight(file);
    body[LastNewline(body) + 1..]
  }

  const MARKER := "{\"_schema\":\"replay-index-v1\""

  predicate IsIndexLine(line: string) {
    |MARKER| <= |line| && line[..|MARKER|] == MARKER
  }

  lemma {:induction false} TrimRightOfTail(a: string, b: string)
    ensures TrimRight(b) != [] ==> TrimRight(a + b) == a + TrimRight(b)
    ensures |TrimRight(b)| <= |b| && b[..|TrimRight(b)|] == TrimRight(b)
  {
    var s := a + b;
    if b != [] && b[|b| - 1] == '\n' {
      TrimRightOfTail(a, b[..|b| - 1]);
      assert s[..|s| - 1] == a + b[..|b| - 1];
    }
  }

  lemma {:induction false} LastLineOfTail(a: string, b: string)
    requires LastNewline(TrimRight(b)) >= 0
    ensures LastLine(a + b) == LastLine(b)
  {
    hide TrimRight, LastNewline;
    TrimRightOfTail(a, b);
    var body := TrimRight(b);
    assert body != [];
    LastNewlineOfTail(a, body);
    assert TrimRight(a + b) == a + body;
  }

  lemma {:induction false} LastNewlineOfTail(a: string, body: string)
    requires LastNewline(body) >= 0
    ensures LastNewline(a + body) == |a| + LastNewline(body)
    ensures (a + body)[LastNewline(a + body) + 1..] == body[LastNewline(body) + 1..]
  {
    hide LastNewline;
    var n, m := LastNewline(body), LastNewline(a + body);
    assert (a + body)[|a| + n] == body[n];
    forall i | |a| + n < i < |a + body| ensures (a + body)[i] != '\n' {
      assert (a + body)[i] == body[i - |a|];
    }
  }

  // A window that holds a newline before its last line, or the whole file, decides it.
  lemma LineOfWindow(file: string, window: nat)
    requires window <= |file|
    requires LastNewline(TrimRight(file[|file| - window..])) >= 0 || window == |file|
    ensures var body := TrimRight(file[|file| - window..]);
            LastLine(file) == body[LastNewline(body) + 1..]
  {
    hide TrimRight, LastNewline;
    var buf := file[|file| - window..];
    assert file == file[..|file| - window] + buf;
    if LastNewline(TrimRight(buf)) >= 0 {
      LastLineOfTail(file[..|file| - window], buf);
    } else {
      assert buf == file;
    }
  }

  /**
   * The tail search: the last line of the file, if it is an index, however small the first
   * window is.
   */
  method ReadReplayIndex(file: string, initialRead: nat) returns (index: Option<string>)
    requires initialRead >= 1
    ensures index == if IsIndexLine(LastLine(file)) then Some(LastLine(file)) else None
  {
    hide TrimRight, LastNewline, IsIndexLine, LastLine;
    var size := |file|;
    var window := initialRead;
    while true
      invariant window >= 1
      decreases 2 * size - window
    {
      if window > size {
        window := size;
      }
      var buf := file[size - window..];
      var body := TrimRight(buf);
      var nl := LastNewline(body);
      if nl < 0 && window < size {
        window := window * 2;
        continue;
      }
      LineOfWindow(file, window);
      var last := body[nl + 1..];
      return if IsIndexLine(last) then Some(last) else None;
    }
  }

  // ---------------------------------------------------------------- laps

  datatype Strategy = LastWeek | Beginning | Reverse | Random

  datatype Laps = Laps(n: nat, strategy: Strategy, first: nat, allowed: Option<set<nat>>)

  predicate Allows(allowed: Option<set<nat>>, i: nat) {
    allowed.None? || i in allowed.value
  }

  // The indices from lo up to hi, the allowed ones.
  function Ascending(allowed: Option<set<nat>>, lo: nat, hi: nat): seq<nat> {
    if hi <= lo then [] else Ascending(allowed, lo, hi - 1) + (if Allows(allowed, hi - 1) then [hi - 1] else [])
  }

  function Reversed(s: seq<nat>): seq<nat> {
    if s == [] then [] else [s[|s| - 1]] + Reversed(s[..|s| - 1])
  }

  function Filtered(allowed: Option<set<nat>>, s: seq<nat>): seq<nat> {
    if s == [] then [] else Filtered(allowed, s[..|s| - 1]) + (if Allows(allowed, s[|s| - 1]) then [s[|s| - 1]] else [])
  }

  ghost predicate IsPermutation(perm: seq<nat>, n: nat) {
    forall i: nat :: multiset(perm)[i] == if i < n then 1 else 0
  }

  function LapOrder(l: Laps, k: nat, perm: seq<nat>): seq<nat> {
    match l.strategy
    case Random => Filtered(l.allowed, perm)
    case Reverse => Reversed(Ascending(l.allowed, 0, if k == 0 && l.n > 0 then l.first + 1 else l.n))
    case _ => Ascending(l.allowed, if k == 0 then l.first else 0, l.n)
  }

  /** One lap; for the random strategy, over whatever permutation was drawn for it. */
  method Lap(l: Laps, k: nat, perm: seq<nat>) returns (out: seq<nat>)
    requires l.first < l.n || l.n == 0
    ensures out == LapOrder(l, k, perm)
  {
    match l.strategy
    case Random =>
      out := Visit(l.allowed, perm);
    case Reverse =>
      var start := l.n - 1;
      if k == 0 && l.n > 0 {
        start := l.first;
      }
      out := CountDown(l.allowed, start);
    case _ =>
      var start := 0;
      if k == 0 {
        start := l.first;
      }
      out := CountUp(l.allowed, start, l.n);
  }

  method Visit(allowed: Option<set<nat>>, perm: seq<nat>) returns (out: seq<nat>)
    ensures out == Filtered(allowed, perm)
  {
    out := [];
    for j := 0 to |perm|
      invariant out == Filtered(allowed, perm[..j])
    {
      assert perm[..j + 1][..j] == perm[..j];
      if Allows(allowed, perm[j]) {
        out := out + [perm[j]];
      }
    }
    assert perm[..|perm|] == perm;
  }

  method CountDown(allowed: Option<set<nat>>, start: int) returns (out: seq<nat>)
    requires start >= -1
    ensures out == Reversed(Ascending(allowed, 0, start + 1))
  {
    out := [];
    var i := start;
    while i >= 0
      invariant -1 <= i <= start
      invariant out + Reversed(Ascending(allowed, 0, i + 1)) == Reversed(Ascending(allowed, 0, start + 1))
    {
      ghost var below := Ascending(allowed, 0, i);
      if Allows(allowed, i) {
        assert (below + [i])[..|below|] == below;
        out := out + [i];
      } else {
        assert below + [] == below;
      }
      i := i - 1;
    }
  }

  method CountUp(allowed: Option<set<nat>>, start: nat, n: nat) returns (out: seq<nat>)
    ensures out == Ascending(allowed, start, n)
  {
    out := [];
    var i := start;
    while i < n
      invariant start <= i && (i <= n || i == start)
      invariant out == Ascending(allowed, start, i)
    {
      if Allows(allowed, i) {
        out := out + [i];
      }
      i := i + 1;
    }
  }

  lemma {:induction false} AscendingCounts(allowed: Option<set<nat>>, lo: nat, hi: nat, i: nat)
    ensures multiset(Ascending(allowed, lo, hi))[i] == if lo <= i < hi && Allows(allowed, i) then 1 else 0
  {
    if lo < hi {
      AscendingCounts(allowed, lo, hi - 1, i);
      var before, more := Ascending(allowed, lo, hi - 1), if Allows(allowed, hi - 1) then [hi - 1] else [];
      assert multiset(before + more) == multiset(before) + multiset(more);
    }
  }

  lemma {:induction false} ReversedCounts(s: seq<nat>, i: nat)
    ensures multiset(Reversed(s))[i] == multiset(s)[i]
  {
    if s != [] {
      ReversedCounts(s[..|s| - 1], i);
      assert s == s[..|s| - 1] + [s[|s| - 1]];
    }
  }

  lemma {:induction false} FilteredCounts(allowed: Option<set<nat>>, s: seq<nat>, i: nat)
    ensures multiset(Filtered(allowed, s))[i] == if Allows(allowed, i) then multiset(s)[i] else 0
  {
    if s != [] {
      FilteredCounts(allowed, s[..|s| - 1], i);
      assert s == s[..|s| - 1] + [s[|s| - 1]];
    }
  }

  /** Every lap after the first, and every random one, visits each allowed session exactly once. */
  lemma LapsAreWhole(l: Laps, k: nat, perm: seq<nat>, i: nat)
    requires k > 0 || l.strategy == Random
    requires l.strategy == Random ==> IsPermutation(perm, l.n)
    ensures multiset(LapOrder(l, k, perm))[i] == if i < l.n && Allows(l.allowed, i) then 1 else 0
  {
    AscendingCounts(l.allowed, 0, l.n, i);
    ReversedCounts(Ascending(l.allowed, 0, l.n), i);
    FilteredCounts(l.allowed, perm, i);
  }
}
