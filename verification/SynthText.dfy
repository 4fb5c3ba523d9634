// Text drawn from the docs corpus at an offset a seed decides
// (benchmark/replay_router_wire.go).

module SynthTexts {

  function Offset(hash: nat, docs: string): nat
    requires docs != ""
  {
    hash % |docs|
  }

  // Character k of the endless text that starts at an offset and wraps round.
  function Cyclic(docs: string, off: nat, k: nat): char
    requires docs != ""
  {
    docs[(off + k) % |docs|]
  }

  function Repeated(base: string, k: nat): char
    requires base != ""
  {
    base[k % |base|]
  }

  ghost predicate Wraps(s: string, docs: string, start: nat) {
    docs != "" && forall k: nat :: k < |s| ==> s[k] == Cyclic(docs, start, k)
  }

  ghost predicate Repeats(s: string, base: string) {
    base != "" && forall k: nat :: k < |s| ==> s[k] == Repeated(base, k)
  }

  /** The text of `n` bytes for a seed whose hash is given. */
  method SynthText(seed: string, hash: nat, n: int, docs: string) returns (s: string)
    ensures |s| == if n <= 0 then 0 else n
    ensures docs != "" ==> Wraps(s, docs, Offset(hash, docs))
    ensures docs == "" ==> Repeats(s, if seed == "" then "x" else seed)
  {
    if n <= 0 {
      return "";
    }
    if |docs| == 0 {
      var base := seed;
      if base == "" {
        base := "x";
      }
      s := RepeatOf(base, n);
    } else {
      s := WrapFrom(docs, Offset(hash, docs), n);
    }
  }

  method RepeatOf(base: string, n: nat) returns (s: string)
    requires base != ""
    ensures |s| == n && Repeats(s, base)
  {
    hide Repeated;
    s := "";
    for i := 0 to n / |base| + 1
      invariant |s| == i * |base| && Repeats(s, base)
    {
      OneMoreCopy(s, base, i);
      s := s + base;
    }
    CopiesSuffice(n, |base|);
    s := s[..n];
  }

  method WrapFrom(docs: string, start: nat, n: nat) returns (s: string)
    requires docs != "" && start < |docs|
    ensures |s| == n && Wraps(s, docs, start)
  {
    hide Wraps;
    var off: nat := start;
    s := "";
    NothingWraps(docs, start);
    while |s| < n
      invariant |s| <= n && off <= |docs|
      invariant InStep(off, start, |s|, |docs|)
      invariant Wraps(s, docs, start)
      decreases n - |s|
    {
      var take := n - |s|;
      var room := |docs| - off;
      if room <= 0 {
        BackToZero(start, |s|, |docs|);
        off := 0;
        room := |docs|;
      }
      if take > room {
        take := room;
      }
      OneMorePiece(docs, start, s, off, take);
      s := s + docs[off..off + take];
      off := off + take;
    }
    assert s[..n] == s;
  }

  // The reading position is where the text has got to, round the corpus.
  ghost predicate InStep(off: nat, start: nat, done: nat, d: nat)
    requires d > 0
  {
    off % d == (start + done) % d
  }

  lemma BackToZero(start: nat, done: nat, d: nat)
    requires d > 0 && InStep(d, start, done, d)
    ensures InStep(0, start, done, d)
  {
    ModMultiple(0, 1, d);
  }

  lemma NothingWraps(docs: string, start: nat)
    requires docs != ""
    ensures Wraps("", docs, start) && InStep(start, start, 0, |docs|)
  {
  }

  lemma OneMorePiece(docs: string, start: nat, s: string, off: nat, take: nat)
    requires Wraps(s, docs, start) && off + take <= |docs| && InStep(off, start, |s|, |docs|)
    ensures Wraps(s + docs[off..off + take], docs, start)
    ensures InStep(off + take, start, |s| + take, |docs|)
  {
    var t := s + docs[off..off + take];
    forall k: nat | k < |t| ensures t[k] == Cyclic(docs, start, k) {
      if k >= |s| {
        WrapsTogether(off, start + |s|, k - |s|, |docs|);
      }
    }
    WrapsAlong(off, start + |s|, take, |docs|);
  }

  // Two positions that agree modulo d agree k steps later.
  lemma WrapsAlong(a: nat, b: nat, k: nat, d: nat)
    requires d > 0 && a % d == b % d
    ensures (a + k) % d == (b + k) % d
  {
    ModAdd(a, k, d);
    ModAdd(b, k, d);
  }

  lemma WrapsTogether(a: nat, b: nat, k: nat, d: nat)
    requires d > 0 && a % d == b % d && a + k < d
    ensures a + k == (b + k) % d
  {
    WrapsAlong(a, b, k, d);
    SmallMod(a + k, d);
  }

  lemma SmallMod(a: nat, d: nat)
    requires a < d
    ensures a % d == a
  {
  }

  lemma ModAdd(a: nat, k: nat, d: nat)
    requires d > 0
    ensures (a + k) % d == (a % d + k) % d
  {
    var q, r := a / d, a % d;
    assert a == q * d + r;
    ModMultiple(r + k, q, d);
  }

  lemma {:induction false} ModMultiple(x: nat, q: nat, d: nat)
    requires d > 0
    ensures (q * d + x) % d == x % d
  {
    if q > 0 {
      ModMultiple(x, q - 1, d);
      var y := (q - 1) * d + x;
      assert q * d + x == y + d;
      ModStep(y, d);
    }
  }

  lemma ModStep(y: nat, d: nat)
    requires d > 0
    ensures (y + d) % d == y % d
  {
    var q, r := y / d, y % d;
    assert y + d == (q + 1) * d + r by {
      assert (q + 1) * d == q * d + d;
    }
    DivUnique(y + d, q + 1, r, d);
  }

  lemma DivUnique(y: nat, q: nat, r: nat, d: nat)
    requires d > 0 && y == q * d + r && r < d
    ensures y % d == r
  {
    var q', r' := y / d, y % d;
    assert y == q' * d + r';
    if q' > q {
      Gap(q', q, d);
    } else if q' < q {
      Gap(q, q', d);
    }
  }

  lemma Gap(a: nat, b: nat, d: nat)
    requires a > b
    ensures a * d >= b * d + d
  {
    assert (a - b - 1) * d >= 0;
    assert a * d == (a - b - 1) * d + b * d + d;
  }

  lemma OneMoreCopy(s: string, base: string, i: nat)
    requires |s| == i * |base| && Repeats(s, base)
    ensures |s + base| == (i + 1) * |base| && Repeats(s + base, base)
  {
    forall k: nat | k < |s + base| ensures (s + base)[k] == Repeated(base, k) {
      if k >= |s| {
        ModMultiple(k - |s|, i, |base|);
        SmallMod(k - |s|, |base|);
      }
    }
  }

  lemma CopiesSuffice(n: nat, d: nat)
    requires d > 0
    ensures n <= (n / d + 1) * d
  {
    assert (n / d + 1) * d == (n / d) * d + d;
  }

  /** A shorter text for the same seed is a prefix of a longer one. */
  lemma ShorterIsPrefix(docs: string, hash: nat, s: string, t: string)
    requires docs != "" && |s| <= |t|
    requires Wraps(s, docs, Offset(hash, docs)) && Wraps(t, docs, Offset(hash, docs))
    ensures t[..|s|] == s
  {
  }
}
