// The memo of synthesized router blocks (benchmark/prefill_split.go): a bounded
// least-recently-used cache that must not be seen from outside.

module PrefillCaches {
  import opened Options
  import opened Decimals
  import opened Units
  import opened TtlCaches

  // ---------------------------------------------------------------- keys

  ghost predicate NoColon(s: string) {
    forall i :: 0 <= i < |s| ==> s[i] != ':'
  }

  lemma ItoaHasNoColon(n: int)
    ensures NoColon(Itoa(n))
  {
    DigitsAreDigits(if n < 0 then -n else n);
  }

  function Key(tag: string, hash: string, n: int): string {
    tag + ":" + hash + ":" + Itoa(n)
  }

  lemma SameLastColon(s: string, i: nat, j: nat)
    requires i < |s| && j < |s| && s[i] == s[j] == ':'
    requires NoColon(s[i + 1..]) && NoColon(s[j + 1..])
    ensures i == j
  {
    forall k | i < k < |s| ensures s[k] != ':' {
      assert s[k] == s[i + 1..][k - i - 1];
    }
    forall k | j < k < |s| ensures s[k] != ':' {
      assert s[k] == s[j + 1..][k - j - 1];
    }
  }

  lemma SameFirstColon(s: string, i: nat, j: nat)
    requires i < |s| && j < |s| && s[i] == s[j] == ':'
    requires NoColon(s[..i]) && NoColon(s[..j])
    ensures i == j
  {
    forall k | 0 <= k < i ensures s[k] != ':' {
      assert s[k] == s[..i][k];
    }
    forall k | 0 <= k < j ensures s[k] != ':' {
      assert s[k] == s[..j][k];
    }
  }

  // A string cut at a colon with none after it is cut in one way only.
  lemma LastColonIsUnique(a: string, x: string, b: string, y: string)
    requires a + ":" + x == b + ":" + y && NoColon(x) && NoColon(y)
    ensures a == b && x == y
  {
    var s := a + ":" + x;
    assert s[|a|] == s[|b|] == ':';
    assert a == s[..|a|] && x == s[|a| + 1..];
    assert b == s[..|b|] && y == s[|b| + 1..];
    SameLastColon(s, |a|, |b|);
  }

  lemma FirstColonIsUnique(a: string, x: string, b: string, y: string)
    requires a + ":" + x == b + ":" + y && NoColon(a) && NoColon(b)
    ensures a == b && x == y
  {
    var s := a + ":" + x;
    assert s[|a|] == s[|b|] == ':';
    assert a == s[..|a|] && x == s[|a| + 1..];
    assert b == s[..|b|] && y == s[|b| + 1..];
    SameFirstColon(s, |a|, |b|);
  }

  /** Different blocks never share a key, whatever their hashes contain. */
  lemma KeyIsInjective(tag: string, hash: string, n: int, tag': string, hash': string, n': int)
    requires NoColon(tag) && NoColon(tag') && Key(tag, hash, n) == Key(tag', hash', n')
    ensures tag == tag' && hash == hash' && n == n'
  {
    ItoaHasNoColon(n);
    ItoaHasNoColon(n');
    LastColonIsUnique(tag + ":" + hash, Itoa(n), tag' + ":" + hash', Itoa(n'));
    FirstColonIsUnique(tag, hash, tag', hash');
    ItoaIsInjective(n, n');
  }

  // ---------------------------------------------------------------- recency

  function Drop(s: seq<string>, k: string): seq<string> {
    if s == [] then [] else (if s[0] == k then [] else [s[0]]) + Drop(s[1..], k)
  }

  // The distinct keys used, the latest first.
  function Recency(uses: seq<string>): seq<string> {
    if uses == [] then []
    else [uses[|uses| - 1]] + Drop(Recency(uses[..|uses| - 1]), uses[|uses| - 1])
  }

  function Take(s: seq<string>, n: nat): seq<string> {
    if |s| <= n then s else s[..n]
  }

  ghost predicate Distinct(s: seq<string>) {
    forall i, j :: 0 <= i < j < |s| ==> s[i] != s[j]
  }

  lemma {:induction false} DropFacts(s: seq<string>, k: string)
    ensures forall x :: x in Drop(s, k) <==> x in s && x != k
    ensures |Drop(s, k)| <= |s|
    ensures k !in s ==> Drop(s, k) == s
  {
    if s != [] {
      DropFacts(s[1..], k);
    }
  }

  lemma {:induction false} DropIsDistinct(s: seq<string>, k: string)
    requires Distinct(s)
    ensures Distinct(Drop(s, k))
  {
    if s != [] {
      DropIsDistinct(s[1..], k);
      DropFacts(s[1..], k);
      if s[0] != k {
        PushIsDistinct(s[0], Drop(s[1..], k));
      }
    }
  }

  lemma PushIsDistinct(x: string, s: seq<string>)
    requires Distinct(s) && x !in s
    ensures Distinct([x] + s)
  {
  }

  // Without its i-th entry, which is k.
  lemma {:induction false} DropOne(s: seq<string>, i: nat)
    requires Distinct(s) && i < |s|
    ensures Drop(s, s[i]) == s[..i] + s[i + 1..]
  {
    if i == 0 {
      DropFacts(s[1..], s[0]);
    } else {
      DropOne(s[1..], i - 1);
    }
  }

  lemma {:induction false} RecencyIsDistinct(uses: seq<string>)
    ensures Distinct(Recency(uses))
  {
    if uses != [] {
      var before, k := Recency(uses[..|uses| - 1]), uses[|uses| - 1];
      RecencyIsDistinct(uses[..|uses| - 1]);
      DropFacts(before, k);
      DropIsDistinct(before, k);
      PushIsDistinct(k, Drop(before, k));
    }
  }

  lemma RecencyPush(uses: seq<string>, k: string)
    ensures Recency(uses + [k]) == [k] + Drop(Recency(uses), k)
  {
    assert (uses + [k])[..|uses|] == uses;
  }

  // A use of a key that is held moves it to the front.
  lemma TouchKeepsTheTop(r: seq<string>, k: string, cap: nat)
    requires Distinct(r) && k in Take(r, cap)
    ensures [k] + Drop(Take(r, cap), k) == Take([k] + Drop(r, k), cap)
  {
    var t := Take(r, cap);
    var i := IndexIn(t, k);
    DropOne(r, i);
    DropOne(t, i);
    if |r| > cap {
      assert [k] + Drop(t, k) == [k] + (r[..i] + r[i + 1..cap]);
      assert ([k] + (r[..i] + r[i + 1..]))[..cap] == [k] + (r[..i] + r[i + 1..cap]);
    }
  }

  lemma IndexIn(s: seq<string>, k: string) returns (i: nat)
    requires k in s
    ensures i < |s| && s[i] == k
  {
    i :| i < |s| && s[i] == k;
  }

  // A use of any other key makes room by giving up the last.
  lemma InsertKeepsTheTop(r: seq<string>, k: string, cap: nat)
    requires Distinct(r) && k !in Take(r, cap) && cap >= 1
    ensures Take([k] + Take(r, cap), cap) == Take([k] + Drop(r, k), cap)
  {
    DropFacts(r, k);
    if k in r {
      var i := IndexIn(r, k);
      DropOne(r, i);
      forall j: nat | j < |Take(r, cap)| ensures r[j] != k {
        assert Take(r, cap)[j] == r[j];
      }
      assert cap <= i;
    }
  }

  // ---------------------------------------------------------------- the cache

  class Entry {
    const key: string
    var units: seq<Unit>

    constructor (key: string, units: seq<Unit>)
      ensures this.key == key && this.units == units
    {
      this.key, this.units := key, units;
    }
  }

  function KeysOf(ll: seq<Entry>): (ks: seq<string>)
    ensures |ks| == |ll| && forall i :: 0 <= i < |ll| ==> ks[i] == ll[i].key
  {
    seq(|ll|, i requires 0 <= i < |ll| => ll[i].key)
  }

  // The list and the map hold the same entries.
  ghost predicate Agree(ll: seq<Entry>, items: map<string, Entry>) {
    && Distinct(KeysOf(ll))
    && (forall k :: k in items <==> k in KeysOf(ll))
    && (forall i :: 0 <= i < |ll| ==> ll[i].key in items && items[ll[i].key] == ll[i])
  }

  lemma ListedAtItsKey(ll: seq<Entry>, items: map<string, Entry>, k: string)
    requires Agree(ll, items) && k in items
    ensures items[k].key == k && items[k] in ll
  {
    var i := IndexIn(KeysOf(ll), k);
    assert ll[i].key == k;
  }

  lemma MovedAgrees(ll: seq<Entry>, items: map<string, Entry>, i: nat)
    requires Agree(ll, items) && i < |ll|
    ensures var moved := [ll[i]] + ll[..i] + ll[i + 1..];
            Agree(moved, items) && KeysOf(moved) == [ll[i].key] + Drop(KeysOf(ll), ll[i].key)
  {
    hide Distinct, Drop;
    var moved, ks := [ll[i]] + ll[..i] + ll[i + 1..], KeysOf(ll);
    DropOne(ks, i);
    assert KeysOf(moved) == [ks[i]] + (ks[..i] + ks[i + 1..]);
    DropFacts(ks, ks[i]);
    DropIsDistinct(ks, ks[i]);
    PushIsDistinct(ks[i], Drop(ks, ks[i]));
    forall e | e in moved ensures e in ll {
    }
    forall j | 0 <= j < |moved| ensures moved[j].key in items && items[moved[j].key] == moved[j] {
      assert moved[j] in ll;
    }
  }

  lemma PushedAgrees(ll: seq<Entry>, items: map<string, Entry>, e: Entry)
    requires Agree(ll, items) && e.key !in items
    ensures Agree([e] + ll, items[e.key := e]) && KeysOf([e] + ll) == [e.key] + KeysOf(ll)
  {
    assert KeysOf([e] + ll) == [e.key] + KeysOf(ll);
    PushIsDistinct(e.key, KeysOf(ll));
  }

  lemma PoppedAgrees(ll: seq<Entry>, items: map<string, Entry>)
    requires Agree(ll, items) && ll != []
    ensures var n := |ll| - 1;
            Agree(ll[..n], items - {ll[n].key}) && KeysOf(ll[..n]) == KeysOf(ll)[..n]
  {
    var n := |ll| - 1;
    var ks := KeysOf(ll);
    assert KeysOf(ll[..n]) == ks[..n];
    assert ks == ks[..n] + [ks[n]];
    assert ks[n] !in ks[..n];
  }

  lemma AgreeIff(ll: seq<Entry>, items: map<string, Entry>)
    requires Agree(ll, items)
    ensures forall k :: k in items <==> k in KeysOf(ll)
  {
  }

  // What is left of the old entries and the new one is what the list still names.
  lemma KeptIs(was: map<string, Entry>, m: map<string, seq<Unit>>, key: string, units: seq<Unit>,
               ll: seq<Entry>, items: map<string, Entry>, el: Entry, got: map<string, seq<Unit>>)
    requires Agree(ll, items) && m.Keys == was.Keys && got.Keys == items.Keys
    requires forall k :: k in items ==> (k in was || k == key) && got[k] == if k == key then units else m[k]
    ensures got == Kept(m[key := units], KeysOf(ll))
  {
    hide Distinct;
    var all, keys := m[key := units], KeysOf(ll);
    assert forall k :: k in got <==> k in keys;
    assert forall k :: k in got ==> k in all && got[k] == all[k];
  }

  class PrefillUnitCache {
    const cap: nat
    var ll: seq<Entry>
    var items: map<string, Entry>
    ghost var uses: seq<string>

    /** The cache holds the `cap` keys used most recently, in that order. */
    ghost predicate Valid()
      reads this
    {
      cap >= 1 && Agree(ll, items) && KeysOf(ll) == Take(Recency(uses), cap)
    }

    ghost function Contents(): map<string, seq<Unit>>
      reads this, items.Values
    {
      map k | k in items :: items[k].units
    }

    constructor (cap: int)
      ensures Valid() && Contents() == map[] && uses == []
      ensures this.cap == if cap <= 0 then 50000 else cap
    {
      this.cap := if cap <= 0 then 50000 else cap;
      ll, items, uses := [], map[], [];
    }

    method MoveToFront(el: Entry)
      requires Agree(ll, items) && el in ll
      modifies this`ll
      ensures Agree(ll, items) && KeysOf(ll) == [el.key] + Drop(old(KeysOf(ll)), el.key)
    {
      var i: nat := 0;
      while ll[i] != el
        invariant i < |ll| && el in ll[i..]
        decreases |ll| - i
      {
        i := i + 1;
      }
      MovedAgrees(ll, items, i);
      ll := [el] + ll[..i] + ll[i + 1..];
    }

    method Get(key: string) returns (r: Option<seq<Unit>>)
      requires Valid()
      modifies this`ll, this`uses
      ensures Valid() && Contents() == old(Contents())
      ensures r == if key in old(Contents()) then Some(old(Contents())[key]) else None
      ensures uses == old(uses) + if r.Some? then [key] else []
    {
      hide Recency, Distinct, Agree, Drop;
      if key !in items {
        return None;
      }
      assert key in KeysOf(ll) by {
        AgreeIff(ll, items);
      }
      var el := items[key];
      ListedAtItsKey(ll, items, key);
      MoveToFront(el);
      RecencyIsDistinct(uses);
      RecencyPush(uses, key);
      TouchKeepsTheTop(Recency(uses), key, cap);
      uses := uses + [key];
      return Some(el.units);
    }

    /** Store under a key; over the bound, the least recently used entry goes. */
    method Put(key: string, units: seq<Unit>)
      requires Valid()
      modifies this, items.Values
      ensures Valid() && uses == old(uses) + [key]
      ensures fresh(items.Values - old(items.Values))
      ensures Contents() == Kept(old(Contents())[key := units], Take(Recency(uses), cap))
      ensures key in Contents() && Contents()[key] == units
    {
      if key in items {
        Replace(key, units);
      } else {
        Insert(key, units);
      }
    }

    method Replace(key: string, units: seq<Unit>)
      requires Valid() && key in items
      modifies this`ll, this`uses, items[key]
      ensures Valid() && uses == old(uses) + [key] && items == old(items)
      ensures Contents() == Kept(old(Contents())[key := units], Take(Recency(uses), cap))
      ensures Contents()[key] == units
    {
      hide Recency, Distinct, Take;
      var el := items[key];
      OthersKeepTheirUnits(items, key);
      ListedAtItsKey(ll, items, key);
      MoveToFront(el);
      RecencyIsDistinct(uses);
      RecencyPush(uses, key);
      TouchKeepsTheTop(Recency(uses), key, cap);
      uses := uses + [key];
      el.units := units;
    }

    method Insert(key: string, units: seq<Unit>)
      requires Valid() && key !in items
      modifies this
      ensures Valid() && uses == old(uses) + [key]
      ensures fresh(items.Values - old(items.Values))
      ensures Contents() == Kept(old(Contents())[key := units], Take(Recency(uses), cap))
      ensures key in Contents() && Contents()[key] == units
    {
      hide Recency, Distinct, Kept, Agree;
      assert key !in KeysOf(ll) by {
        AgreeIff(ll, items);
      }
      RecencyIsDistinct(uses);
      RecencyPush(uses, key);
      InsertKeepsTheTop(Recency(uses), key, cap);
      var el := new Entry(key, units);
      PushedAgrees(ll, items, el);
      ll, items, uses := [el] + ll, items[key := el], uses + [key];
      Evict();
      assert key in items by {
        assert KeysOf(ll)[0] == key;
        AgreeIff(ll, items);
      }
      KeptIs(old(items), old(Contents()), key, units, ll, items, el, Contents());
    }

    method Evict()
      requires Agree(ll, items) && |ll| <= cap + 1
      modifies this`ll, this`items
      ensures Agree(ll, items) && KeysOf(ll) == Take(old(KeysOf(ll)), cap)
      ensures forall k :: k in items ==> k in old(items) && items[k] == old(items)[k]
    {
      if |ll| > cap {
        PoppedAgrees(ll, items);
        var oldest := ll[|ll| - 1];
        ll := ll[..|ll| - 1];
        items := items - {oldest.key};
      }
    }

    lemma OthersKeepTheirUnits(m: map<string, Entry>, key: string)
      requires Agree(ll, m) && key in m
      ensures forall k :: k in m && k != key ==> m[k] != m[key]
    {
      forall k | k in m && k != key ensures m[k] != m[key] {
        ListedAtItsKey(ll, m, k);
        ListedAtItsKey(ll, m, key);
      }
    }
  }

  function Kept(m: map<string, seq<Unit>>, keys: seq<string>): map<string, seq<Unit>> {
    map k | k in m && k in keys :: m[k]
  }

  // ---------------------------------------------------------------- block units

  datatype Block = Block(hash: string, bytes: int)

  datatype Prompt = Prompt(system: seq<Block>, tools: Option<Block>, messages: seq<Block>, inputTokens: int)

  // Hashing a label, and synthesizing and chunking `n` bytes for a hash, both for fixed
  // docs: functions the model knows nothing about.
  datatype Env = Env(hashOf: string -> nat, chunk: (string, string, int) -> seq<Unit>)

  // A block's units with no memo.
  function Synthesized(env: Env, tag: string, b: Block): seq<Unit> {
    if b.bytes <= 0 then [Unit(env.hashOf(b.hash), 1)] else env.chunk(tag, b.hash, b.bytes)
  }

  // A short first system block is a billing header and is skipped.
  function EffectiveSystem(blocks: seq<Block>): seq<Block> {
    if |blocks| > 0 && blocks[0].bytes < 200 then blocks[1..] else blocks
  }

  function AllUnits(env: Env, tag: string, blocks: seq<Block>): seq<Unit> {
    if blocks == [] then [] else AllUnits(env, tag, blocks[..|blocks| - 1]) + Synthesized(env, tag, blocks[|blocks| - 1])
  }

  // System, then tools, then messages.
  function BlockUnits(env: Env, req: Prompt): seq<Unit> {
    AllUnits(env, "system", EffectiveSystem(req.system))
    + (if req.tools.Some? && req.tools.value.hash != "" then Synthesized(env, "tools", req.tools.value) else [])
    + AllUnits(env, "message", req.messages)
  }

  // Whatever is held under a block's key is what the block synthesizes to.
  ghost predicate Faithful(env: Env, m: map<string, seq<Unit>>) {
    forall tag: string, b: Block {:trigger Key(tag, b.hash, b.bytes)} :: NoColon(tag) && Key(tag, b.hash, b.bytes) in m ==>
      m[Key(tag, b.hash, b.bytes)] == Synthesized(env, tag, b)
  }

  lemma StoringIsFaithful(env: Env, m: map<string, seq<Unit>>, tag: string, b: Block, keys: seq<string>)
    requires Faithful(env, m) && NoColon(tag)
    ensures Faithful(env, Kept(m[Key(tag, b.hash, b.bytes) := Synthesized(env, tag, b)], keys))
  {
    hide Key, Synthesized;
    var k := Key(tag, b.hash, b.bytes);
    var kept := Kept(m[k := Synthesized(env, tag, b)], keys);
    forall t: string, c: Block | NoColon(t) && Key(t, c.hash, c.bytes) in kept
      ensures kept[Key(t, c.hash, c.bytes)] == Synthesized(env, t, c)
    {
      if Key(t, c.hash, c.bytes) == k {
        KeyIsInjective(t, c.hash, c.bytes, tag, b.hash, b.bytes);
        assert c == b;
      }
    }
  }

  ghost predicate Ready(env: Env, cache: PrefillUnitCache?)
    reads cache, if cache == null then {} else cache.items.Values
  {
    cache != null ==> cache.Valid() && Faithful(env, cache.Contents())
  }

  ghost function Footprint(cache: PrefillUnitCache?): set<object>
    reads cache
  {
    if cache == null then {}
    else
      var own: set<object> := {cache};
      var entries: set<object> := set e: Entry | e in cache.items.Values;
      own + entries
  }

  method Add(env: Env, cache: PrefillUnitCache?, tag: string, b: Block) returns (u: seq<Unit>)
    requires Ready(env, cache) && NoColon(tag)
    modifies Footprint(cache)
    ensures Ready(env, cache) && fresh(Footprint(cache) - old(Footprint(cache)))
    ensures u == Synthesized(env, tag, b)
  {
    hide Key, Synthesized;
    var key := Key(tag, b.hash, b.bytes);
    if cache != null {
      var got := cache.Get(key);
      if got.Some? {
        return got.value;
      }
    }
    u := Synthesize(env, tag, b);
    if cache != null {
      StoringIsFaithful(env, cache.Contents(), tag, b, Take(Recency(cache.uses + [key]), cache.cap));
      cache.Put(key, u);
    }
  }

  method Synthesize(env: Env, tag: string, b: Block) returns (u: seq<Unit>)
    ensures u == Synthesized(env, tag, b)
  {
    if b.bytes <= 0 {
      u := [Unit(env.hashOf(b.hash), 1)];
    } else {
      u := env.chunk(tag, b.hash, b.bytes);
    }
  }

  method AddAll(env: Env, cache: PrefillUnitCache?, tag: string, blocks: seq<Block>) returns (units: seq<Unit>)
    requires Ready(env, cache) && NoColon(tag)
    modifies Footprint(cache)
    ensures Ready(env, cache) && fresh(Footprint(cache) - old(Footprint(cache)))
    ensures units == AllUnits(env, tag, blocks)
  {
    hide Synthesized, Ready;
    units := [];
    for i := 0 to |blocks|
      invariant Ready(env, cache) && fresh(Footprint(cache) - old(Footprint(cache)))
      invariant units == AllUnits(env, tag, blocks[..i])
    {
      assert blocks[..i + 1][..i] == blocks[..i];
      var u := Add(env, cache, tag, blocks[i]);
      units := units + u;
    }
    assert blocks[..|blocks|] == blocks;
  }

  /** The memo cannot be seen: with any cache built for the same docs, or with none, the
      units are the ones the blocks synthesize to. */
  method PrefillBlockUnits(env: Env, req: Prompt, cache: PrefillUnitCache?) returns (units: seq<Unit>)
    requires Ready(env, cache)
    modifies Footprint(cache)
    ensures Ready(env, cache) && fresh(Footprint(cache) - old(Footprint(cache)))
    ensures units == BlockUnits(env, req)
  {
    hide Ready, AllUnits, Synthesized;
    var u;
    units := AddAll(env, cache, "system", EffectiveSystem(req.system));
    if req.tools.Some? && req.tools.value.hash != "" {
      u := Add(env, cache, "tools", req.tools.value);
      units := units + u;
    }
    u := AddAll(env, cache, "message", req.messages);
    units := units + u;
  }

  // ---------------------------------------------------------------- scoring

  datatype Stat = Stat(units: seq<Unit>, matched: nat, inputTokens: int)

  /** The number of leading units whose tokens add up to `tokens`. */
  method MatchedBlocks(units: seq<Unit>, tokens: int) returns (matched: nat)
    requires forall u :: u in units ==> u.tokens >= 1
    ensures matched <= |units|
    ensures forall n: nat :: n <= |units| && SumTokens(units[..n]) == tokens ==> matched == n
  {
    matched := 0;
    var acc := 0;
    while matched < |units| && acc < tokens
      invariant matched <= |units| && acc == SumTokens(units[..matched])
      invariant forall n: nat :: n < matched ==> SumTokens(units[..n]) < tokens
    {
      assert units[..matched + 1][..matched] == units[..matched];
      acc := acc + units[matched].tokens;
      matched := matched + 1;
    }
    forall n: nat | n <= |units| && SumTokens(units[..n]) == tokens ensures matched == n {
      if matched < n {
        MoreUnitsMoreTokens(units, matched, n);
      }
    }
  }

  lemma {:induction false} MoreUnitsMoreTokens(units: seq<Unit>, a: nat, b: nat)
    requires a < b <= |units| && forall u :: u in units ==> u.tokens >= 1
    ensures SumTokens(units[..a]) < SumTokens(units[..b])
    decreases b
  {
    assert units[..b][..b - 1] == units[..b - 1] && units[b - 1] in units;
    if a < b - 1 {
      MoreUnitsMoreTokens(units, a, b - 1);
    }
  }

  function Recorded(env: Env, reqs: seq<Prompt>): (rs: seq<TtlCaches.Request>)
    ensures |rs| == |reqs| && forall i :: 0 <= i < |reqs| ==> rs[i].units == BlockUnits(env, reqs[i])
  {
    seq(|reqs|, i requires 0 <= i < |reqs| => TtlCaches.Request(0, BlockUnits(env, reqs[i])))
  }

  /** Each request is scored with the longest run of its blocks that any earlier request
      began with, whatever the memo held. */
  method SimulatePrefillBlocks(env: Env, reqs: seq<Prompt>, cache: PrefillUnitCache?) returns (out: seq<Stat>)
    requires Ready(env, cache)
    requires forall tag, hash, n, u :: u in env.chunk(tag, hash, n) ==> u.tokens >= 1
    modifies Footprint(cache)
    ensures Ready(env, cache) && |out| == |reqs|
    ensures forall i :: 0 <= i < |reqs| ==>
              && out[i].units == BlockUnits(env, reqs[i]) && out[i].inputTokens == reqs[i].inputTokens
              && out[i].matched == LongestSeen(Recorded(env, reqs[..i]), Hashes(BlockUnits(env, reqs[i])))
  {
    hide Ready, BlockUnits, LongestSeen;
    out := [];
    var seen: seq<TtlCaches.Request> := [];
    for i := 0 to |reqs|
      invariant Ready(env, cache) && fresh(Footprint(cache) - old(Footprint(cache)))
      invariant |out| == i && seen == Recorded(env, reqs[..i])
      invariant forall k :: 0 <= k < i ==> out[k].units == BlockUnits(env, reqs[k]) && out[k].inputTokens == reqs[k].inputTokens
      invariant forall k :: 0 <= k < i ==> out[k].matched == LongestSeen(Recorded(env, reqs[..k]), Hashes(BlockUnits(env, reqs[k])))
    {
      assert Recorded(env, reqs[..i + 1]) == Recorded(env, reqs[..i]) + [TtlCaches.Request(0, BlockUnits(env, reqs[i]))];
      var units := PrefillBlockUnits(env, reqs[i], cache);
      UnitsHaveTokens(env, reqs[i]);
      var matched: nat := 0;
      if |units| > 0 {
        var cached := SumTokens(units[..LongestSeen(seen, Hashes(units))]);
        matched := MatchedBlocks(units, cached);
      }
      seen := seen + [TtlCaches.Request(0, units)];
      out := out + [Stat(units, matched, reqs[i].inputTokens)];
    }
    assert reqs[..|reqs|] == reqs;
  }

  lemma UnitsHaveTokens(env: Env, req: Prompt)
    requires forall tag, hash, n, u :: u in env.chunk(tag, hash, n) ==> u.tokens >= 1
    ensures forall u :: u in BlockUnits(env, req) ==> u.tokens >= 1
  {
    AllHaveTokens(env, "system", EffectiveSystem(req.system));
    AllHaveTokens(env, "message", req.messages);
  }

  lemma {:induction false} AllHaveTokens(env: Env, tag: string, blocks: seq<Block>)
    requires forall tag, hash, n, u :: u in env.chunk(tag, hash, n) ==> u.tokens >= 1
    ensures forall u :: u in AllUnits(env, tag, blocks) ==> u.tokens >= 1
  {
    if blocks != [] {
      AllHaveTokens(env, tag, blocks[..|blocks| - 1]);
    }
  }
}
