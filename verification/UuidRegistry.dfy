/** replay_uuid_registry.go: the live marker set. Acquire takes the lock three times, so
    between its sections other sessions come and go. */
module UuidRegistries {
  import opened Options
  import opened Queues

  type Marker = string

  /** Who first registered a marker. */
  datatype Holder = Holder(series: int, sessionId: string, fileIdx: int, pass: int)

  datatype Entry = Entry(n: int, holder: Holder)

  // ---- What each lock section does to the counts ----

  function Count(m: map<Marker, int>, u: Marker): int
  {
    if u in m then m[u] else 0
  }

  /** One more hold on each of `us`, registering the unknown ones. */
  function Held(m: map<Marker, int>, us: set<Marker>): map<Marker, int>
  {
    map u | u in m.Keys + us :: Count(m, u) + (if u in us then 1 else 0)
  }

  /** The read-locked pass: only markers already registered can be counted. */
  function HeldIfKnown(m: map<Marker, int>, us: set<Marker>): map<Marker, int>
  {
    map u | u in m :: m[u] + (if u in us then 1 else 0)
  }

  /** One hold fewer on each of `us`; an entry nobody holds any more goes. */
  function Unheld(m: map<Marker, int>, us: set<Marker>): map<Marker, int>
  {
    map u | u in m && !(u in us && m[u] <= 1) :: m[u] - (if u in us then 1 else 0)
  }

  function CountsOf(m: map<Marker, Entry>): map<Marker, int>
  {
    map u | u in m :: m[u].n
  }

  lemma CountsOfUpdate(m: map<Marker, Entry>, u: Marker, e: Entry)
    ensures CountsOf(m[u := e]) == CountsOf(m)[u := e.n]
    ensures CountsOf(m - {u}) == CountsOf(m) - {u}
  {
  }

  lemma OneMoreKnown(m: map<Marker, int>, us: set<Marker>, u: Marker)
    requires u !in us
    ensures HeldIfKnown(m, us + {u}) == if u in m then HeldIfKnown(m, us)[u := m[u] + 1] else HeldIfKnown(m, us)
  {
  }

  lemma NotListed(missing: seq<Marker>, seen: set<Marker>, known: set<Marker>, u: Marker)
    requires Elems(missing) == seen - known && u !in seen
    ensures u !in missing
  {
    assert u !in Elems(missing);
  }

  lemma OneMoreHeld(m: map<Marker, int>, us: set<Marker>, u: Marker)
    requires u !in us
    ensures Held(m, us + {u}) == Held(m, us)[u := Count(m, u) + 1]
    ensures u in Held(m, us) <==> u in m
    ensures u in m ==> Held(m, us)[u] == m[u]
  {
    var a, b := Held(m, us + {u}), Held(m, us)[u := Count(m, u) + 1];
    assert a.Keys == b.Keys;
    assert forall v | v in a :: a[v] == b[v];
  }

  lemma RegisterOne(was: map<Marker, Entry>, m: map<Marker, Entry>, us: set<Marker>, u: Marker, e: Entry)
    requires u !in us && CountsOf(m) == Held(CountsOf(was), us)
    requires e.n == if u in m then m[u].n + 1 else 1
    ensures CountsOf(m[u := e]) == Held(CountsOf(was), us + {u})
    ensures u in m <==> u in was
  {
    OneMoreHeld(CountsOf(was), us, u);
    CountsOfUpdate(m, u, e);
    assert u in m <==> u in CountsOf(m);
  }

  lemma OneMoreUnheld(m: map<Marker, int>, us: set<Marker>, u: Marker)
    requires u !in us
    ensures u in Unheld(m, us) <==> u in m
    ensures u in m ==> Unheld(m, us)[u] == m[u]
    ensures Unheld(m, us + {u}) ==
              if u !in m then Unheld(m, us)
              else if m[u] <= 1 then Unheld(m, us) - {u}
              else Unheld(m, us)[u := m[u] - 1]
  {
  }

  class UuidRegistry {
    var m: map<Marker, Entry>
    var peak: nat
    var liveSessions: int
    var peakSessions: int

    ghost function Counts(): map<Marker, int>
      reads this
    {
      CountsOf(m)
    }

    constructor ()
      ensures Counts() == map[] && peak == 0 && liveSessions == 0 && peakSessions == 0
    {
      m, peak, liveSessions, peakSessions := map[], 0, 0, 0;
    }

    /** Acquire's first section. */
    method CountSession()
      modifies this`liveSessions, this`peakSessions
      ensures liveSessions == old(liveSessions) + 1
      ensures peakSessions == if liveSessions > old(peakSessions) then liveSessions else old(peakSessions)
    {
      liveSessions := liveSessions + 1;
      if liveSessions > peakSessions {
        peakSessions := liveSessions;
      }
    }

    /** Acquire's read-locked section: count what is known, list what is not. */
    method HoldKnown(uuids: seq<Marker>) returns (missing: seq<Marker>)
      modifies this`m
      ensures Counts() == HeldIfKnown(old(Counts()), Elems(uuids)) && m.Keys == old(m).Keys
      ensures Distinct(missing) && Elems(missing) == Elems(uuids) - old(m).Keys
      ensures forall u | u in m :: m[u].holder == old(m)[u].holder
    {
      var seen := {};
      missing := [];
      for k := 0 to |uuids|
        invariant seen == Elems(uuids[..k])
        invariant Counts() == HeldIfKnown(old(Counts()), seen) && m.Keys == old(m).Keys
        invariant forall u | u in m :: m[u].holder == old(m)[u].holder
        invariant Distinct(missing) && Elems(missing) == seen - old(m).Keys
      {
        var u := uuids[k];
        assert Elems(uuids[..k + 1]) == Elems(uuids[..k]) + {u};
        if u in seen {
          continue;
        }
        OneMoreKnown(old(Counts()), seen, u);
        ghost var earlier := seen;
        seen := seen + {u};
        if u in m {
          CountsOfUpdate(m, u, m[u].(n := m[u].n + 1));
          m := m[u := m[u].(n := m[u].n + 1)];
        } else {
          NotListed(missing, earlier, old(m).Keys, u);
          AppendElems(missing, u);
          missing := missing + [u];
        }
      }
      assert uuids[..|uuids|] == uuids;
    }

    /** Acquire's last section: every missing marker is looked up again first. */
    method Register(missing: seq<Marker>, h: Holder)
      requires Distinct(missing)
      modifies this`m, this`peak
      ensures Counts() == Held(old(Counts()), Elems(missing))
      ensures peak == if |m| > old(peak) then |m| else old(peak)
      ensures forall u | u in m :: m[u].holder == if u in old(m) then old(m)[u].holder else h
    {
      for k := 0 to |missing|
        invariant peak == old(peak)
        invariant Counts() == Held(old(Counts()), Elems(missing[..k]))
        invariant forall u | u in m :: m[u].holder == if u in old(m) then old(m)[u].holder else h
      {
        var u := missing[k];
        assert Elems(missing[..k + 1]) == Elems(missing[..k]) + {u};
        assert u !in Elems(missing[..k]);
        var e := if u in m then m[u].(n := m[u].n + 1) else Entry(1, h);
        RegisterOne(old(m), m, Elems(missing[..k]), u, e);
        m := m[u := e];
      }
      assert missing[..|missing|] == missing;
      if |m| > peak {
        peak := |m|;
      }
    }

    /** The whole Acquire with nobody in between. */
    method Acquire(uuids: seq<Marker>, h: Holder)
      modifies this
      ensures if |uuids| == 0 then m == old(m) && liveSessions == old(liveSessions)
              else Counts() == Held(old(Counts()), Elems(uuids)) && liveSessions == old(liveSessions) + 1
      ensures peakSessions == if liveSessions > old(peakSessions) && |uuids| > 0 then liveSessions else old(peakSessions)
      ensures peak == if |m| > old(peak) && !(Elems(uuids) <= old(m).Keys) then |m| else old(peak)
      ensures forall u | u in m :: m[u].holder == if u in old(m) then old(m)[u].holder else h
    {
      if |uuids| == 0 {
        return;
      }
      CountSession();
      var missing := HoldKnown(uuids);
      if |missing| == 0 {
        assert Elems(uuids) <= old(m).Keys by {
          forall u | u in Elems(uuids) ensures u in old(m) { assert u !in Elems(missing); }
        }
        return;
      }
      assert missing[0] in Elems(missing);
      Register(missing, h);
    }

    /** Drop one hold per distinct marker. */
    method Release(uuids: seq<Marker>)
      modifies this
      ensures peak == old(peak) && peakSessions == old(peakSessions)
      ensures if |uuids| == 0 then m == old(m) && liveSessions == old(liveSessions)
              else Counts() == Unheld(old(Counts()), Elems(uuids)) && liveSessions == old(liveSessions) - 1
    {
      if |uuids| == 0 {
        return;
      }
      var seen := {};
      liveSessions := liveSessions - 1;
      for k := 0 to |uuids|
        invariant peak == old(peak) && peakSessions == old(peakSessions) && liveSessions == old(liveSessions) - 1
        invariant seen == Elems(uuids[..k])
        invariant Counts() == Unheld(old(Counts()), seen)
      {
        var u := uuids[k];
        assert Elems(uuids[..k + 1]) == Elems(uuids[..k]) + {u};
        if u in seen {
          continue;
        }
        OneMoreUnheld(old(Counts()), seen, u);
        seen := seen + {u};
        if u in m {
          CountsOfUpdate(m, u, m[u].(n := m[u].n - 1));
          m := m[u := m[u].(n := m[u].n - 1)];
          CountsOfUpdate(m, u, m[u]);
          if m[u].n <= 0 {
            m := m - {u};
          }
        }
      }
      assert uuids[..|uuids|] == uuids;
    }

    method Lookup(u: Marker) returns (e: Option<Entry>)
      ensures e.Some? <==> u in Counts()
      ensures e.Some? ==> e.value == m[u] && e.value.n == Counts()[u]
    {
      e := if u in m then Some(m[u]) else None;
    }
  }
}
