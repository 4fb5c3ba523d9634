// Which turns of a session are marked, and which markers a request is asked to recite
// (benchmark/replay_uuid_registry.go, benchmark/replay_router_post.go).

module Injections {
  import opened Options
  import opened Decimals

  datatype Message = Message(role: string, hash: string, bytes: int, tokens: int, blockTypes: seq<string>,
                             toolUseIds: seq<string>, toolResultIds: seq<string>)

  datatype Stamp = Stamp(idx: nat, uuid: string, tag: string)

  datatype SessionTurns = SessionTurns(hashToTurn: map<string, nat>, uuids: seq<string>)

  // The marker of a hash under a pass's stamp.
  type Marker = (string, string) -> string

  predicate Qualifies(m: Message) {
    m.role == "user" && m.hash != "" && "text" in m.blockTypes
  }

  // ---------------------------------------------------------------- a session's turns

  // The hashes of qualifying turns, each once, in order of first appearance.
  function Turns(msgs: seq<Message>): seq<string> {
    if msgs == [] then []
    else
      var before, m := Turns(msgs[..|msgs| - 1]), msgs[|msgs| - 1];
      if Qualifies(m) && m.hash !in before then before + [m.hash] else before
  }

  lemma {:induction false} TurnsAreTheQualifying(msgs: seq<Message>, h: string)
    ensures h in Turns(msgs) <==> exists m :: m in msgs && Qualifies(m) && m.hash == h
  {
    if msgs != [] {
      var n := |msgs| - 1;
      TurnsAreTheQualifying(msgs[..n], h);
      assert msgs == msgs[..n] + [msgs[n]];
    }
  }

  lemma {:induction false} TurnsAreDistinct(msgs: seq<Message>)
    ensures forall i, j :: 0 <= i < j < |Turns(msgs)| ==> Turns(msgs)[i] != Turns(msgs)[j]
  {
    if msgs != [] {
      TurnsAreDistinct(msgs[..|msgs| - 1]);
    }
  }

  /** Turns keep their numbers as the history grows. */
  lemma {:induction false} TurnsGrow(a: seq<Message>, b: seq<Message>)
    ensures |Turns(a)| <= |Turns(a + b)| && Turns(a + b)[..|Turns(a)|] == Turns(a)
  {
    if b == [] {
      assert a + b == a;
    } else {
      TurnsGrow(a, b[..|b| - 1]);
      assert (a + b)[..|a + b| - 1] == a + b[..|b| - 1];
    }
  }

  // The turn view holds exactly the session's turns, numbered by first appearance, each
  // with the marker of its hash.
  ghost predicate IsViewOf(su: SessionTurns, msgs: seq<Message>, stamp: string, mark: Marker) {
    var turns := Turns(msgs);
    && |su.uuids| == |turns|
    && (forall h :: h in su.hashToTurn <==> h in turns)
    && (forall t: nat :: t < |turns| ==> turns[t] in su.hashToTurn && su.hashToTurn[turns[t]] == t)
    && (forall t: nat :: t < |turns| ==> su.uuids[t] == mark(turns[t], stamp))
  }

  lemma ViewPushes(su: SessionTurns, msgs: seq<Message>, m: Message, stamp: string, mark: Marker)
    requires IsViewOf(su, msgs, stamp, mark)
    ensures IsViewOf(if Qualifies(m) && m.hash !in su.hashToTurn
                     then SessionTurns(su.hashToTurn[m.hash := |su.uuids|], su.uuids + [mark(m.hash, stamp)]) else su,
                     msgs + [m], stamp, mark)
  {
    assert (msgs + [m])[..|msgs|] == msgs;
  }

  /** One walk over all messages of all requests of all instances, in file order. */
  method BuildSessionUUIDs(instances: seq<seq<seq<Message>>>, stamp: string, mark: Marker) returns (r: Option<SessionTurns>)
    ensures r.None? <==> Turns(AllMessages(instances)) == []
    ensures r.Some? ==> IsViewOf(r.value, AllMessages(instances), stamp, mark)
  {
    var su := SessionTurns(map[], []);
    for i := 0 to |instances|
      invariant IsViewOf(su, AllMessages(instances[..i]), stamp, mark)
    {
      assert instances[..i + 1][..i] == instances[..i];
      ghost var done := AllMessages(instances[..i]);
      assert done + Flat(instances[i][..0]) == done;
      for j := 0 to |instances[i]|
        invariant IsViewOf(su, done + Flat(instances[i][..j]), stamp, mark)
      {
        assert instances[i][..j + 1][..j] == instances[i][..j];
        su := WalkRequest(instances[i][j], su, done + Flat(instances[i][..j]), stamp, mark);
        assert done + Flat(instances[i][..j]) + instances[i][j] == done + Flat(instances[i][..j + 1]);
      }
      assert instances[i][..|instances[i]|] == instances[i];
    }
    assert instances[..|instances|] == instances;
    return if |su.uuids| == 0 then None else Some(su);
  }

  method WalkRequest(msgs: seq<Message>, su0: SessionTurns, ghost done: seq<Message>, stamp: string, mark: Marker)
    returns (su: SessionTurns)
    requires IsViewOf(su0, done, stamp, mark)
    ensures IsViewOf(su, done + msgs, stamp, mark)
  {
    hide IsViewOf;
    su := su0;
    assert done + msgs[..0] == done;
    for k := 0 to |msgs|
      invariant IsViewOf(su, done + msgs[..k], stamp, mark)
    {
      var m := msgs[k];
      ViewPushes(su, done + msgs[..k], m, stamp, mark);
      assert done + msgs[..k] + [m] == done + msgs[..k + 1];
      if !Qualifies(m) {
        continue;
      }
      if m.hash in su.hashToTurn {
        continue;
      }
      su := SessionTurns(su.hashToTurn[m.hash := |su.uuids|], su.uuids + [mark(m.hash, stamp)]);
    }
    assert msgs[..|msgs|] == msgs;
  }

  function Flat(reqs: seq<seq<Message>>): seq<Message> {
    if reqs == [] then [] else Flat(reqs[..|reqs| - 1]) + reqs[|reqs| - 1]
  }

  function AllMessages(instances: seq<seq<seq<Message>>>): seq<Message> {
    if instances == [] then [] else AllMessages(instances[..|instances| - 1]) + Flat(instances[|instances| - 1])
  }

  // ---------------------------------------------------------------- one request

  const RECITE_MAX_RECENT: nat := 39

  datatype Injection = Injection(stamps: map<string, Stamp>, labels: seq<string>, uuids: seq<string>, budgetShort: bool)

  // How many markers an output budget can carry; the division truncates.
  function ReciteCapacity(maxTokens: int): (n: nat)
    ensures n <= RECITE_MAX_RECENT + 1
    ensures n > 0 ==> 100 + 20 * n <= maxTokens
    ensures n == RECITE_MAX_RECENT + 1 || maxTokens < 100 + 20 * (n + 1)
  {
    var spare := maxTokens - 100;
    if spare < 20 then 0
    else if spare / 20 > RECITE_MAX_RECENT + 1 then RECITE_MAX_RECENT + 1
    else spare / 20
  }

  predicate Known(su: SessionTurns, h: string) {
    h in su.hashToTurn && su.hashToTurn[h] < |su.uuids|
  }

  function Label(t: nat): string {
    "turn-" + Itoa(t + 1)
  }

  function StampOf(su: SessionTurns, h: string): Stamp
    requires Known(su, h)
  {
    var t := su.hashToTurn[h];
    Stamp(t, su.uuids[t], Label(t))
  }

  ghost predicate IsStampsFor(stamps: map<string, Stamp>, su: SessionTurns, msgs: seq<Message>) {
    && (forall h :: h in stamps <==> Known(su, h) && exists m :: m in msgs && m.hash == h)
    && (forall h :: h in stamps ==> stamps[h] == StampOf(su, h))
  }

  // The turns visible in a request, in order of first appearance.
  function Visible(su: SessionTurns, msgs: seq<Message>): seq<nat> {
    if msgs == [] then []
    else
      var before, h := Visible(su, msgs[..|msgs| - 1]), msgs[|msgs| - 1].hash;
      if Known(su, h) && su.hashToTurn[h] !in before then before + [su.hashToTurn[h]] else before
  }

  ghost predicate Distinct(s: seq<nat>) {
    forall i, j :: 0 <= i < j < |s| ==> s[i] != s[j]
  }

  lemma {:induction false} VisibleFacts(su: SessionTurns, msgs: seq<Message>)
    ensures Distinct(Visible(su, msgs))
    ensures forall t :: t in Visible(su, msgs) ==> t < |su.uuids|
  {
    if msgs != [] {
      VisibleFacts(su, msgs[..|msgs| - 1]);
    }
  }

  /**
   * The window: the first visible turn, then the most recent others but the current one,
   * as many as the budget and the cap allow; the last visible turn is in it only when no
   * other is.
   */
  ghost predicate IsWindow(window: seq<nat>, visible: seq<nat>, capacity: nat)
    requires visible != []
  {
    var older := visible[..|visible| - 1];
    var room := if capacity - 1 > RECITE_MAX_RECENT then RECITE_MAX_RECENT else capacity - 1;
    if capacity <= 1 || |older| <= 1 then window == visible[..1]
    else if |older| <= room then window == older
    else window == visible[..1] + older[|older| - room..]
  }

  /** What a window comes to. */
  lemma WindowFacts(window: seq<nat>, visible: seq<nat>, capacity: nat)
    requires visible != [] && Distinct(visible) && capacity >= 1 && IsWindow(window, visible, capacity)
    ensures Distinct(window) && 1 <= |window| <= capacity && |window| <= RECITE_MAX_RECENT + 1
    ensures window[0] == visible[0] && forall t :: t in window ==> t in visible
    ensures |visible| > 1 ==> visible[|visible| - 1] !in window
  {
  }

  method Window(visible: seq<nat>, capacity: nat) returns (window: seq<nat>)
    requires visible != [] && Distinct(visible)
    ensures IsWindow(window, visible, capacity)
  {
    var first := visible[0];
    window := [first];
    if capacity > 1 {
      var recent: seq<nat> := [];
      if |visible| > 1 {
        recent := visible[..|visible| - 1];
      }
      var room := capacity - 1;
      if room > RECITE_MAX_RECENT {
        room := RECITE_MAX_RECENT;
      }
      if |recent| > room {
        recent := recent[|recent| - room..];
      }
      window := AppendOthers(first, recent);
    }
  }

  // The first turn, and then the recent ones that are not it.
  method AppendOthers(first: nat, recent: seq<nat>) returns (window: seq<nat>)
    requires forall k :: 0 < k < |recent| ==> recent[k] != first
    ensures window == [first] + if recent != [] && recent[0] == first then recent[1..] else recent
  {
    window := [first];
    ghost var skipped := if recent != [] && recent[0] == first then 1 else 0;
    for k := 0 to |recent|
      invariant window == [first] + if k <= skipped then [] else recent[skipped..k]
    {
      assert k >= skipped ==> recent[skipped..k + 1] == recent[skipped..k] + [recent[k]];
      if recent[k] != first {
        window := window + [recent[k]];
      }
    }
  }

  // The stamps and turns found in the first messages of a request.
  ghost predicate Found(stamps: map<string, Stamp>, visible: seq<nat>, su: SessionTurns, msgs: seq<Message>) {
    IsStampsFor(stamps, su, msgs) && visible == Visible(su, msgs)
  }

  lemma FindsOne(stamps: map<string, Stamp>, visible: seq<nat>, su: SessionTurns, msgs: seq<Message>, m: Message)
    requires Found(stamps, visible, su, msgs)
    ensures Found(if Known(su, m.hash) then stamps[m.hash := StampOf(su, m.hash)] else stamps,
                  if Known(su, m.hash) && su.hashToTurn[m.hash] !in visible then visible + [su.hashToTurn[m.hash]] else visible,
                  su, msgs + [m])
  {
    assert (msgs + [m])[..|msgs|] == msgs;
  }

  /**
   * What a request is injected with: every visible turn stamped, and the markers of the
   * window to recite, if the output budget can carry one.
   */
  method BuildInjection(enabled: bool, msgs: seq<Message>, turns: Option<SessionTurns>, maxTokens: int)
    returns (r: Option<Injection>)
    ensures r.Some? <==> enabled && turns.Some? && Visible(turns.value, msgs) != []
    ensures r.Some? ==>
              var su, inj := turns.value, r.value;
              && IsStampsFor(inj.stamps, su, msgs)
              && (inj.budgetShort <==> ReciteCapacity(maxTokens) < 1)
              && (if inj.budgetShort then inj.labels == inj.uuids == [] else
                    exists window :: IsWindow(window, Visible(su, msgs), ReciteCapacity(maxTokens)) && Recites(inj, su, window))
  {
    if !enabled || turns.None? || |turns.value.uuids| == 0 {
      if turns.Some? {
        NobodyVisible(turns.value, msgs);
      }
      return None;
    }
    hide Visible, IsStampsFor, IsWindow;
    var su := turns.value;
    var stamps, visible := FindTurns(su, msgs);
    if |visible| == 0 {
      return None;
    }
    var capacity := ReciteCapacity(maxTokens);
    if capacity < 1 {
      return Some(Injection(stamps, [], [], true));
    }
    VisibleFacts(su, msgs);
    var window := Window(visible, capacity);
    WindowFacts(window, visible, capacity);
    forall i | 0 <= i < |window| ensures window[i] < |su.uuids| {
      assert window[i] in window;
    }
    var labels := seq(|window|, i requires 0 <= i < |window| => Label(window[i]));
    var uuids := Markers(su, window);
    r := Some(Injection(stamps, labels, uuids, false));
    assert Recites(r.value, su, window);
  }

  function Markers(su: SessionTurns, window: seq<nat>): (r: seq<string>)
    requires forall i :: 0 <= i < |window| ==> window[i] < |su.uuids|
    ensures |r| == |window| && forall i :: 0 <= i < |window| ==> r[i] == su.uuids[window[i]]
  {
    seq(|window|, i requires 0 <= i < |window| => su.uuids[window[i]])
  }

  method FindTurns(su: SessionTurns, msgs: seq<Message>) returns (stamps: map<string, Stamp>, visible: seq<nat>)
    ensures IsStampsFor(stamps, su, msgs) && visible == Visible(su, msgs)
  {
    stamps, visible := map[], [];
    for k := 0 to |msgs|
      invariant Found(stamps, visible, su, msgs[..k])
    {
      var h := msgs[k].hash;
      FindsOne(stamps, visible, su, msgs[..k], msgs[k]);
      assert msgs[..k] + [msgs[k]] == msgs[..k + 1];
      if !Known(su, h) {
        continue;
      }
      stamps := stamps[h := StampOf(su, h)];
      if su.hashToTurn[h] !in visible {
        visible := visible + [su.hashToTurn[h]];
      }
    }
    assert msgs[..|msgs|] == msgs;
  }

  lemma {:induction false} NobodyVisible(su: SessionTurns, msgs: seq<Message>)
    ensures |su.uuids| == 0 ==> Visible(su, msgs) == []
  {
    if msgs != [] {
      NobodyVisible(su, msgs[..|msgs| - 1]);
    }
  }

  ghost predicate Recites(inj: Injection, su: SessionTurns, window: seq<nat>) {
    && |inj.labels| == |inj.uuids| == |window|
    && forall i :: 0 <= i < |window| ==> window[i] < |su.uuids| && inj.uuids[i] == su.uuids[window[i]] && inj.labels[i] == Label(window[i])
  }

  /** A turn is stamped alike in every request of its session that carries it. */
  lemma StampsAgree(su: SessionTurns, a: seq<Message>, b: seq<Message>, sa: map<string, Stamp>, sb: map<string, Stamp>, m: Message)
    requires IsStampsFor(sa, su, a) && IsStampsFor(sb, su, b) && m in a && m in b
    ensures m.hash in sa <==> m.hash in sb
    ensures m.hash in sa ==> sa[m.hash] == sb[m.hash]
  {
  }

  /** In one session, different turns have different labels, and each turn its own hash's marker. */
  lemma StampsAreTheirTurns(su: SessionTurns, session: seq<Message>, stamp: string, mark: Marker, g: string, h: string)
    requires IsViewOf(su, session, stamp, mark) && Known(su, g) && Known(su, h)
    ensures StampOf(su, h).uuid == mark(h, stamp)
    ensures g != h ==> StampOf(su, g).idx != StampOf(su, h).idx && StampOf(su, g).tag != StampOf(su, h).tag
  {
    var turns := Turns(session);
    var i: nat :| i < |turns| && turns[i] == g;
    var j: nat :| j < |turns| && turns[j] == h;
    if Label(su.hashToTurn[g]) == Label(su.hashToTurn[h]) {
      LabelIsInjective(su.hashToTurn[g], su.hashToTurn[h]);
    }
  }

  lemma LabelIsInjective(t: nat, u: nat)
    requires Label(t) == Label(u)
    ensures t == u
  {
    assert Label(t)[5..] == Itoa(t + 1) && Label(u)[5..] == Itoa(u + 1);
    ItoaIsInjective(t + 1, u + 1);
  }
}
