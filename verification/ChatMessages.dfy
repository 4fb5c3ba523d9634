// The messages a request is rebuilt into (benchmark/replay_router_wire.go).

module ChatMessages {
  import opened Options
  import opened Injections

  // A content block. An image or unknown block becomes text.
  datatype Block =
    | Text(text: string)
    | ToolUse(id: string, name: string, arguments: string)
    | ToolResult(callId: string, content: string)
    | Thinking(text: string)

  datatype Call = Call(id: string, name: string, arguments: string)

  datatype ChatMessage =
    | Assistant(content: string, calls: seq<Call>)
    | Tool(callId: string, content: string)
    | Plain(role: string, content: string)

  // Text synthesized for a block of a message (its hash and position, and what the text is
  // for), a tool's name, and a message's byte budget: deterministic functions of their
  // arguments about which nothing else is known.
  datatype Synth = Synth(text: (string, nat, string, int) -> string, name: (string, nat) -> string,
                         args: (string, nat) -> string, budget: (int, int) -> int)

  // ---------------------------------------------------------------- content blocks

  function CountOf(types: seq<string>, t: string): nat {
    if types == [] then 0 else CountOf(types[..|types| - 1], t) + if types[|types| - 1] == t then 1 else 0
  }

  function IdAt(ids: seq<string>, n: nat): string {
    if n < |ids| then ids[n] else ""
  }

  // Bytes for each text block, after an allowance for every other block.
  function PerText(env: Synth, m: Message): int {
    var nText := CountOf(m.blockTypes, "text");
    var budget := env.budget(m.bytes, m.tokens);
    var left := (if budget < 0 then 0 else budget) - 80 * (|m.blockTypes| - nText);
    if nText == 0 then 0 else (if left < nText * 4 then nText * 4 else left) / nText
  }

  // Block i: the k-th tool block of its kind carries the k-th captured id.
  function BlockAt(env: Synth, m: Message, i: nat): Block
    requires i < |m.blockTypes|
  {
    var t, before, n := m.blockTypes[i], m.blockTypes[..i], PerText(env, m);
    if t == "text" then Text(env.text(m.hash, i, "", n))
    else if t == "tool_use" then ToolUse(IdAt(m.toolUseIds, CountOf(before, t)), env.name(m.hash, i), env.args(m.hash, i))
    else if t == "tool_result" then ToolResult(IdAt(m.toolResultIds, CountOf(before, t)), env.text(m.hash, i, ":result", n))
    else if t == "thinking" then Thinking(env.text(m.hash, i, ":thinking", n))
    else if t == "image" then Text("[image placeholder]")
    else Text(env.text(m.hash, i, ":fallback", n))
  }

  ghost predicate AreBlocks(env: Synth, m: Message, out: seq<Block>) {
    |out| == |m.blockTypes| && forall i: nat :: i < |out| ==> out[i] == BlockAt(env, m, i)
  }

  function MarkerText(stamp: Stamp): string {
    "\n\n[" + stamp.tag + " id: " + stamp.uuid + "]"
  }

  // The marker goes at the end of the last text block and nowhere else; without one there
  // is nothing to mark.
  ghost predicate IsStamped(was: seq<Block>, out: seq<Block>, stamp: Stamp) {
    && |out| == |was|
    && forall i :: 0 <= i < |was| ==>
         out[i] == if was[i].Text? && (forall j :: i < j < |was| ==> !was[j].Text?) then Text(was[i].text + MarkerText(stamp)) else was[i]
  }

  method StampLastText(was: seq<Block>, stamp: Stamp) returns (out: seq<Block>)
    ensures IsStamped(was, out, stamp)
  {
    var i := |was| - 1;
    while i >= 0 && !was[i].Text?
      invariant -1 <= i < |was|
      invariant forall j :: i < j < |was| ==> !was[j].Text?
    {
      i := i - 1;
    }
    out := if i >= 0 then was[i := Text(was[i].text + MarkerText(stamp))] else was;
    forall k | 0 <= k < |was|
      ensures out[k] == if was[k].Text? && (forall j :: k < j < |was| ==> !was[j].Text?) then Text(was[k].text + MarkerText(stamp)) else was[k]
    {
      if k < i {
        assert was[i].Text?;
      }
    }
  }

  lemma StampedOnce(was: seq<Block>, a: seq<Block>, b: seq<Block>, stamp: Stamp)
    requires IsStamped(was, a, stamp) && IsStamped(was, b, stamp)
    ensures a == b
  {
  }

  ghost predicate IsContent(env: Synth, m: Message, stamps: map<string, Stamp>, out: seq<Block>) {
    exists was :: AreBlocks(env, m, was) && if m.hash in stamps then IsStamped(was, out, stamps[m.hash]) else out == was
  }

  /** The content of a message depends on the message and its own stamp alone. */
  lemma ContentIsDetermined(env: Synth, m: Message, s: map<string, Stamp>, t: map<string, Stamp>, a: seq<Block>, b: seq<Block>)
    requires IsContent(env, m, s, a) && IsContent(env, m, t, b)
    requires m.hash in s <==> m.hash in t
    requires m.hash in s ==> s[m.hash] == t[m.hash]
    ensures a == b
  {
    var was :| AreBlocks(env, m, was) && if m.hash in s then IsStamped(was, a, s[m.hash]) else a == was;
    var also :| AreBlocks(env, m, also) && if m.hash in t then IsStamped(also, b, t[m.hash]) else b == also;
    assert was == also;
    if m.hash in s {
      StampedOnce(was, a, b, s[m.hash]);
    }
  }

  method BuildMessageContent(env: Synth, m: Message, stamps: map<string, Stamp>) returns (out: seq<Block>)
    ensures IsContent(env, m, stamps, out)
  {
    var was := BuildBlocks(env, m);
    out := was;
    if m.hash in stamps {
      out := StampLastText(was, stamps[m.hash]);
    }
  }

  method BuildBlocks(env: Synth, m: Message) returns (out: seq<Block>)
    ensures AreBlocks(env, m, out)
  {
    var perText := PerText(env, m);
    var tuIdx: nat, trIdx: nat := 0, 0;
    out := [];
    for i := 0 to |m.blockTypes|
      invariant |out| == i && forall k: nat :: k < i ==> out[k] == BlockAt(env, m, k)
      invariant var n := CountOf(m.blockTypes[..i], "tool_use"); tuIdx == if n < |m.toolUseIds| then n else |m.toolUseIds|
      invariant var n := CountOf(m.blockTypes[..i], "tool_result"); trIdx == if n < |m.toolResultIds| then n else |m.toolResultIds|
    {
      assert m.blockTypes[..i + 1][..i] == m.blockTypes[..i];
      var b;
      b, tuIdx, trIdx := BuildBlock(env, m, i, perText, tuIdx, trIdx);
      out := out + [b];
    }
  }

  method BuildBlock(env: Synth, m: Message, i: nat, perText: int, tu: nat, tr: nat) returns (b: Block, tuIdx: nat, trIdx: nat)
    requires i < |m.blockTypes| && perText == PerText(env, m)
    requires var n := CountOf(m.blockTypes[..i], "tool_use"); tu == if n < |m.toolUseIds| then n else |m.toolUseIds|
    requires var n := CountOf(m.blockTypes[..i], "tool_result"); tr == if n < |m.toolResultIds| then n else |m.toolResultIds|
    ensures b == BlockAt(env, m, i)
    ensures tuIdx == if m.blockTypes[i] == "tool_use" && tu < |m.toolUseIds| then tu + 1 else tu
    ensures trIdx == if m.blockTypes[i] == "tool_result" && tr < |m.toolResultIds| then tr + 1 else tr
  {
    hide PerText;
    tuIdx, trIdx := tu, tr;
    var t := m.blockTypes[i];
    if t == "text" {
      b := Text(env.text(m.hash, i, "", perText));
    } else if t == "tool_use" {
      var id := "";
      if tuIdx < |m.toolUseIds| {
        id := m.toolUseIds[tuIdx];
        tuIdx := tuIdx + 1;
      }
      b := ToolUse(id, env.name(m.hash, i), env.args(m.hash, i));
    } else if t == "tool_result" {
      var id := "";
      if trIdx < |m.toolResultIds| {
        id := m.toolResultIds[trIdx];
        trIdx := trIdx + 1;
      }
      b := ToolResult(id, env.text(m.hash, i, ":result", perText));
    } else if t == "thinking" {
      b := Thinking(env.text(m.hash, i, ":thinking", perText));
    } else if t == "image" {
      b := Text("[image placeholder]");
    } else {
      b := Text(env.text(m.hash, i, ":fallback", perText));
    }
  }

  // ---------------------------------------------------------------- chat messages

  function RoleOrUser(role: string): string {
    if role == "user" || role == "assistant" || role == "system" then role else "user"
  }

  function Join(parts: seq<string>): string {
    if parts == [] then "" else if |parts| == 1 then parts[0] else Join(parts[..|parts| - 1]) + "\n" + parts[|parts| - 1]
  }

  // An assistant's calls and text; a tool result in it is dropped.
  function CallsOf(blocks: seq<Block>): seq<Call> {
    if blocks == [] then []
    else
      var b := blocks[|blocks| - 1];
      CallsOf(blocks[..|blocks| - 1]) + if b.ToolUse? then [Call(b.id, b.name, b.arguments)] else []
  }

  function SpokenOf(blocks: seq<Block>): seq<string> {
    if blocks == [] then []
    else
      var b := blocks[|blocks| - 1];
      SpokenOf(blocks[..|blocks| - 1]) + if b.Text? || b.Thinking? then [b.text] else []
  }

  // Anyone else's tool results and text; a result whose call was not seen is text.
  predicate Answers(b: Block, seen: set<string>) {
    b.ToolResult? && b.callId != "" && b.callId in seen
  }

  function ToolsOf(blocks: seq<Block>, seen: set<string>): seq<ChatMessage> {
    if blocks == [] then []
    else
      var b := blocks[|blocks| - 1];
      ToolsOf(blocks[..|blocks| - 1], seen) + if Answers(b, seen) then [Tool(b.callId, b.content)] else []
  }

  function WrittenOf(blocks: seq<Block>, seen: set<string>): seq<string> {
    if blocks == [] then []
    else
      var b := blocks[|blocks| - 1];
      WrittenOf(blocks[..|blocks| - 1], seen)
      + match b
        case Text(text) => [text]
        case Thinking(text) => [text]
        case ToolResult(_, content) => if Answers(b, seen) then [] else [content]
        case ToolUse(_, _, _) => []
  }

  function IdsOf(calls: seq<Call>): set<string> {
    set c | c in calls :: c.id
  }

  function Emission(role: string, blocks: seq<Block>, seen: set<string>): seq<ChatMessage> {
    if role == "assistant" then [Assistant(Join(SpokenOf(blocks)), CallsOf(blocks))]
    else
      var tools, texts := ToolsOf(blocks, seen), WrittenOf(blocks, seen);
      tools + if |texts| > 0 || |tools| == 0 then [Plain(role, Join(texts))] else []
  }

  function SeenAfter(role: string, blocks: seq<Block>, seen: set<string>): set<string> {
    if role == "assistant" then seen + IdsOf(CallsOf(blocks)) else seen
  }

  // The conversion as a relation: `out` and `seen` are what the messages come to.
  ghost predicate Converts(env: Synth, msgs: seq<Message>, stamps: map<string, Stamp>, out: seq<ChatMessage>, seen: set<string>)
    decreases |msgs|
  {
    if msgs == [] then out == [] && seen == {}
    else
      exists before: seq<ChatMessage>, was: set<string>, blocks: seq<Block> ::
        ConvertsLast(env, msgs, stamps, before, was, blocks, out, seen)
  }

  ghost predicate ConvertsLast(env: Synth, msgs: seq<Message>, stamps: map<string, Stamp>, before: seq<ChatMessage>,
                               was: set<string>, blocks: seq<Block>, out: seq<ChatMessage>, seen: set<string>)
    requires msgs != []
    decreases |msgs|, 1
  {
    var m := msgs[|msgs| - 1];
    && Converts(env, msgs[..|msgs| - 1], stamps, before, was)
    && IsContent(env, m, stamps, blocks)
    && out == before + Emission(RoleOrUser(m.role), blocks, was)
    && seen == SeenAfter(RoleOrUser(m.role), blocks, was)
  }

  /** An assistant message from its blocks, and the call ids it makes known. */
  method BuildAssistant(blocks: seq<Block>, seen0: set<string>) returns (msg: ChatMessage, seen: set<string>)
    ensures [msg] == Emission("assistant", blocks, seen0) && seen == SeenAfter("assistant", blocks, seen0)
  {
    var textParts: seq<string>, calls: seq<Call> := [], [];
    seen := seen0;
    for i := 0 to |blocks|
      invariant textParts == SpokenOf(blocks[..i]) && calls == CallsOf(blocks[..i])
      invariant seen == seen0 + IdsOf(calls)
    {
      assert blocks[..i + 1][..i] == blocks[..i];
      match blocks[i]
      case ToolUse(id, name, arguments) =>
        calls := calls + [Call(id, name, arguments)];
        seen := seen + {id};
      case Text(text) => textParts := textParts + [text];
      case Thinking(text) => textParts := textParts + [text];
      case ToolResult(_, _) =>
    }
    assert blocks[..|blocks|] == blocks;
    msg := Assistant(Join(textParts), calls);
  }

  /** Any other message: answers to known calls first, then the text. */
  method BuildOther(role: string, blocks: seq<Block>, seen: set<string>) returns (out: seq<ChatMessage>)
    requires role != "assistant"
    ensures out == Emission(role, blocks, seen)
  {
    var textParts: seq<string>, toolMsgs: seq<ChatMessage> := [], [];
    for i := 0 to |blocks|
      invariant textParts == WrittenOf(blocks[..i], seen) && toolMsgs == ToolsOf(blocks[..i], seen)
    {
      assert blocks[..i + 1][..i] == blocks[..i];
      match blocks[i]
      case ToolResult(id, content) =>
        if id != "" && id in seen {
          toolMsgs := toolMsgs + [Tool(id, content)];
        } else {
          textParts := textParts + [content];
        }
      case Text(text) => textParts := textParts + [text];
      case Thinking(text) => textParts := textParts + [text];
      case ToolUse(_, _, _) =>
    }
    assert blocks[..|blocks|] == blocks;
    out := toolMsgs;
    if |textParts| > 0 || |toolMsgs| == 0 {
      out := out + [Plain(role, Join(textParts))];
    }
  }

  method BuildOpenAIMessages(env: Synth, msgs: seq<Message>, stamps: map<string, Stamp>) returns (out: seq<ChatMessage>)
    ensures exists seen :: Converts(env, msgs, stamps, out, seen)
  {
    hide IsContent, Emission, SeenAfter;
    out := [];
    var ids: set<string> := {};
    for i := 0 to |msgs|
      invariant Converts(env, msgs[..i], stamps, out, ids)
    {
      assert msgs[..i + 1][..i] == msgs[..i];
      ghost var before, was := out, ids;
      var blocks := BuildMessageContent(env, msgs[i], stamps);
      var role := RoleOrUser(msgs[i].role);
      if role == "assistant" {
        var msg;
        msg, ids := BuildAssistant(blocks, ids);
        out := out + [msg];
      } else {
        var more := BuildOther(role, blocks, ids);
        out := out + more;
        OthersMakeNothingKnown(role, blocks, ids);
      }
      assert ConvertsLast(env, msgs[..i + 1], stamps, before, was, blocks, out, ids);
    }
    assert msgs[..|msgs|] == msgs;
  }

  lemma OthersMakeNothingKnown(role: string, blocks: seq<Block>, seen: set<string>)
    requires role != "assistant"
    ensures SeenAfter(role, blocks, seen) == seen
  {
  }

  // ---------------------------------------------------------------- what it means

  // Two stamp tables agree on the messages.
  ghost predicate Agree(msgs: seq<Message>, s: map<string, Stamp>, t: map<string, Stamp>) {
    forall m :: m in msgs ==> (m.hash in s <==> m.hash in t) && (m.hash in s ==> s[m.hash] == t[m.hash])
  }

  lemma {:induction false} ConversionIsDetermined(env: Synth, msgs: seq<Message>, s: map<string, Stamp>, t: map<string, Stamp>,
                                                  a: seq<ChatMessage>, sa: set<string>, b: seq<ChatMessage>, sb: set<string>)
    requires Converts(env, msgs, s, a, sa) && Converts(env, msgs, t, b, sb) && Agree(msgs, s, t)
    ensures a == b && sa == sb
    decreases |msgs|
  {
    if msgs != [] {
      hide IsContent, Emission, SeenAfter;
      var n := |msgs| - 1;
      var before, was, blocks :| ConvertsLast(env, msgs, s, before, was, blocks, a, sa);
      var before', was', blocks' :| ConvertsLast(env, msgs, t, before', was', blocks', b, sb);
      assert msgs[n] in msgs && forall m :: m in msgs[..n] ==> m in msgs;
      ConversionIsDetermined(env, msgs[..n], s, t, before, was, before', was');
      ContentIsDetermined(env, msgs[n], s, t, blocks, blocks');
    }
  }

  // A conversion of more messages contains one of fewer.
  lemma {:induction false} ConvertsPrefix(env: Synth, a: seq<Message>, b: seq<Message>, s: map<string, Stamp>, out: seq<ChatMessage>, seen: set<string>)
    returns (first: seq<ChatMessage>, known: set<string>)
    requires Converts(env, a + b, s, out, seen)
    ensures Converts(env, a, s, first, known) && first <= out
    decreases |b|
  {
    if b == [] {
      assert a + b == a;
      first, known := out, seen;
    } else {
      var msgs := a + b;
      var before, was, blocks :| ConvertsLast(env, msgs, s, before, was, blocks, out, seen);
      assert msgs[..|msgs| - 1] == a + b[..|b| - 1];
      first, known := ConvertsPrefix(env, a, b[..|b| - 1], s, before, was);
    }
  }

  /**
   * A longer history is built into messages that begin with what the shorter one was built
   * into, stamps included.
   */
  lemma HistoryIsAPrefix(env: Synth, su: SessionTurns, a: seq<Message>, b: seq<Message>,
                         sa: map<string, Stamp>, sb: map<string, Stamp>,
                         outA: seq<ChatMessage>, seenA: set<string>, outB: seq<ChatMessage>, seenB: set<string>)
    requires IsStampsFor(sa, su, a) && IsStampsFor(sb, su, a + b)
    requires Converts(env, a, sa, outA, seenA) && Converts(env, a + b, sb, outB, seenB)
    ensures outA <= outB
  {
    forall m | m in a ensures (m.hash in sa <==> m.hash in sb) && (m.hash in sa ==> sa[m.hash] == sb[m.hash]) {
      StampsAgree(su, a, a + b, sa, sb, m);
    }
    var first, known := ConvertsPrefix(env, a, b, sb, outB, seenB);
    ConversionIsDetermined(env, a, sa, sb, outA, seenA, first, known);
  }

  // Every id known by now was announced by an assistant message of `out`.
  ghost predicate Announced(out: seq<ChatMessage>, id: string) {
    exists k: nat :: k < |out| && out[k].Assistant? && id in IdsOf(out[k].calls)
  }

  ghost predicate RefersBack(out: seq<ChatMessage>, j: nat)
    requires j < |out|
  {
    out[j].Tool? ==> out[j].callId != "" && Announced(out[..j], out[j].callId)
  }

  lemma AnnouncedStays(out: seq<ChatMessage>, more: seq<ChatMessage>, id: string)
    requires Announced(out, id)
    ensures Announced(out + more, id)
  {
    var k: nat :| k < |out| && out[k].Assistant? && id in IdsOf(out[k].calls);
    assert (out + more)[k] == out[k];
  }

  lemma {:induction false} ToolsAnswer(blocks: seq<Block>, seen: set<string>)
    ensures forall t :: t in ToolsOf(blocks, seen) ==> t.Tool? && t.callId != "" && t.callId in seen
  {
    if blocks != [] {
      ToolsAnswer(blocks[..|blocks| - 1], seen);
    }
  }

  /** Every tool message answers a call that an earlier assistant message made. */
  lemma {:induction false} ToolsReferBack(env: Synth, msgs: seq<Message>, s: map<string, Stamp>, out: seq<ChatMessage>, seen: set<string>)
    requires Converts(env, msgs, s, out, seen)
    ensures forall j: nat :: j < |out| ==> RefersBack(out, j)
    ensures forall id :: id in seen <==> Announced(out, id)
    decreases |msgs|
  {
    if msgs != [] {
      hide IsContent;
      var before, was, blocks :| ConvertsLast(env, msgs, s, before, was, blocks, out, seen);
      ToolsReferBack(env, msgs[..|msgs| - 1], s, before, was);
      MessageRefersBack(before, was, RoleOrUser(msgs[|msgs| - 1].role), blocks);
    }
  }

  lemma AnnouncedInOneOf(before: seq<ChatMessage>, more: seq<ChatMessage>, id: string)
    requires Announced(before + more, id)
    ensures Announced(before, id) || exists msg :: msg in more && msg.Assistant? && id in IdsOf(msg.calls)
  {
    var k: nat :| k < |before + more| && (before + more)[k].Assistant? && id in IdsOf((before + more)[k].calls);
    if k < |before| {
      assert before[k] == (before + more)[k];
    } else {
      assert more[k - |before|] == (before + more)[k];
    }
  }

  lemma AnnouncedNow(role: string, blocks: seq<Block>, was: set<string>, msg: ChatMessage)
    requires msg in Emission(role, blocks, was) && msg.Assistant?
    ensures role == "assistant" && msg.calls == CallsOf(blocks)
  {
    ToolsAnswer(blocks, was);
  }

  lemma MessageRefersBack(before: seq<ChatMessage>, was: set<string>, role: string, blocks: seq<Block>)
    requires forall j: nat :: j < |before| ==> RefersBack(before, j)
    requires forall id :: id in was <==> Announced(before, id)
    ensures var out := before + Emission(role, blocks, was);
            && (forall j: nat :: j < |out| ==> RefersBack(out, j))
            && (forall id :: id in SeenAfter(role, blocks, was) <==> Announced(out, id))
  {
    var more := Emission(role, blocks, was);
    var out := before + more;
    ToolsAnswer(blocks, was);
    forall j: nat | j < |out| ensures RefersBack(out, j) {
      if j < |before| {
        assert out[..j] == before[..j] && RefersBack(before, j);
      } else {
        assert out[..j] == before + more[..j - |before|];
        if out[j].Tool? {
          assert out[j] == more[j - |before|];
          assert out[j] in ToolsOf(blocks, was);
          AnnouncedStays(before, more[..j - |before|], out[j].callId);
        }
      }
    }
    forall id ensures id in SeenAfter(role, blocks, was) <==> Announced(out, id) {
      if id in was {
        AnnouncedStays(before, more, id);
      }
      if role == "assistant" && id in IdsOf(CallsOf(blocks)) {
        assert out[|before|] == more[0];
      }
      if Announced(out, id) {
        AnnouncedInOneOf(before, more, id);
        forall msg | msg in more && msg.Assistant? ensures role == "assistant" && msg.calls == CallsOf(blocks) {
          AnnouncedNow(role, blocks, was, msg);
        }
      }
    }
  }

  function CountIf(blocks: seq<Block>, calls: bool): nat {
    if blocks == [] then 0
    else
      var b := blocks[|blocks| - 1];
      CountIf(blocks[..|blocks| - 1], calls) + if (calls && b.ToolUse?) || (!calls && b.ToolResult?) then 1 else 0
  }

  /** Nothing is dropped but tool results in an assistant's message and calls in anyone else's. */
  lemma {:induction false} OnlyMisplacedToolsAreDropped(blocks: seq<Block>, seen: set<string>)
    ensures |SpokenOf(blocks)| + |CallsOf(blocks)| == |blocks| - CountIf(blocks, false)
    ensures |WrittenOf(blocks, seen)| + |ToolsOf(blocks, seen)| == |blocks| - CountIf(blocks, true)
  {
    if blocks != [] {
      OnlyMisplacedToolsAreDropped(blocks[..|blocks| - 1], seen);
    }
  }

  function WithContent(msg: ChatMessage, content: string): ChatMessage {
    match msg
    case Assistant(_, calls) => Assistant(content, calls)
    case Tool(callId, _) => Tool(callId, content)
    case Plain(role, _) => Plain(role, content)
  }

  /** The tail ask changes at most the last message: everything before it stays shareable. */
  method AppendTail(msgs: seq<ChatMessage>, text: string) returns (out: seq<ChatMessage>)
    ensures text == "" ==> out == msgs
    ensures text != "" && (msgs == [] || msgs[|msgs| - 1].Assistant?) ==> out == msgs + [Plain("user", text)]
    ensures text != "" && msgs != [] && !msgs[|msgs| - 1].Assistant? ==>
              && |out| == |msgs| && out[..|msgs| - 1] == msgs[..|msgs| - 1]
              && var last := msgs[|msgs| - 1];
                 out[|msgs| - 1] == WithContent(last, if last.content == "" then text else last.content + "\n\n" + text)
  {
    if text == "" {
      return msgs;
    }
    if |msgs| == 0 {
      return msgs + [Plain("user", text)];
    }
    var last := msgs[|msgs| - 1];
    if last.Assistant? {
      return msgs + [Plain("user", text)];
    }
    if last.content != "" {
      last := WithContent(last, last.content + "\n\n" + text);
    } else {
      last := WithContent(last, text);
    }
    out := msgs[|msgs| - 1 := last];
  }
}
