/** Reasoning in runs of the translator. The part of a session that concerns it is a small machine of its own; here
    are that machine, the proof that sessions follow it, and what it says about when a reasoning text is delivered. */
module StreamThinking {
  import opened Text
  import opened StreamReader
  import opened StreamSession
  import opened StreamTheorems

  /** `thoughts` are the texts of the thinking blocks the consumer sees, in order; the last is still open if `held`.
      `completed` are the keys under which blocks were finalized. */
  datatype Mind = Mind(
    thoughts: seq<string>, held: bool, key: string, signature: string, pending: bool, completed: set<string>)
  {
    /** A block that is or will be finalized under `k`. */
    predicate Claims(k: string) {
      k in completed || (held && key == k)
    }
  }

  function Thoughts(blocks: seq<Block>): seq<string> {
    if blocks == [] then []
    else
      var n := |blocks| - 1;
      Thoughts(blocks[..n]) + if blocks[n].kind == ThinkingKind then [blocks[n].content] else []
  }

  function MindOf(s: Session): Mind {
    Mind(Thoughts(s.client.blocks), s.client.thinking.Some?, s.reasoningKey, s.signature, s.stopPending, s.completed)
  }

  /** A held thinking block is the newest block. */
  predicate HeldLast(s: Session) {
    s.client.thinking.Some? ==>
      && s.client.thinking.value == |s.client.blocks| - 1
      && s.client.blocks != [] && s.client.blocks[|s.client.blocks| - 1].kind == ThinkingKind
  }

  // ---- the machine ----

  function Shut(cfg: Config, m: Mind, clear: bool): Mind {
    if !cfg.thinking then m
    else if !m.held then (if clear then m.(signature := "") else m)
    else m.(held := false, pending := false,
            completed := if m.key != "" then m.completed + {m.key} else m.completed,
            signature := if clear then "" else m.signature, key := if clear then "" else m.key)
  }

  /** Text or a tool call begins. */
  function Cut(cfg: Config, m: Mind): Mind {
    if m.held then Shut(cfg, m, true) else m
  }

  function Opened(cfg: Config, m: Mind): Mind {
    if !cfg.thinking || m.held then m else m.(thoughts := m.thoughts + [""], held := true, pending := false)
  }

  function Part(cfg: Config, m: Mind, key: string): Mind {
    if !cfg.thinking then m
    else Opened(cfg, (if m.held && m.pending then Shut(cfg, m, false) else m).(key := ReasoningKey(key)))
  }

  function Shown(cfg: Config, text: string): string {
    if cfg.thinking && !cfg.omitted then text else ""
  }

  /** The last thought goes on. */
  function Longer(thoughts: seq<string>, text: string): seq<string> {
    if thoughts == [] then [] else thoughts[|thoughts| - 1 := thoughts[|thoughts| - 1] + text]
  }

  function Added(cfg: Config, m: Mind, text: string): Mind {
    if Shown(cfg, text) == "" then m
    else var o := Opened(cfg, m); o.(thoughts := Longer(o.thoughts, text))
  }

  function Captured(cfg: Config, m: Mind, key: string, signature: string): Mind {
    if !cfg.thinking || signature == "" then m
    else m.(signature := signature, key := if TrimSpace(key) != "" then ReasoningKey(key) else m.key)
  }

  function KeyOf(item: Item, fallback: string): string
    requires item.Reasoning?
  {
    ReasoningKey(FirstNonEmpty([item.id, fallback]))
  }

  function Signature(m: Mind, item: Item): string
    requires item.Reasoning?
  {
    if item.encrypted == "" then m.signature else item.encrypted
  }

  /** The item's key is not completed and there is something to deliver. */
  predicate Says(cfg: Config, m: Mind, item: Item, fallback: string)
    requires item.Reasoning?
  {
    && cfg.thinking && KeyOf(item, fallback) !in m.completed
    && ((if cfg.omitted then "" else item.summary) != "" || Signature(m, item) != "")
  }

  function Said(cfg: Config, m: Mind, item: Item, fallback: string): Mind
    requires item.Reasoning?
  {
    if !Says(cfg, m, item, fallback) then m
    else
      var n := m.(key := KeyOf(item, fallback), signature := Signature(m, item));
      Shut(cfg, Added(cfg, Opened(cfg, n), if cfg.omitted then "" else item.summary), true)
  }

  /** A reasoning item's key in the events that announce it and end it. */
  function EventItemKey(at: Locator, item: Item): string
    requires item.Reasoning?
  {
    KeyOf(item, ReasoningEventKey(at))
  }

  function Named(cfg: Config, m: Mind, at: Locator, item: Item): Mind
    requires item.Reasoning?
  {
    var key := EventItemKey(at, item);
    Captured(cfg, m.(key := key), key, item.encrypted)
  }

  function Settled(cfg: Config, m: Mind, at: Locator, item: Item): Mind
    requires item.Reasoning?
  {
    var n := Named(cfg, m, at, item);
    if n.held then Shut(cfg, n, true) else Said(cfg, n, item, EventItemKey(at, item))
  }

  /** What an event other than a completed one does. Content may or may not cut the thinking short. */
  ghost predicate Thinks(cfg: Config, m: Mind, e: Event, r: Mind) {
    match e
    case ReasoningPartAdded(at) => r == Part(cfg, m, ReasoningEventKey(at))
    case ReasoningDelta(at, delta) => r == Added(cfg, if m.held then m else Part(cfg, m, ReasoningEventKey(at)), delta)
    case ReasoningPartDone => r == m.(pending := true)
    case ItemAdded(at, Reasoning(id, summary, encrypted)) => r == Named(cfg, m, at, Reasoning(id, summary, encrypted))
    case ItemDone(at, Reasoning(id, summary, encrypted)) => r == Settled(cfg, m, at, Reasoning(id, summary, encrypted))
    case OutputTextDelta(_, delta) => r == if delta == "" then m else Cut(cfg, m)
    case Done => r == m || r == Shut(cfg, m, true)
    case ResponseFailed(_, _) => r == m || r == Shut(cfg, m, true)
    case UpstreamError(_) => r == m || r == Shut(cfg, m, true)
    case Created(_, _, _) => r == m
    case _ => r == m || r == Cut(cfg, m)
  }

  // ---- thoughts and blocks ----

  lemma {:induction false} SameThoughts(a: seq<Block>, b: seq<Block>)
    requires |a| == |b|
    requires forall i | 0 <= i < |a| :: a[i].kind == b[i].kind && (a[i].kind == ThinkingKind ==> a[i].content == b[i].content)
    ensures Thoughts(a) == Thoughts(b)
  {
    if a != [] { SameThoughts(a[..|a| - 1], b[..|b| - 1]); }
  }

  lemma OneMoreThought(blocks: seq<Block>, b: Block)
    ensures Thoughts(blocks + [b]) == Thoughts(blocks) + if b.kind == ThinkingKind then [b.content] else []
  {
    assert (blocks + [b])[..|blocks|] == blocks;
  }

  lemma LongerThought(blocks: seq<Block>, text: string)
    requires blocks != [] && blocks[|blocks| - 1].kind == ThinkingKind
    ensures var n := |blocks| - 1;
      Thoughts(blocks[n := blocks[n].(content := blocks[n].content + text)]) == Longer(Thoughts(blocks), text)
  {
    var n := |blocks| - 1;
    var b := blocks[n].(content := blocks[n].content + text);
    assert blocks[n := b] == blocks[..n] + [b];
    OneMoreThought(blocks[..n], b);
  }

  // ---- sessions follow the machine ----

  /** `r` is a step of `s` that leaves the machine in `m`. */
  ghost predicate Comes(s: Session, r: Session, m: Mind) {
    r.cfg == s.cfg && (HeldLast(s) ==> HeldLast(r) && MindOf(r) == m)
  }

  lemma StartMind(s: Session, id: string, model: string)
    requires Live(s)
    ensures Comes(s, Start(s, id, model), MindOf(s))
  {
    hide WellFormed;
  }

  lemma SignAndStopThoughts(c: Client, i: int, signature: string)
    requires 0 <= i < |c.blocks| && c.thinking == Some(i)
    ensures Thoughts(SignAndStop(c, i, signature).blocks) == Thoughts(c.blocks)
  {
    SameThoughts(c.blocks, SignAndStop(c, i, signature).blocks);
  }

  lemma EndThinkingMind(s: Session, clear: bool)
    requires Live(s)
    ensures Comes(s, EndThinking(s, clear), Shut(s.cfg, MindOf(s), clear))
  {
    if s.client.thinking.Some? {
      HeldThinking(s);
      SignAndStopThoughts(s.client, s.client.thinking.value, s.signature);
    }
    hide WellFormed, Thoughts, SignAndStop;
  }

  lemma BeforeContentMind(s: Session)
    requires Live(s)
    ensures Comes(s, BeforeContent(s), Cut(s.cfg, MindOf(s)))
  {
    hide WellFormed, Thoughts, EndThinking, Shut;
    EndThinkingMind(s, true);
  }

  lemma OpenThinkingMind(s: Session)
    requires Live(s)
    ensures Comes(s, OpenThinking(s), Opened(s.cfg, MindOf(s)))
  {
    hide WellFormed, Thoughts;
    OneMoreThought(s.client.blocks, Block(ThinkingKind, "", "", "", "", true));
  }

  lemma AppendThought(o: Session, text: string)
    requires HeldLast(o) && o.client.thinking.Some?
    ensures var r := o.(client := o.client.Append(o.client.thinking.value, text));
      HeldLast(r) && MindOf(r) == MindOf(o).(thoughts := Longer(MindOf(o).thoughts, text))
  {
    hide Thoughts, Longer;
    LongerThought(o.client.blocks, text);
  }

  lemma AddThinkingMind(s: Session, text: string)
    requires Live(s)
    ensures Comes(s, AddThinking(s, text), Added(s.cfg, MindOf(s), text))
  {
    hide WellFormed, OpenThinking, Opened, MindOf, HeldLast, Longer;
    OpenThinkingMind(s);
    var o := OpenThinking(s);
    if Shown(s.cfg, text) != "" && HeldLast(s) {
      AppendThought(o, text);
    }
  }

  lemma StartPartMind(s: Session, key: string)
    requires Live(s)
    ensures Comes(s, StartThinkingPart(s, key), Part(s.cfg, MindOf(s), key))
  {
    hide WellFormed, Thoughts, EndThinking, OpenThinking, Opened, Shut, ReasoningKey;
    if s.cfg.thinking {
      EndThinkingMind(s, false);
      var t := if s.client.thinking.Some? && s.stopPending then EndThinking(s, false) else s;
      var u := t.(reasoningKey := ReasoningKey(key));
      ScalarsKeep(t, u);
      OpenThinkingMind(u);
    }
  }

  lemma CaptureMind(s: Session, key: string, signature: string)
    requires Live(s)
    ensures Comes(s, CaptureSignature(s, key, signature), Captured(s.cfg, MindOf(s), key, signature))
  {
    hide WellFormed, Thoughts, ReasoningKey;
  }

  lemma FinalReasoningMind(s: Session, item: Item, fallback: string)
    requires Live(s) && item.Reasoning?
    ensures Comes(s, FinalReasoning(s, item, fallback), Said(s.cfg, MindOf(s), item, fallback))
  {
    hide WellFormed, ReasoningKey, FirstNonEmpty, OpenThinking, AddThinking, EndThinking, Thoughts, Opened, Shut, Added;
    if Says(s.cfg, MindOf(s), item, fallback) {
      var t := s.(reasoningKey := KeyOf(item, fallback), signature := Signature(MindOf(s), item));
      ScalarsKeep(s, t);
      OpenThinkingMind(t);
      var o := OpenThinking(t);
      var summary := if s.cfg.omitted then "" else item.summary;
      AddThinkingMind(o, summary);
      EndThinkingMind(AddThinking(o, summary), true);
    }
  }

  // ---- text and tools ----

  lemma RegisterMind(t: Session, k: string, kind: Kind, callId: string, name: string)
    requires Writing(t) && t.client.thinking.None? && k !in t.table && kind == KeyKind(k)
    ensures Comes(t, Register(t, k, kind, callId, name), MindOf(t))
  {
    hide WellFormed, Thoughts;
    OneMoreThought(t.client.blocks, Block(kind, callId, name, "", "", true));
  }

  lemma OpenTextMind(s: Session, key: string)
    requires Writing(s)
    ensures Comes(s, OpenText(s, key), Cut(s.cfg, MindOf(s)))
  {
    hide WellFormed, Register, BeforeContent, Thoughts, Cut;
    BeforeContentMind(s);
    var t, k := BeforeContent(s), BlockKey(TextKind, key);
    if k !in t.table { RegisterMind(t, k, TextKind, "", ""); }
  }

  lemma OpenToolMind(s: Session, key: string, callId: string, name: string)
    requires Writing(s)
    ensures Comes(s, OpenTool(s, key, callId, name), Cut(s.cfg, MindOf(s)))
  {
    hide WellFormed, Register, BeforeContent, Thoughts, Cut;
    BeforeContentMind(s);
    var t, k := BeforeContent(s), BlockKey(ToolKind, FirstNonEmpty([key, callId]));
    if k !in t.table {
      RegisterMind(t, k, ToolKind, if callId == "" then TrimPrefix(k, "tool:") else callId, if name == "" then "tool" else name);
    }
  }

  lemma AppendOpenMind(s: Session, k: string, text: string)
    requires Writing(s) && s.client.thinking.None? && k in s.table
    ensures Comes(s, AppendOpen(s, k, text), MindOf(s))
  {
    TableBlock(s, k);
    var b := s.client.blocks[s.table[k]];
    OtherBlock(s.client.blocks, s.table[k], b.(content := b.content + text));
    hide WellFormed, Thoughts;
  }

  lemma AddTextMind(s: Session, key: string, text: string)
    requires Writing(s)
    ensures Comes(s, AddText(s, key, text), if text == "" then MindOf(s) else Cut(s.cfg, MindOf(s)))
  {
    hide WellFormed, OpenText, AppendOpen, Thoughts, Cut;
    if text != "" {
      OpenTextMind(s, key);
      AppendOpenMind(OpenText(s, key), BlockKey(TextKind, key), text);
    }
  }

  /** `r` is a step of `s` that leaves the machine as it was, or cuts it short. */
  ghost predicate Calm(s: Session, r: Session) {
    r.cfg == s.cfg && (HeldLast(s) ==> HeldLast(r) && (MindOf(r) == MindOf(s) || MindOf(r) == Cut(s.cfg, MindOf(s))))
  }

  lemma CalmTwice(s: Session, t: Session, r: Session)
    requires Calm(s, t) && Calm(t, r)
    ensures Calm(s, r)
  {
    hide MindOf, HeldLast;
  }

  lemma {:induction false} AddTextsMind(s: Session, key: string, texts: seq<string>)
    requires Live(s)
    ensures Calm(s, AddTexts(s, key, texts))
    decreases texts
  {
    hide WellFormed, AddText, Start, MindOf, HeldLast, Cut;
    if texts != [] {
      StartMind(s, s.msgId, s.model);
      if texts[0] == "" {
        AddTextsMind(s, key, texts[1..]);
      } else {
        var t := AddText(StartHere(s), key, texts[0]);
        AddTextMind(StartHere(s), key, texts[0]);
        AddTextsMind(t, key, texts[1..]);
        CalmTwice(s, t, AddTexts(t, key, texts[1..]));
      }
    }
  }

  lemma AddArgumentsMind(s: Session, key: string, callId: string, name: string, arguments: string)
    requires Writing(s)
    ensures Calm(s, AddArguments(s, key, callId, name, arguments))
  {
    hide WellFormed, OpenTool, AppendOpen, Thoughts, Cut;
    if arguments != "" {
      OpenToolMind(s, key, callId, name);
      AppendOpenMind(OpenTool(s, key, callId, name), BlockKey(ToolKind, FirstNonEmpty([key, callId])), arguments);
    }
  }

  /** Writing to or stopping a text or tool block leaves the thoughts alone. */
  lemma OtherBlock(blocks: seq<Block>, i: int, b: Block)
    requires 0 <= i < |blocks| && blocks[i].kind != ThinkingKind && b.kind == blocks[i].kind
    ensures Thoughts(blocks[i := b]) == Thoughts(blocks)
  {
    SameThoughts(blocks, blocks[i := b]);
  }

  lemma StopBlockMind(s: Session, key: string, kind: Kind)
    requires Live(s) && kind != ThinkingKind
    ensures Comes(s, StopBlock(s, key, kind), MindOf(s))
  {
    var k := BlockKey(kind, key);
    if k in s.table {
      var i := s.table[k];
      TableBlock(s, k);
      OtherBlock(s.client.blocks, i, s.client.blocks[i].(open := false));
    }
    hide WellFormed, Thoughts, BlockKey;
  }

  lemma TableBlock(s: Session, k: string)
    requires Live(s) && k in s.table
    ensures 0 <= s.table[k] < |s.client.blocks| && s.client.blocks[s.table[k]].kind != ThinkingKind
    ensures s.client.thinking.Some? ==>
              0 <= s.client.thinking.value < |s.client.blocks| && s.client.blocks[s.client.thinking.value].kind == ThinkingKind
  {
  }

  lemma FinishToolMind(s: Session, key: string, callId: string, name: string, arguments: string)
    requires Writing(s)
    ensures Calm(s, FinishTool(s, key, callId, name, arguments))
  {
    hide WellFormed, OpenTool, AddArguments, StopBlock, MindOf, HeldLast, Cut;
    OpenToolMind(s, key, callId, name);
    var t := OpenTool(s, key, callId, name);
    AddArgumentsMind(t, key, callId, name, arguments);
    var u := if t.HasContent(BlockKey(ToolKind, FirstNonEmpty([key, callId]))) then t
             else AddArguments(t, key, callId, name, arguments);
    StopBlockMind(u, key, ToolKind);
    CalmTwice(s, t, u);
  }

  // ---- endings ----

  lemma EndMind(t: Session, ending: Ending)
    requires Live(t) && t.client.thinking.None? && (ending.Finished? || ending.Failed?)
    ensures Comes(t, End(t, ending), MindOf(t))
  {
    hide WellFormed, Thoughts;
    SameThoughts(t.client.blocks, End(t, ending).client.blocks);
  }

  lemma FinishMind(s: Session, reason: string, usage: Usage)
    requires Live(s)
    ensures Comes(s, Finish(s, reason, usage), Shut(s.cfg, MindOf(s), true))
  {
    hide WellFormed, EndThinking, Start, End, MindOf, HeldLast, Shut;
    StartMind(s, s.msgId, s.model);
    EndThinkingMind(StartHere(s), true);
    var t := EndThinking(StartHere(s), true);
    var why := if reason == "" then (if t.hasToolUse then "tool_use" else "end_turn") else reason;
    var inTokens := if usage.input == 0 && t.usage.input > 0 then t.usage.input else usage.input;
    var outTokens := if usage.output == 0 && t.usage.output > 0 then t.usage.output else usage.output;
    EndMind(t, Finished(why, inTokens, outTokens));
  }

  lemma FailMind(s: Session, status: int, message: string)
    requires Live(s)
    ensures Comes(s, Fail(s, status, message), Shut(s.cfg, MindOf(s), true))
  {
    hide WellFormed, EndThinking, End, MindOf, HeldLast, Shut;
    EndThinkingMind(s, true);
    EndMind(EndThinking(s, true), Failed(status, message));
  }

  // ---- events ----

  function FinalKey(n: nat): string {
    "final-reasoning-" + Decimal(n)
  }

  lemma FinalItemMind(s: Session, item: Item, n: nat)
    requires Writing(s)
    ensures item.Reasoning? ==> Comes(s, FinalItem(s, item, n), Said(s.cfg, MindOf(s), item, FinalKey(n)))
    ensures !item.Reasoning? ==> Calm(s, FinalItem(s, item, n))
  {
    hide WellFormed, BlockKey, FirstNonEmpty, Decimal, AddTexts, FinishTool, FinalReasoning, StopBlock, MindOf, HeldLast,
      Said, Cut, Session.AnyText;
    match item
    case Reasoning(_, _, _) => FinalReasoningMind(s, item, FinalKey(n));
    case Message(id, texts) =>
      var key := ItemKey([id, "final-" + Decimal(n)]);
      AddTextsMind(s, key, texts);
      StopBlockMind(s, key, TextKind);
      StopBlockMind(AddTexts(s, key, texts), key, TextKind);
    case FunctionCall(id, callId, name, arguments) =>
      var call := FirstNonEmpty([callId, id]);
      FinishToolMind(s, ItemKey([id, call, "final-" + Decimal(n)]), call, name, if arguments == "" then "{}" else arguments);
    case UnknownItem =>
  }

  lemma ReasoningMind(s: Session, e: Event)
    requires Live(s)
    requires e.ReasoningPartAdded? || e.ReasoningDelta? || e.ReasoningPartDone?
    ensures HeldLast(s) ==> Comes(s, Apply(s, e), MindOf(Apply(s, e))) && Thinks(s.cfg, MindOf(s), e, MindOf(Apply(s, e)))
  {
    hide WellFormed, ReasoningEventKey, Start, StartThinkingPart, AddThinking, Thoughts, Part, Added;
    StartMind(s, s.msgId, s.model);
    var t := StartHere(s);
    match e
    case ReasoningPartAdded(at) => StartPartMind(t, ReasoningEventKey(at));
    case ReasoningDelta(at, delta) =>
      StartPartMind(t, ReasoningEventKey(at));
      AddThinkingMind(if t.client.thinking.None? then StartThinkingPart(t, ReasoningEventKey(at)) else t, delta);
    case ReasoningPartDone =>
  }

  lemma ItemAddedMind(s: Session, at: Locator, item: Item)
    requires Writing(s)
    ensures item.Reasoning? ==> Comes(s, ApplyItemAdded(s, at, item), Named(s.cfg, MindOf(s), at, item))
    ensures !item.Reasoning? ==> Calm(s, ApplyItemAdded(s, at, item))
  {
    hide WellFormed, EventKey, ReasoningEventKey, ReasoningKey, FirstNonEmpty, OpenTool, AddArguments, BlockKey, Thoughts,
      Cut, CaptureSignature, Captured;
    match item
    case Reasoning(id, _, encrypted) =>
      var key := EventItemKey(at, item);
      ScalarsKeep(s, s.(reasoningKey := key));
      CaptureMind(s.(reasoningKey := key), key, encrypted);
    case FunctionCall(id, callId, name, arguments) =>
      var call := CallId(callId, id);
      var key := ItemKey([id, call, EventKey(at)]);
      OpenToolMind(s, key, call, name);
      AddArgumentsMind(OpenTool(s, key, call, name), key, call, name, arguments);
      CalmTwice(s, OpenTool(s, key, call, name), AddArguments(OpenTool(s, key, call, name), key, call, name, arguments));
    case _ =>
  }

  lemma ItemDoneMind(s: Session, at: Locator, item: Item)
    requires Live(s)
    ensures item.Reasoning? ==> Comes(s, ApplyItemDone(s, at, item), Settled(s.cfg, MindOf(s), at, item))
    ensures !item.Reasoning? ==> Calm(s, ApplyItemDone(s, at, item))
  {
    hide WellFormed, EventKey, ReasoningEventKey, ReasoningKey, FirstNonEmpty, Start, FinishTool, AddTexts, Thoughts,
      FinalReasoning, EndThinking, StopBlock, BlockKey, Cut, Shut, CaptureSignature, Captured, Said;
    match item
    case Reasoning(id, _, encrypted) =>
      var key := EventItemKey(at, item);
      var n := s.(reasoningKey := key);
      ScalarsKeep(s, n);
      CaptureMind(n, key, encrypted);
      var t := CaptureSignature(n, key, encrypted);
      FinalReasoningMind(t, item, key);
      EndThinkingMind(t, true);
    case FunctionCall(id, callId, name, arguments) =>
      StartMind(s, s.msgId, s.model);
      var call := CallId(callId, id);
      FinishToolMind(StartHere(s), ItemKey([id, call, EventKey(at)]), call, name, arguments);
    case Message(id, texts) =>
      var key := ItemKey([id, EventKey(at)]);
      AddTextsMind(s, key, texts);
      StopBlockMind(s, key, TextKind);
      StopBlockMind(AddTexts(s, key, texts), key, TextKind);
    case UnknownItem =>
  }

  lemma TextDoneMind(s: Session, key: string, text: string)
    requires Live(s)
    ensures Calm(s, ApplyTextDone(s, key, text))
  {
    hide WellFormed, Start, AddText, StopBlock, BlockKey, MindOf, HeldLast, Cut;
    StartMind(s, s.msgId, s.model);
    AddTextMind(StartHere(s), key, text);
    var t := if !s.HasContent(BlockKey(TextKind, key)) && text != "" then AddText(StartHere(s), key, text) else s;
    StopBlockMind(t, key, TextKind);
  }

  lemma ContentMind(s: Session, e: Event)
    requires Live(s)
    requires e.OutputTextDelta? || e.ContentPartAdded? || e.ContentPartDone? || e.ArgumentsDelta? || e.ArgumentsDone?
    ensures HeldLast(s) ==> Comes(s, Apply(s, e), MindOf(Apply(s, e))) && Thinks(s.cfg, MindOf(s), e, MindOf(Apply(s, e)))
  {
    hide WellFormed, EventKey, CallKey, Start, AddText, OpenText, AddArguments, FinishTool, BlockKey, ApplyTextDone,
      MindOf, HeldLast, Cut;
    StartMind(s, s.msgId, s.model);
    var t := StartHere(s);
    match e
    case OutputTextDelta(at, delta) => AddTextMind(t, EventKey(at), delta);
    case ContentPartAdded(at, isText) => OpenTextMind(t, EventKey(at));
    case ContentPartDone(at, isText, text) => TextDoneMind(s, EventKey(at), text);
    case ArgumentsDelta(at, callId, name, delta) =>
      AddArgumentsMind(t, CallKey(at, callId), CallId(callId, at.itemId), name, delta);
    case ArgumentsDone(at, callId, name, arguments) =>
      FinishToolMind(t, CallKey(at, callId), CallId(callId, at.itemId), name, arguments);
  }

  /** The session follows the machine, at every event but a completed one, whose items are taken one by one. */
  lemma EventThinks(s: Session, e: Event)
    requires Live(s) && HeldLast(s) && !e.Completed?
    ensures Comes(s, Apply(s, e), MindOf(Apply(s, e))) && Thinks(s.cfg, MindOf(s), e, MindOf(Apply(s, e)))
  {
    hide WellFormed, EventKey, ReasoningEventKey, Start, Finish, Fail, ApplyItemAdded, ApplyItemDone, MindOf, HeldLast, Cut,
      Shut, Named, Settled;
    if e.ReasoningPartAdded? || e.ReasoningDelta? || e.ReasoningPartDone? {
      ReasoningMind(s, e);
    } else if e.OutputTextDelta? || e.ContentPartAdded? || e.ContentPartDone? || e.ArgumentsDelta? || e.ArgumentsDone? {
      ContentMind(s, e);
    } else if e.ItemAdded? {
      StartMind(s, s.msgId, s.model);
      ItemAddedMind(StartHere(s), e.at, e.item);
    } else if e.ItemDone? {
      ItemDoneMind(s, e.at, e.item);
    } else if e.Created? {
      CreatedMind(s, e.id, e.model, e.inputTokens);
    } else {
      FinishMind(s, "", s.usage);
      match e {
        case ResponseFailed(status, message) => FailMind(s, status, message);
        case UpstreamError(message) => FailMind(s, 502, message);
        case _ =>
      }
    }
  }

  lemma CreatedMind(s: Session, id: string, model: string, inputTokens: int)
    requires Live(s)
    ensures Comes(s, Apply(s, Created(id, model, inputTokens)), MindOf(s))
  {
    hide WellFormed, Start, Thoughts;
    var t := if inputTokens > 0 then s.(usage := s.usage.(input := inputTokens)) else s;
    ScalarsKeep(s, t);
    StartMind(t, id, if s.cfg.requestModel != "" then s.cfg.requestModel else model);
  }

  // ---- what is delivered, and how often ----

  /** A reasoning text delivered in full, under its key. */
  datatype Full = Full(key: string, text: string)

  function Texts(fulls: seq<Full>): string {
    if fulls == [] then "" else fulls[0].text + Texts(fulls[1..])
  }

  function ItemFull(cfg: Config, m: Mind, item: Item, fallback: string): seq<Full>
    requires item.Reasoning?
  {
    if Says(cfg, m, item, fallback) then [Full(KeyOf(item, fallback), Shown(cfg, item.summary))] else []
  }

  /** The state in which a completed event's output is taken. */
  function Begun(s: Session, id: string, usage: Option<Usage>): (r: Session)
    requires Live(s)
    ensures Writing(r)
  {
    var t := if id != "" && s.msgId == "" then Start(s, id, s.cfg.requestModel) else StartHere(s);
    ScalarsKeep(t, if usage.Some? then t.(usage := usage.value) else t);
    if usage.Some? then t.(usage := usage.value) else t
  }

  function FinalFull(s: Session, items: seq<Item>, n: nat): seq<Full>
    requires Writing(s)
    decreases |items|
  {
    if items == [] then []
    else (if items[0].Reasoning? then ItemFull(s.cfg, MindOf(s), items[0], FinalKey(n)) else [])
         + FinalFull(FinalItem(s, items[0], n), items[1..], n + 1)
  }

  /** The reasoning texts an event delivers in full. */
  function Fulls(s: Session, e: Event): seq<Full>
    requires Live(s)
  {
    match e
    case ItemDone(at, item) =>
      if item.Reasoning? && s.client.thinking.None?
      then ItemFull(s.cfg, Named(s.cfg, MindOf(s), at, item), item, EventItemKey(at, item)) else []
    case Completed(_, id, usage, output) => FinalFull(Begun(s, id, usage), output, 0)
    case _ => []
  }

  /** All reasoning text an event delivers: a shown increment, or full texts. */
  function Told(s: Session, e: Event): string
    requires Live(s)
  {
    if e.ReasoningDelta? then Shown(s.cfg, e.delta) else Texts(Fulls(s, e))
  }

  /** From `m` to `r`, `told` is what the thoughts gained and `fulls` the full texts in it, whose keys are
      different from each other and from all completed before, and completed afterwards. */
  ghost predicate Grows(m: Mind, r: Mind, told: string, fulls: seq<Full>) {
    && Join(r.thoughts) == Join(m.thoughts) + told
    && m.completed <= r.completed
    && (forall i | 0 <= i < |fulls| :: fulls[i].key !in m.completed && fulls[i].key in r.completed)
    && (forall i, j | 0 <= i < j < |fulls| :: fulls[i].key != fulls[j].key)
  }

  lemma GrowsTwice(m: Mind, t: Mind, r: Mind, a: string, b: string, f: seq<Full>, g: seq<Full>)
    requires Grows(m, t, a, f) && Grows(t, r, b, g)
    ensures Grows(m, r, a + b, f + g)
  {
    assert Join(m.thoughts) + a + b == Join(m.thoughts) + (a + b);
  }

  lemma {:induction false} JoinMore(a: seq<string>, text: string)
    ensures Join(a + [text]) == Join(a) + text
  {
    if a == [] {
      assert [text][1..] == [] && text + "" == text;
    } else {
      assert (a + [text])[1..] == a[1..] + [text];
      JoinMore(a[1..], text);
      assert a[0] + (Join(a[1..]) + text) == a[0] + Join(a[1..]) + text;
    }
  }

  lemma JoinLonger(thoughts: seq<string>, text: string)
    requires thoughts != []
    ensures Join(Longer(thoughts, text)) == Join(thoughts) + text
  {
    var n := |thoughts| - 1;
    assert thoughts == thoughts[..n] + [thoughts[n]];
    assert Longer(thoughts, text) == thoughts[..n] + [thoughts[n] + text];
    JoinMore(thoughts[..n], thoughts[n]);
    JoinMore(thoughts[..n], thoughts[n] + text);
    assert Join(thoughts[..n]) + (thoughts[n] + text) == Join(thoughts[..n]) + thoughts[n] + text;
  }

  predicate Sound(m: Mind) {
    m.held ==> m.thoughts != []
  }

  lemma HeldIsSound(s: Session)
    requires HeldLast(s)
    ensures Sound(MindOf(s))
  {
  }

  lemma OpenedGrows(cfg: Config, m: Mind)
    ensures Grows(m, Opened(cfg, m), "", []) && (Sound(m) ==> Sound(Opened(cfg, m)))
  {
    JoinMore(m.thoughts, "");
    assert Join(m.thoughts) + "" == Join(m.thoughts);
  }

  lemma AddedGrows(cfg: Config, m: Mind, text: string)
    requires Sound(m)
    ensures Grows(m, Added(cfg, m, text), Shown(cfg, text), []) && Sound(Added(cfg, m, text))
  {
    hide Join;
    OpenedGrows(cfg, m);
    if Shown(cfg, text) != "" { JoinLonger(Opened(cfg, m).thoughts, text); }
    assert Join(m.thoughts) + "" == Join(m.thoughts);
  }

  lemma SaidGrows(cfg: Config, m: Mind, item: Item, fallback: string)
    requires Sound(m) && item.Reasoning?
    ensures Grows(m, Said(cfg, m, item, fallback), Texts(ItemFull(cfg, m, item, fallback)), ItemFull(cfg, m, item, fallback))
    ensures Sound(Said(cfg, m, item, fallback))
  {
    hide Join, Opened, Added, ReasoningKey, FirstNonEmpty;
    assert Join(m.thoughts) + "" == Join(m.thoughts);
    if Says(cfg, m, item, fallback) {
      var n := m.(key := KeyOf(item, fallback), signature := Signature(m, item));
      var text := if cfg.omitted then "" else item.summary;
      OpenedGrows(cfg, n);
      AddedGrows(cfg, Opened(cfg, n), text);
      var full := [Full(n.key, Shown(cfg, item.summary))];
      assert full[1..] == [] && Shown(cfg, text) + "" == Shown(cfg, text) == Shown(cfg, item.summary);
      KeyStable(FirstNonEmpty([item.id, fallback]));
      AddedShut(cfg, n, text);
    }
  }

  /** After a text is added and the block shut, the key in force is completed. */
  lemma AddedShut(cfg: Config, n: Mind, text: string)
    requires cfg.thinking && n.key != ""
    ensures var a := Added(cfg, Opened(cfg, n), text);
      a.held && a.key == n.key && a.completed == n.completed && Shut(cfg, a, true).completed == n.completed + {n.key}
  {
  }

  /** Cutting, shutting and leaving alone deliver nothing. */
  lemma QuietGrows(cfg: Config, m: Mind, r: Mind)
    requires r == m || r == Cut(cfg, m) || r == Shut(cfg, m, true) || r == Shut(cfg, m, false)
    ensures Grows(m, r, "", []) && (Sound(m) ==> Sound(r))
  {
    assert Join(m.thoughts) + "" == Join(m.thoughts);
  }

  lemma PartGrows(cfg: Config, m: Mind, key: string)
    requires Sound(m)
    ensures Grows(m, Part(cfg, m, key), "", []) && Sound(Part(cfg, m, key))
  {
    hide Join, Opened, ReasoningKey;
    assert Join(m.thoughts) + "" == Join(m.thoughts);
    OpenedGrows(cfg, (if m.held && m.pending then Shut(cfg, m, false) else m).(key := ReasoningKey(key)));
  }

  // ---- one event ----

  lemma {:induction false} FinalItemsGrow(s: Session, items: seq<Item>, n: nat)
    requires Writing(s) && HeldLast(s)
    ensures var r, f := FinalItems(s, items, n), FinalFull(s, items, n);
      r.cfg == s.cfg && HeldLast(r) && Grows(MindOf(s), MindOf(r), Texts(f), f) && Sound(MindOf(r))
    decreases |items|
  {
    hide WellFormed, FinalItem, Grows, HeldLast, MindOf, Said, ItemFull, Cut;
    HeldIsSound(s);
    if items == [] {
      QuietGrows(s.cfg, MindOf(s), MindOf(s));
    } else {
      var t := FinalItem(s, items[0], n);
      var f := if items[0].Reasoning? then ItemFull(s.cfg, MindOf(s), items[0], FinalKey(n)) else [];
      FinalItemMind(s, items[0], n);
      if items[0].Reasoning? {
        SaidGrows(s.cfg, MindOf(s), items[0], FinalKey(n));
      } else {
        QuietGrows(s.cfg, MindOf(s), MindOf(t));
      }
      FinalItemsGrow(t, items[1..], n + 1);
      var g := FinalFull(t, items[1..], n + 1);
      GrowsTwice(MindOf(s), MindOf(t), MindOf(FinalItems(t, items[1..], n + 1)), Texts(f), Texts(g), f, g);
      TextsOf(f, g);
    }
  }

  lemma {:induction false} TextsOf(f: seq<Full>, g: seq<Full>)
    ensures Texts(f + g) == Texts(f) + Texts(g)
  {
    if f == [] {
      assert f + g == g;
    } else {
      assert (f + g)[1..] == f[1..] + g;
      TextsOf(f[1..], g);
      assert f[0].text + (Texts(f[1..]) + Texts(g)) == f[0].text + Texts(f[1..]) + Texts(g);
    }
  }

  lemma BegunMind(s: Session, id: string, usage: Option<Usage>)
    requires Live(s)
    ensures Comes(s, Begun(s, id, usage), MindOf(s))
  {
    hide WellFormed, Start, Thoughts;
    StartMind(s, id, s.cfg.requestModel);
    StartMind(s, s.msgId, s.model);
  }

  lemma CompletedGrows(s: Session, e: Event)
    requires Live(s) && HeldLast(s) && e.Completed?
    ensures var r := Apply(s, e);
      r.cfg == s.cfg && HeldLast(r) && Grows(MindOf(s), MindOf(r), Texts(Fulls(s, e)), Fulls(s, e))
  {
    hide WellFormed, Start, FinalItems, FinalFull, Finish, Grows, HeldLast, MindOf, Shut;
    var t := Begun(s, e.id, e.usage);
    BegunMind(s, e.id, e.usage);
    FinalItemsGrow(t, e.output, 0);
    var u := FinalItems(t, e.output, 0);
    var why := if u.hasToolUse then "tool_use" else if e.incomplete then "max_tokens" else "end_turn";
    var used := if e.usage.Some? then e.usage.value else s.usage;
    FinishMind(u, why, used);
    var r := Finish(u, why, used);
    QuietGrows(s.cfg, MindOf(u), MindOf(r));
    var f := FinalFull(t, e.output, 0);
    GrowsTwice(MindOf(s), MindOf(u), MindOf(r), Texts(f), "", f, []);
    assert f + [] == f && Texts(f) + "" == Texts(f);
  }

  lemma SettledGrows(cfg: Config, m: Mind, at: Locator, item: Item)
    requires Sound(m) && item.Reasoning?
    ensures var n := Named(cfg, m, at, item); var f := if m.held then [] else ItemFull(cfg, n, item, EventItemKey(at, item));
      Grows(m, Settled(cfg, m, at, item), Texts(f), f)
  {
    hide Join, Shut, Said, ItemFull, ReasoningKey, FirstNonEmpty, TrimSpace;
    var n := Named(cfg, m, at, item);
    if n.held { QuietGrows(cfg, n, Shut(cfg, n, true)); } else { SaidGrows(cfg, n, item, EventItemKey(at, item)); }
  }

  lemma ThinksGrows(s: Session, e: Event, r: Mind)
    requires Live(s) && HeldLast(s) && !e.Completed? && Thinks(s.cfg, MindOf(s), e, r)
    ensures Grows(MindOf(s), r, Told(s, e), Fulls(s, e))
  {
    hide WellFormed, Thoughts, Join, Cut, Shut, Part, Added, Named, Settled, ItemFull, ReasoningEventKey, EventItemKey;
    var cfg, m := s.cfg, MindOf(s);
    HeldIsSound(s);
    assert Join(m.thoughts) + "" == Join(m.thoughts);
    match e {
      case ReasoningPartAdded(at) => PartGrows(cfg, m, ReasoningEventKey(at));
      case ReasoningDelta(at, delta) =>
        PartGrows(cfg, m, ReasoningEventKey(at));
        AddedGrows(cfg, if m.held then m else Part(cfg, m, ReasoningEventKey(at)), delta);
      case ItemAdded(at, item) =>
        if item.Reasoning? { NamedKeeps(cfg, m, at, item); } else { QuietGrows(cfg, m, r); }
      case ItemDone(at, item) =>
        if item.Reasoning? { SettledGrows(cfg, m, at, item); } else { QuietGrows(cfg, m, r); }
      case ReasoningPartDone =>
      case _ => QuietGrows(cfg, m, r);
    }
  }

  lemma NamedKeeps(cfg: Config, m: Mind, at: Locator, item: Item)
    requires item.Reasoning?
    ensures var n := Named(cfg, m, at, item); n.thoughts == m.thoughts && n.held == m.held && n.completed == m.completed
  {
    hide TrimSpace, ReasoningKey;
  }

  lemma EventGrows(s: Session, e: Event)
    requires Live(s) && HeldLast(s)
    ensures var r := Apply(s, e); r.cfg == s.cfg && HeldLast(r) && Grows(MindOf(s), MindOf(r), Told(s, e), Fulls(s, e))
  {
    hide WellFormed, Apply, Thinks, Fulls, Grows, HeldLast, MindOf;
    if e.Completed? {
      CompletedGrows(s, e);
    } else {
      EventThinks(s, e);
      ThinksGrows(s, e, MindOf(Apply(s, e)));
    }
  }

  // ---- whole runs ----

  /** All reasoning text a run delivers, event by event. */
  ghost function RunTold(s: Session, es: seq<Event>): string
    requires WellFormed(s) && Orderly(s, es)
    decreases |es|
  {
    if es == [] then "" else (if s.Ended() then "" else Told(s, es[0])) + RunTold(Apply(s, es[0]), es[1..])
  }

  /** The reasoning texts a run delivers in full. */
  ghost function RunFulls(s: Session, es: seq<Event>): seq<Full>
    requires WellFormed(s) && Orderly(s, es)
    decreases |es|
  {
    if es == [] then [] else (if s.Ended() then [] else Fulls(s, es[0])) + RunFulls(Apply(s, es[0]), es[1..])
  }

  lemma {:induction false} RunGrows(s: Session, es: seq<Event>)
    requires WellFormed(s) && Orderly(s, es) && HeldLast(s)
    ensures var r := Run(s, es);
      r.cfg == s.cfg && HeldLast(r) && Grows(MindOf(s), MindOf(r), RunTold(s, es), RunFulls(s, es))
    decreases |es|
  {
    hide WellFormed, Apply, Grows, HeldLast, MindOf, Told, Fulls;
    if es == [] {
      QuietGrows(s.cfg, MindOf(s), MindOf(s));
    } else {
      var t := Apply(s, es[0]);
      if s.Ended() {
        StillEnded(s, es[0], "");
        QuietGrows(s.cfg, MindOf(s), MindOf(t));
      } else {
        EventGrows(s, es[0]);
      }
      RunGrows(t, es[1..]);
      GrowsTwice(MindOf(s), MindOf(t), MindOf(Run(t, es[1..])),
                 if s.Ended() then "" else Told(s, es[0]), RunTold(t, es[1..]),
                 if s.Ended() then [] else Fulls(s, es[0]), RunFulls(t, es[1..]));
    }
  }

  /** Every run, all blocks: what the thinking blocks say is what the events delivered, nothing lost and nothing
      added; and no key is delivered in full twice, nor after a block was finalized under it. */
  lemma ReasoningDelivered(cfg: Config, es: seq<Event>)
    requires Orderly(Initial(cfg), es)
    ensures var r, fulls := Run(Initial(cfg), es), RunFulls(Initial(cfg), es);
      && Join(Thoughts(r.client.blocks)) == RunTold(Initial(cfg), es)
      && (forall i | 0 <= i < |fulls| :: fulls[i].key in r.completed)
      && (forall i, j | 0 <= i < j < |fulls| :: fulls[i].key != fulls[j].key)
  {
    hide WellFormed, Apply;
    RunGrows(Initial(cfg), es);
    assert "" + RunTold(Initial(cfg), es) == RunTold(Initial(cfg), es);
  }

  /** The same from the middle of a run: a completed key is never delivered in full again. */
  lemma CompletedIsSilent(cfg: Config, pre: seq<Event>, es: seq<Event>, k: string)
    requires Orderly(Initial(cfg), pre) && Orderly(Run(Initial(cfg), pre), es) && k in Run(Initial(cfg), pre).completed
    ensures forall i | 0 <= i < |RunFulls(Run(Initial(cfg), pre), es)| :: RunFulls(Run(Initial(cfg), pre), es)[i].key != k
  {
    hide WellFormed, Apply;
    RunGrows(Initial(cfg), pre);
    RunGrows(Run(Initial(cfg), pre), es);
  }

  // ---- no thinking unless it is enabled ----

  predicate NoThinking(blocks: seq<Block>) {
    forall i | 0 <= i < |blocks| :: blocks[i].kind != ThinkingKind
  }

  lemma {:induction false} ThoughtsAreBlocks(blocks: seq<Block>)
    requires Thoughts(blocks) == []
    ensures NoThinking(blocks)
  {
    if blocks != [] {
      var n := |blocks| - 1;
      ThoughtsAreBlocks(blocks[..n]);
      assert blocks[n].kind != ThinkingKind;
      assert forall i | 0 <= i < n :: blocks[i] == blocks[..n][i];
    }
  }

  lemma {:induction false} FinalItemsQuiet(s: Session, items: seq<Item>, n: nat)
    requires Writing(s) && HeldLast(s) && !s.cfg.thinking
    ensures var r := FinalItems(s, items, n);
      r.cfg == s.cfg && HeldLast(r) && MindOf(r).thoughts == MindOf(s).thoughts
    decreases |items|
  {
    hide WellFormed, FinalItem, HeldLast, Thoughts, ItemFull;
    if items != [] {
      FinalItemMind(s, items[0], n);
      FinalItemsQuiet(FinalItem(s, items[0], n), items[1..], n + 1);
    }
  }

  lemma EventQuiet(s: Session, e: Event)
    requires Live(s) && HeldLast(s) && !s.cfg.thinking
    ensures var r := Apply(s, e); r.cfg == s.cfg && HeldLast(r) && MindOf(r).thoughts == MindOf(s).thoughts
  {
    hide WellFormed, HeldLast, Thoughts, Start, Finish, FinalItems, ReasoningEventKey, ReasoningKey, FirstNonEmpty;
    if e.Completed? {
      var t := Begun(s, e.id, e.usage);
      BegunMind(s, e.id, e.usage);
      FinalItemsQuiet(t, e.output, 0);
      var u := FinalItems(t, e.output, 0);
      FinishMind(u, if u.hasToolUse then "tool_use" else if e.incomplete then "max_tokens" else "end_turn",
                 if e.usage.Some? then e.usage.value else s.usage);
    } else {
      hide Apply;
      EventThinks(s, e);
    }
  }

  lemma {:induction false} RunQuiet(s: Session, es: seq<Event>)
    requires WellFormed(s) && Orderly(s, es) && HeldLast(s) && !s.cfg.thinking
    ensures MindOf(Run(s, es)).thoughts == MindOf(s).thoughts
    decreases |es|
  {
    hide WellFormed, Apply, HeldLast, Thoughts;
    if es != [] {
      if s.Ended() { StillEnded(s, es[0], ""); } else { EventQuiet(s, es[0]); }
      RunQuiet(Apply(s, es[0]), es[1..]);
    }
  }

  /** With thinking off no run ever has a thinking block. */
  lemma NoThinkingEver(cfg: Config, es: seq<Event>)
    requires Orderly(Initial(cfg), es) && !cfg.thinking
    ensures NoThinking(Run(Initial(cfg), es).client.blocks)
  {
    hide WellFormed, Apply;
    RunQuiet(Initial(cfg), es);
    ThoughtsAreBlocks(Run(Initial(cfg), es).client.blocks);
  }

  // ---- when a text is delivered again ----

  /** A reasoning key is a reasoning key already. */
  lemma KeyStable(key: string)
    ensures TrimSpace(ReasoningKey(key)) == ReasoningKey(key) != ""
    ensures ReasoningKey(ReasoningKey(key)) == ReasoningKey(key)
  {
    var t, r := TrimSpace(key), ReasoningKey(key);
    TrimEnds(key);
    hide TrimSpace;
    if t != "" {
      assert r[|r| - 1] == t[|t| - 1] && (r[0] == t[0] || r[0] == 'r');
    } else {
      assert r == "reasoning:default" && r[0] == 'r' && r[|r| - 1] == 't';
    }
    TrimSpaceKeeps(r);
    assert "reasoning:" <= r;
  }

  lemma TrimEnds(s: string)
    ensures var t := TrimSpace(s); t != "" ==> !IsSpace(t[0]) && !IsSpace(t[|t| - 1])
  {
    hide IsSpace;
  }

  lemma FirstOf(a: string, b: string)
    ensures FirstNonEmpty([a, b]) == if TrimSpace(a) != "" then TrimSpace(a) else TrimSpace(b)
  {
    hide TrimSpace;
    assert [a, b][1..] == [b] && [b][1..] == [];
    assert FirstNonEmpty([b]) == if TrimSpace(b) != "" then TrimSpace(b) else FirstNonEmpty([]);
  }

  /** The key found first is the key used. */
  lemma SameKey(at: Locator, item: Item)
    requires item.Reasoning?
    ensures KeyOf(item, EventItemKey(at, item)) == EventItemKey(at, item)
    ensures TrimSpace(EventItemKey(at, item)) != ""
  {
    var fallback := ReasoningEventKey(at);
    var key := EventItemKey(at, item);
    KeyStable(FirstNonEmpty([item.id, fallback]));
    KeyStable(FirstNonEmpty([at.itemId, at.outputIndex]));
    FirstOf(item.id, fallback);
    FirstOf(item.id, key);
    hide TrimSpace, ReasoningKey, FirstNonEmpty;
  }

  /** A reasoning item ends, over every run. Its summary is delivered by that event if and only if no block is held
      and no block was finalized under the item's key; in either case the key is completed from then on. */
  lemma ItemDelivers(cfg: Config, pre: seq<Event>, at: Locator, item: Item)
    requires Orderly(Initial(cfg), pre) && !Run(Initial(cfg), pre).Ended()
    requires cfg.thinking && !cfg.omitted && item.Reasoning? && item.summary != ""
    ensures var s := Run(Initial(cfg), pre); var r := Apply(s, ItemDone(at, item));
      && Thoughts(r.client.blocks) == Thoughts(s.client.blocks)
           + (if s.client.thinking.None? && EventItemKey(at, item) !in s.completed then [item.summary] else [])
      && EventItemKey(at, item) in r.completed && r.client.thinking.None?
  {
    hide WellFormed, Apply, Thoughts, EventItemKey;
    RunHolds(cfg, pre);
    ItemDelivered(Run(Initial(cfg), pre), at, item);
  }

  lemma ItemDelivered(s: Session, at: Locator, item: Item)
    requires Live(s) && HeldLast(s)
    requires s.cfg.thinking && !s.cfg.omitted && item.Reasoning? && item.summary != ""
    ensures var r := Apply(s, ItemDone(at, item));
      && Thoughts(r.client.blocks) == Thoughts(s.client.blocks)
           + (if s.client.thinking.None? && EventItemKey(at, item) !in s.completed then [item.summary] else [])
      && EventItemKey(at, item) in r.completed && r.client.thinking.None?
  {
    hide WellFormed, Apply, Thoughts, Settled, HeldLast, ReasoningKey, FirstNonEmpty, TrimSpace;
    EventThinks(s, ItemDone(at, item));
    SameKey(at, item);
    KeyStable(FirstNonEmpty([item.id, ReasoningEventKey(at)]));
    SettledExactly(s.cfg, MindOf(s), at, item);
  }

  lemma RunHolds(cfg: Config, es: seq<Event>)
    requires Orderly(Initial(cfg), es)
    ensures HeldLast(Run(Initial(cfg), es)) && Run(Initial(cfg), es).cfg == cfg
  {
    hide WellFormed, Apply;
    RunGrows(Initial(cfg), es);
  }

  lemma SettledExactly(cfg: Config, m: Mind, at: Locator, item: Item)
    requires cfg.thinking && !cfg.omitted && item.Reasoning? && item.summary != ""
    requires var k := EventItemKey(at, item); KeyOf(item, k) == k && k != "" && TrimSpace(k) != "" && ReasoningKey(k) == k
    ensures var r := Settled(cfg, m, at, item); var k := EventItemKey(at, item);
      && r.thoughts == m.thoughts + (if !m.held && k !in m.completed then [item.summary] else [])
      && k in r.completed && !r.held
  {
    hide EventItemKey, KeyOf, ReasoningKey, TrimSpace;
    assert "" + item.summary == item.summary;
  }

  /** What names a reasoning item names it `k`; nothing completes the response. */
  predicate Names(e: Event, k: string) {
    match e
    case ReasoningPartAdded(at) => ReasoningEventKey(at) == k
    case ItemAdded(at, item) => item.Reasoning? ==> EventItemKey(at, item) == k
    case ItemDone(at, item) => item.Reasoning? ==> EventItemKey(at, item) == k
    case Completed(_, _, _, _) => false
    case _ => true
  }

  lemma ClaimKept(cfg: Config, m: Mind, e: Event, r: Mind, k: string)
    requires Thinks(cfg, m, e, r) && Names(e, k) && m.Claims(k) && k != "" && ReasoningKey(k) == k
    ensures r.Claims(k)
  {
    hide ReasoningEventKey, EventItemKey, ReasoningKey, Longer;
    match e
    case ItemDone(at, item) => if item.Reasoning? { SettledClaims(cfg, m, at, item); }
    case _ =>
  }

  lemma SettledClaims(cfg: Config, m: Mind, at: Locator, item: Item)
    requires item.Reasoning?
    requires var k := EventItemKey(at, item); m.Claims(k) && k != "" && ReasoningKey(k) == k
    ensures Settled(cfg, m, at, item).Claims(EventItemKey(at, item))
  {
    hide EventItemKey, KeyOf, ReasoningKey, TrimSpace, Longer;
  }

  lemma NamesNoEnd(e: Event, k: string)
    requires Names(e, k)
    ensures !e.Completed?
  {
  }

  lemma {:induction false} RunClaims(s: Session, es: seq<Event>, k: string)
    requires WellFormed(s) && Orderly(s, es) && HeldLast(s) && MindOf(s).Claims(k)
    requires k != "" && ReasoningKey(k) == k && forall i | 0 <= i < |es| :: Names(es[i], k)
    ensures MindOf(Run(s, es)).Claims(k)
    decreases |es|
  {
    hide WellFormed, Apply, HeldLast, Thinks, Names, MindOf, Mind.Claims, ReasoningKey;
    if es != [] {
      assert Names(es[0], k);
      var t := Apply(s, es[0]);
      if s.Ended() {
        StillEnded(s, es[0], "");
      } else {
        NamesNoEnd(es[0], k);
        EventThinks(s, es[0]);
        ClaimKept(s.cfg, MindOf(s), es[0], MindOf(t), k);
      }
      RunClaims(t, es[1..], k);
    }
  }

  /** A reasoning item that is named the same from its first increment to its end: increments under key k, then any
      events that name no other item, then the item. The item delivers nothing more, and its key is completed. */
  lemma NamedAlike(s: Session, at: Locator, delta: string, mid: seq<Event>, done: Locator, item: Item)
    requires Live(s) && HeldLast(s) && s.cfg.thinking && item.Reasoning?
    requires s.client.thinking.None? || s.reasoningKey == ReasoningEventKey(at)
    requires EventItemKey(done, item) == ReasoningEventKey(at)
    requires forall i | 0 <= i < |mid| :: Names(mid[i], ReasoningEventKey(at))
    requires Orderly(Apply(s, ReasoningDelta(at, delta)), mid) && !Run(Apply(s, ReasoningDelta(at, delta)), mid).Ended()
    ensures var t := Run(Apply(s, ReasoningDelta(at, delta)), mid); var r := Apply(t, ItemDone(done, item));
      Thoughts(r.client.blocks) == Thoughts(t.client.blocks) && ReasoningEventKey(at) in r.completed
  {
    hide WellFormed, Apply, Thoughts, Names, HeldLast, ReasoningEventKey, EventItemKey, Mind.Claims, MindOf;
    var u := Apply(s, ReasoningDelta(at, delta));
    IncrementClaims(s, at, delta);
    EventKeyStable(at);
    RunClaims(u, mid, ReasoningEventKey(at));
    RunGrows(u, mid);
    ItemSilent(Run(u, mid), done, item);
  }

  lemma IncrementClaims(s: Session, at: Locator, delta: string)
    requires Live(s) && HeldLast(s) && s.cfg.thinking
    requires s.client.thinking.None? || s.reasoningKey == ReasoningEventKey(at)
    ensures var u := Apply(s, ReasoningDelta(at, delta));
      u.cfg == s.cfg && HeldLast(u) && MindOf(u).Claims(ReasoningEventKey(at))
  {
    hide WellFormed, Apply, Thoughts, HeldLast, ReasoningEventKey, Added, Part;
    EventThinks(s, ReasoningDelta(at, delta));
    EventKeyStable(at);
    DeltaClaims(s.cfg, MindOf(s), at, delta);
  }

  lemma ItemSilent(t: Session, done: Locator, item: Item)
    requires Live(t) && HeldLast(t) && t.cfg.thinking && item.Reasoning? && MindOf(t).Claims(EventItemKey(done, item))
    ensures var r := Apply(t, ItemDone(done, item));
      Thoughts(r.client.blocks) == Thoughts(t.client.blocks) && EventItemKey(done, item) in r.completed
  {
    hide WellFormed, Apply, Thoughts, HeldLast, Settled, ReasoningKey, FirstNonEmpty, TrimSpace;
    EventThinks(t, ItemDone(done, item));
    SameKey(done, item);
    KeyStable(FirstNonEmpty([item.id, ReasoningEventKey(done)]));
    SettledSilent(t.cfg, MindOf(t), done, item);
  }

  lemma EventKeyStable(at: Locator)
    ensures ReasoningKey(ReasoningEventKey(at)) == ReasoningEventKey(at) != ""
    ensures TrimSpace(ReasoningEventKey(at)) != ""
  {
    hide TrimSpace, FirstNonEmpty, ReasoningKey;
    KeyStable(FirstNonEmpty([at.itemId, at.outputIndex]));
  }

  lemma DeltaClaims(cfg: Config, m: Mind, at: Locator, delta: string)
    requires cfg.thinking && (!m.held || m.key == ReasoningEventKey(at))
    requires ReasoningKey(ReasoningEventKey(at)) == ReasoningEventKey(at)
    ensures Added(cfg, if m.held then m else Part(cfg, m, ReasoningEventKey(at)), delta).Claims(ReasoningEventKey(at))
  {
    hide ReasoningKey, ReasoningEventKey, Longer;
  }

  lemma SettledSilent(cfg: Config, m: Mind, at: Locator, item: Item)
    requires item.Reasoning? && cfg.thinking
    requires var k := EventItemKey(at, item); m.Claims(k) && KeyOf(item, k) == k && k != "" && ReasoningKey(k) == k
    ensures var r := Settled(cfg, m, at, item); r.thoughts == m.thoughts && EventItemKey(at, item) in r.completed
  {
    hide EventItemKey, KeyOf, ReasoningKey, TrimSpace, Longer;
  }

  /** The events of one reasoning text: an increment, a word of the answer, the item's end. */
  function Thought(first: Locator, last: Locator, item: Item): seq<Event>
    requires item.Reasoning?
  {
    [ReasoningDelta(first, item.summary), OutputTextDelta(first, "x"), ItemDone(last, item)]
  }

  /** Such a text is delivered twice, in two blocks, if and only if increment and item are named differently. */
  lemma TwiceInTwoBlocks(cfg: Config, first: Locator, last: Locator, item: Item)
    requires cfg.thinking && !cfg.omitted && item.Reasoning? && item.summary != ""
    ensures Orderly(Initial(cfg), Thought(first, last, item))
    ensures Thoughts(Run(Initial(cfg), Thought(first, last, item)).client.blocks) ==
            if ReasoningEventKey(first) == EventItemKey(last, item) then [item.summary] else [item.summary, item.summary]
  {
    hide WellFormed, Apply, Thoughts, HeldLast, ReasoningEventKey, EventItemKey, Orderly, Run, MindOf, Initial;
    var s := Initial(cfg);
    InitialMind(cfg);
    var es := Thought(first, last, item);
    ThreeEvents(s, es);
    var t := Apply(s, es[0]);
    EventThinks(s, es[0]);
    EventThinks(t, es[1]);
    var u := Apply(t, es[1]);
    EventKeyStable(first);
    ThoughtCut(cfg, MindOf(s), MindOf(t), MindOf(u), first, item.summary);
    MindIs(u);
    ItemDelivered(u, last, item);
    assert [item.summary] + [] == [item.summary];
  }

  lemma MindIs(s: Session)
    ensures MindOf(s).thoughts == Thoughts(s.client.blocks) && MindOf(s).held == s.client.thinking.Some?
    ensures MindOf(s).completed == s.completed
  {
  }

  lemma InitialMind(cfg: Config)
    ensures Live(Initial(cfg)) && HeldLast(Initial(cfg)) && Initial(cfg).cfg == cfg
    ensures MindOf(Initial(cfg)) == Mind([], false, "", "", false, {})
  {
  }

  lemma ThoughtCut(cfg: Config, m: Mind, t: Mind, u: Mind, first: Locator, text: string)
    requires cfg.thinking && !cfg.omitted && text != "" && m == Mind([], false, "", "", false, {})
    requires Thinks(cfg, m, ReasoningDelta(first, text), t) && Thinks(cfg, t, OutputTextDelta(first, "x"), u)
    requires ReasoningKey(ReasoningEventKey(first)) == ReasoningEventKey(first) != ""
    ensures t.thoughts == [text] && t.held && t.completed == {} && u.thoughts == [text] && !u.held && u.completed == {ReasoningEventKey(first)}
  {
    hide ReasoningEventKey, ReasoningKey;
    assert "" + text == text;
  }

  lemma ThreeEvents(s: Session, es: seq<Event>)
    requires Live(s) && |es| == 3 && forall i | 0 <= i < 3 :: !Ends(es[i]) && !es[i].Done?
    ensures Live(Apply(s, es[0])) && Live(Apply(Apply(s, es[0]), es[1]))
    ensures Orderly(s, es) && Run(s, es) == Apply(Apply(Apply(s, es[0]), es[1]), es[2])
  {
    hide WellFormed, Apply;
    EndedWhen(s, es[0]);
    EndedWhen(Apply(s, es[0]), es[1]);
    var t, rest := Apply(s, es[0]), es[1..];
    assert rest[0] == es[1] && rest[1..] == [es[2]];
    OneEventRun(Apply(t, es[1]), es[2]);
    assert Orderly(t, rest) && Run(t, rest) == Run(Apply(t, es[1]), [es[2]]);
  }

  lemma TwoEvents(s: Session, d: Event, c: Event)
    requires Live(s) && !Ends(d) && !d.Done?
    ensures Live(Apply(s, d)) && Orderly(s, [d, c]) && Run(s, [d, c]) == Apply(Apply(s, d), c)
  {
    hide WellFormed, Apply;
    EndedWhen(s, d);
    OneEventRun(Apply(s, d), c);
    assert [d, c][1..] == [c];
  }

  /** Named alike or not, a text whose item is never ended is delivered again by the completed event, into the
      block that is still open. */
  lemma TwiceInOneBlock(cfg: Config, first: Locator, item: Item)
    requires cfg.thinking && !cfg.omitted && item.Reasoning? && item.summary != ""
    ensures var es := [ReasoningDelta(first, item.summary), Completed(false, "", None, [item])];
      && Orderly(Initial(cfg), es)
      && Thoughts(Run(Initial(cfg), es).client.blocks) == [item.summary + item.summary]
  {
    hide WellFormed, Apply, Thoughts, HeldLast, ReasoningEventKey, MindOf, Initial, Orderly, Run, Longer;
    var s := Initial(cfg);
    InitialMind(cfg);
    var d, c := ReasoningDelta(first, item.summary), Completed(false, "", None, [item]);
    TwoEvents(s, d, c);
    var t := Apply(s, d);
    EventThinks(s, d);
    EventKeyStable(first);
    ThoughtOpen(cfg, MindOf(s), MindOf(t), first, item.summary);
    MindIs(t);
    CompletedOne(t, item);
    MindIs(Apply(t, c));
    LongerOne(item.summary);
  }

  lemma LongerOne(text: string)
    ensures Longer([text], text) == [text + text]
  {
  }

  lemma ThoughtOpen(cfg: Config, m: Mind, t: Mind, first: Locator, text: string)
    requires cfg.thinking && !cfg.omitted && text != "" && m == Mind([], false, "", "", false, {})
    requires Thinks(cfg, m, ReasoningDelta(first, text), t)
    ensures t.thoughts == [text] && t.held && t.completed == {}
  {
    hide ReasoningEventKey, ReasoningKey;
    assert "" + text == text;
  }

  lemma CompletedOne(t: Session, item: Item)
    requires Live(t) && HeldLast(t) && t.cfg.thinking && !t.cfg.omitted && item.Reasoning? && item.summary != ""
    requires t.client.thinking.Some? && t.completed == {}
    ensures MindOf(Apply(t, Completed(false, "", None, [item]))).thoughts == Longer(MindOf(t).thoughts, item.summary)
  {
    hide WellFormed, Start, Finish, FinalItem, Thoughts, HeldLast, ReasoningKey, FirstNonEmpty, Decimal;
    var b := Begun(t, "", None);
    BegunMind(t, "", None);
    FinalItemMind(b, item, 0);
    var u := FinalItem(b, item, 0);
    assert [item][1..] == [] && FinalItems(b, [item], 0) == FinalItems(u, [], 1) == u;
    FinishMind(u, if u.hasToolUse then "tool_use" else "end_turn", t.usage);
  }

  // ---- completed events ----

  /** The session when the first `j` items of a completed output have been taken. */
  function Taken(s: Session, e: Event, j: nat): (r: Session)
    requires Live(s) && e.Completed? && j <= |e.output|
    ensures Writing(r)
  {
    FinalItems(Begun(s, e.id, e.usage), e.output[..j], 0)
  }

  lemma {:induction false} FinalItemsLast(s: Session, items: seq<Item>, n: nat, k: nat)
    requires Writing(s) && |items| == k + 1
    ensures FinalItems(s, items, n) == FinalItem(FinalItems(s, items[..k], n), items[k], n + k)
    decreases k
  {
    hide WellFormed, FinalItem;
    if k == 0 {
      assert items[1..] == [] && items[..0] == [];
    } else {
      var t, rest := FinalItem(s, items[0], n), items[1..];
      FinalItemsLast(t, rest, n + 1, k - 1);
      assert items[..k][1..] == rest[..k - 1] && items[..k][0] == items[0];
    }
  }

  lemma TakenNext(s: Session, e: Event, j: nat)
    requires Live(s) && e.Completed? && j < |e.output|
    ensures Taken(s, e, j + 1) == FinalItem(Taken(s, e, j), e.output[j], j)
  {
    hide WellFormed, FinalItem, FinalItems;
    var items := e.output[..j + 1];
    FinalItemsLast(Begun(s, e.id, e.usage), items, 0, j);
    assert items[..j] == e.output[..j];
  }

  lemma TakenHolds(s: Session, e: Event, j: nat)
    requires Live(s) && HeldLast(s) && e.Completed? && j <= |e.output|
    ensures Taken(s, e, j).cfg == s.cfg && HeldLast(Taken(s, e, j)) && MindOf(Taken(s, e, 0)) == MindOf(s)
  {
    hide WellFormed, FinalItem, MindOf, HeldLast, Grows;
    BegunMind(s, e.id, e.usage);
    FinalItemsGrow(Begun(s, e.id, e.usage), e.output[..j], 0);
    assert e.output[..0] == [];
  }

  /** One reasoning item said at the end: its text is added if and only if its key is not completed, which it is then. */
  lemma SaidExactly(cfg: Config, m: Mind, item: Item, fallback: string)
    requires Sound(m) && cfg.thinking && !cfg.omitted && item.Reasoning? && item.summary != ""
    ensures var r, k := Said(cfg, m, item, fallback), KeyOf(item, fallback);
      && Join(r.thoughts) == Join(m.thoughts) + (if k !in m.completed then item.summary else "")
      && k in r.completed && m.completed <= r.completed
  {
    hide Said, Join, KeyOf;
    SaidGrows(cfg, m, item, fallback);
    var k, f := KeyOf(item, fallback), ItemFull(cfg, m, item, fallback);
    if k !in m.completed {
      assert f == [Full(k, item.summary)] && f[1..] == [] && item.summary + "" == item.summary;
      assert f[0].key in Said(cfg, m, item, fallback).completed;
    } else {
      assert f == [];
    }
  }

  /** A completed event, over every run and for each reasoning item of its output: when the items before it have been
      taken, the item's summary is added to what was said if and only if its key is not completed by then; and it is
      afterwards. The end of the response adds nothing. */
  lemma CompletedDelivers(cfg: Config, pre: seq<Event>, e: Event, j: nat)
    requires Orderly(Initial(cfg), pre) && !Run(Initial(cfg), pre).Ended() && e.Completed? && j < |e.output|
    requires cfg.thinking && !cfg.omitted && e.output[j].Reasoning? && e.output[j].summary != ""
    ensures var s := Run(Initial(cfg), pre);
      var before, after, k := Taken(s, e, j), Taken(s, e, j + 1), KeyOf(e.output[j], FinalKey(j));
      && Join(Thoughts(after.client.blocks))
         == Join(Thoughts(before.client.blocks)) + (if k !in before.completed then e.output[j].summary else "")
      && k in after.completed
      && MindOf(Taken(s, e, 0)) == MindOf(s)
      && Thoughts(Apply(s, e).client.blocks) == Thoughts(Taken(s, e, |e.output|).client.blocks)
  {
    hide WellFormed, Apply, FinalItem, Taken, Said, KeyOf, Join, Thoughts;
    var s := Run(Initial(cfg), pre);
    RunHolds(cfg, pre);
    TakenHolds(s, e, j);
    TakenNext(s, e, j);
    var t := Taken(s, e, j);
    FinalItemMind(t, e.output[j], j);
    HeldIsSound(t);
    SaidExactly(cfg, MindOf(t), e.output[j], FinalKey(j));
    MindIs(t);
    MindIs(FinalItem(t, e.output[j], j));
    LastAddsNothing(s, e);
  }

  lemma LastAddsNothing(s: Session, e: Event)
    requires Live(s) && HeldLast(s) && e.Completed?
    ensures Thoughts(Apply(s, e).client.blocks) == Thoughts(Taken(s, e, |e.output|).client.blocks)
  {
    hide WellFormed, Start, FinalItems, Finish, Thoughts;
    TakenHolds(s, e, |e.output|);
    var u := Taken(s, e, |e.output|);
    assert e.output[..|e.output|] == e.output;
    FinishMind(u, if u.hasToolUse then "tool_use" else if e.incomplete then "max_tokens" else "end_turn",
               if e.usage.Some? then e.usage.value else s.usage);
  }

  /** For an output of one reasoning item: over every run, the completed event repeats or tells its text if and only if
      no block was finalized under the item's key. */
  lemma CompletedDeliversOne(cfg: Config, pre: seq<Event>, e: Event)
    requires Orderly(Initial(cfg), pre) && !Run(Initial(cfg), pre).Ended() && e.Completed? && |e.output| == 1
    requires cfg.thinking && !cfg.omitted && e.output[0].Reasoning? && e.output[0].summary != ""
    ensures var s := Run(Initial(cfg), pre);
      Join(Thoughts(Apply(s, e).client.blocks)) == Join(Thoughts(s.client.blocks))
        + (if KeyOf(e.output[0], FinalKey(0)) !in s.completed then e.output[0].summary else "")
  {
    hide WellFormed, Apply, Taken, KeyOf, Join, Thoughts;
    CompletedDelivers(cfg, pre, e, 0);
    var s := Run(Initial(cfg), pre);
    MindIs(s);
    MindIs(Taken(s, e, 0));
  }

  /** A text whose block was finalized by what came after, and then the completed event: it is told once if increment
      and item are named alike, and twice if not. */
  lemma CompletedAfterText(cfg: Config, first: Locator, item: Item)
    requires cfg.thinking && !cfg.omitted && item.Reasoning? && item.summary != ""
    ensures var pre, c := [ReasoningDelta(first, item.summary), OutputTextDelta(first, "x")], Completed(false, "", None, [item]);
      && Orderly(Initial(cfg), pre + [c])
      && Join(Thoughts(Run(Initial(cfg), pre + [c]).client.blocks))
         == item.summary + (if KeyOf(item, FinalKey(0)) == ReasoningEventKey(first) then "" else item.summary)
  {
    hide WellFormed, Apply, Thoughts, HeldLast, ReasoningEventKey, MindOf, Initial, Orderly, Run, KeyOf;
    var s := Initial(cfg);
    InitialMind(cfg);
    var d, x, c := ReasoningDelta(first, item.summary), OutputTextDelta(first, "x"), Completed(false, "", None, [item]);
    TwoEvents(s, d, x);
    var t := Apply(s, d);
    var u := Apply(t, x);
    EndedWhen(t, x);
    EventThinks(s, d);
    EventThinks(t, x);
    EventKeyStable(first);
    ThoughtCut(cfg, MindOf(s), MindOf(t), MindOf(u), first, item.summary);
    MindIs(u);
    CompletedDeliversOne(cfg, [d, x], c);
    OneEventRun(u, c);
    RunSplit(s, [d, x], [c]);
    assert [item.summary][1..] == [] && item.summary + "" == item.summary;
  }

  /** Increments that carry the output index only and an item that carries its id are named differently. */
  lemma NamedApart()
    ensures ReasoningEventKey(Locator("", "0", "")) == "reasoning:0"
    ensures EventItemKey(Locator("", "0", ""), Reasoning("rs_1", "because", "")) == "reasoning:rs_1"
  {
    hide TrimSpace, FirstNonEmpty;
    PlainKey("0");
    PlainKey("rs_1");
    TrimSpaceKeeps("");
    FirstOf("", "0");
    FirstOf("rs_1", ReasoningEventKey(Locator("", "0", "")));
  }

  /** Such a run from the start: the consumer is told twice why. */
  lemma ToldTwice(cfg: Config)
    requires cfg.thinking && !cfg.omitted
    ensures var at := Locator("", "0", ""); var es := Thought(at, at, Reasoning("rs_1", "because", ""));
      Orderly(Initial(cfg), es) && Thoughts(Run(Initial(cfg), es).client.blocks) == ["because", "because"]
  {
    hide WellFormed, Apply, Thoughts, ReasoningEventKey, EventItemKey, Orderly, Run, Initial;
    var at := Locator("", "0", "");
    NamedApart();
    assert "reasoning:0"[10] != "reasoning:rs_1"[10];
    TwiceInTwoBlocks(cfg, at, at, Reasoning("rs_1", "because", ""));
  }

  lemma PlainKey(name: string)
    requires name != "" && |name| < 10 && !IsSpace(name[0]) && !IsSpace(name[|name| - 1])
    ensures TrimSpace(name) == name && ReasoningKey(name) == "reasoning:" + name
  {
    hide IsSpace;
    TrimSpaceKeeps(name);
  }
}
