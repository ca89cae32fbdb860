/** What one upstream event does to the translated message, stated on the message the
    consumer sees (blocks by index) instead of on frames, pointers and flags. */
module StreamSession {
  import opened Text
  import opened StreamReader

  datatype Usage = Usage(input: int, output: int)

  datatype Locator = Locator(itemId: string, outputIndex: string, contentIndex: string)

  datatype Item =
    | Reasoning(id: string, summary: string, encrypted: string)
    | FunctionCall(id: string, callId: string, name: string, arguments: string)
    | Message(id: string, texts: seq<string>)
    | UnknownItem

  /** Upstream events after JSON decoding. */
  datatype Event =
    | Blank
    | Done
    | BadJson
    | Created(id: string, model: string, inputTokens: int)
    | OutputTextDelta(at: Locator, delta: string)
    | ReasoningPartAdded(at: Locator)
    | ReasoningDelta(at: Locator, delta: string)
    | ReasoningPartDone
    | ContentPartAdded(at: Locator, isText: bool)
    | ContentPartDone(at: Locator, isText: bool, text: string)
    | ItemAdded(at: Locator, item: Item)
    | ArgumentsDelta(at: Locator, callId: string, name: string, delta: string)
    | ArgumentsDone(at: Locator, callId: string, name: string, arguments: string)
    | ItemDone(at: Locator, item: Item)
    | Completed(incomplete: bool, id: string, usage: Option<Usage>, output: seq<Item>)
    | ResponseFailed(status: int, message: string)
    | UpstreamError(message: string)
    | UnknownEvent

  /** Fixed for one translator. `freshId` stands for the clock-based id it makes up. */
  datatype Config = Config(requestModel: string, freshId: string, thinking: bool, omitted: bool)

  datatype Session = Session(
    cfg: Config,
    msgId: string,
    model: string,
    usage: Usage,
    hasToolUse: bool,
    client: Client,
    table: map<string, int>,
    keys: seq<string>,
    signature: string,
    stopPending: bool,
    reasoningKey: string,
    completed: set<string>)
  {
    predicate Started() { client.head.Some? }

    predicate Ended() { !client.ending.Running? }

    /** The text or tool block registered under `key`. */
    function View(key: string): Option<Block>
      requires WellFormed(this)
    {
      if key in table then Some(client.blocks[table[key]]) else None
    }

    predicate HasContent(key: string)
      requires WellFormed(this)
    {
      key in table && client.blocks[table[key]].content != ""
    }

    predicate AnyText() {
      exists i | 0 <= i < |client.blocks| :: client.blocks[i].kind == TextKind && client.blocks[i].content != ""
    }
  }

  function Initial(cfg: Config): (s: Session)
    ensures Live(s) && !s.Started()
  {
    Session(cfg, "", cfg.requestModel, Usage(0, 0), false, Fresh, map[], [], "", false, "", {})
  }

  function Prefix(kind: Kind): string {
    match kind
    case TextKind => "text:"
    case ToolKind => "tool:"
    case ThinkingKind => "thinking:"
  }

  /** The kind of block a table key stands for. */
  function KeyKind(key: string): Kind {
    if "text:" <= key then TextKind else ToolKind
  }

  function Qualify(kind: Kind, name: string): (k: string)
    ensures Prefix(kind) <= k
    ensures kind != ThinkingKind ==> KeyKind(k) == kind
  {
    var k := if Prefix(kind) <= name then name else Prefix(kind) + name;
    assert k[1] == Prefix(kind)[1];
    k
  }

  function BlockKey(kind: Kind, key: string): (k: string)
    ensures kind != ThinkingKind ==> KeyKind(k) == kind
  {
    Qualify(kind, if TrimSpace(key) == "" then "default" else TrimSpace(key))
  }

  function ItemKey(values: seq<string>): string {
    var k := FirstNonEmpty(values);
    if k == "" then "default" else k
  }

  function EventKey(at: Locator): string {
    ItemKey([at.itemId, at.outputIndex, at.contentIndex])
  }

  function ReasoningKey(key: string): string {
    var t := TrimSpace(key);
    if t == "" then "reasoning:default" else if "reasoning:" <= t then t else "reasoning:" + t
  }

  function ReasoningEventKey(at: Locator): string {
    ReasoningKey(FirstNonEmpty([at.itemId, at.outputIndex]))
  }

  ghost predicate HasTool(blocks: seq<Block>) {
    exists i | 0 <= i < |blocks| :: blocks[i].kind == ToolKind
  }

  /** The block table and `keys` (which key registered block i; "" for thinking) are inverse, a key's
      prefix fixes its block's kind, and the separately held thinking block is the only open one. */
  ghost predicate WellFormed(s: Session) {
    var c := s.client;
    && |s.keys| == |c.blocks|
    && (forall k | k in s.table ::
          && 0 <= s.table[k] < |c.blocks| && s.keys[s.table[k]] == k
          && c.blocks[s.table[k]].kind == KeyKind(k))
    && (forall i | 0 <= i < |c.blocks| && c.blocks[i].kind != ThinkingKind ::
          s.keys[i] in s.table && s.table[s.keys[i]] == i)
    && (forall i | 0 <= i < |c.blocks| && c.blocks[i].kind == ThinkingKind && c.blocks[i].open ::
          c.thinking == Some(i))
    && (c.thinking.Some? ==>
          s.cfg.thinking && c.Has(c.thinking.value, ThinkingKind) && c.blocks[c.thinking.value].signature == "")
    && (c.head.None? ==> c.blocks == [])
    && (s.hasToolUse <==> HasTool(c.blocks))
    && !c.ending.Stopping?
    && (!c.ending.Running? ==> c.AllClosed())
  }

  ghost predicate Live(s: Session) {
    WellFormed(s) && s.client.ending.Running?
  }

  ghost predicate Writing(s: Session) {
    Live(s) && s.Started()
  }

  lemma ScalarsKeep(s: Session, r: Session)
    requires Live(s) && r.cfg == s.cfg && r.client == s.client && r.table == s.table && r.keys == s.keys
    requires r.hasToolUse == s.hasToolUse
    ensures Live(r)
  {
  }

  /** Same table over blocks of the same kinds, with the thinking block still told apart. */
  lemma Reshape(s: Session, r: Session)
    requires Live(s) && r.cfg == s.cfg && r.table == s.table && r.keys == s.keys && r.hasToolUse == s.hasToolUse
    requires r.client.head == s.client.head && r.client.ending.Running?
    requires |r.client.blocks| == |s.client.blocks|
    requires forall i | 0 <= i < |s.client.blocks| :: r.client.blocks[i].kind == s.client.blocks[i].kind
    requires forall i | 0 <= i < |r.client.blocks| && r.client.blocks[i].kind == ThinkingKind && r.client.blocks[i].open ::
               r.client.thinking == Some(i)
    requires r.client.thinking.Some? ==>
               && s.cfg.thinking && r.client.Has(r.client.thinking.value, ThinkingKind)
               && r.client.blocks[r.client.thinking.value].signature == ""
    ensures Live(r)
  {
    SameKinds(s.client.blocks, r.client.blocks);
  }

  lemma HeldThinking(s: Session)
    requires Live(s) && s.client.thinking.Some?
    ensures s.cfg.thinking && s.client.Has(s.client.thinking.value, ThinkingKind)
    ensures s.client.blocks[s.client.thinking.value].signature == ""
    ensures forall i | 0 <= i < |s.client.blocks| && s.client.blocks[i].kind == ThinkingKind && s.client.blocks[i].open ::
              s.client.thinking == Some(i)
  {
  }

  lemma ThinkingNeedsConfig(s: Session)
    requires Live(s)
    ensures !s.cfg.thinking ==> s.client.thinking.None?
  {
  }

  function Start(s: Session, id: string, model: string): (r: Session)
    requires Live(s)
    ensures Writing(r) && r.client.blocks == s.client.blocks && r.table == s.table && r.client.thinking == s.client.thinking
  {
    if s.Started() then s
    else
      var id1 := if id == "" then s.cfg.freshId else id;
      var id2 := if "resp_" <= id1 then "msg_" + TrimPrefix(id1, "resp_") else id1;
      var m1 := if model == "" then s.cfg.requestModel else model;
      var m2 := if m1 == "" then s.model else m1;
      s.(msgId := id2, model := m2, client := s.client.(head := Some(Head(id2, m2, s.usage.input))))
  }

  function StartHere(s: Session): (r: Session)
    requires Live(s)
    ensures Writing(r) && r.client.blocks == s.client.blocks && r.table == s.table && r.client.thinking == s.client.thinking
  {
    Start(s, s.msgId, s.model)
  }

  // ---- thinking ----

  /** Signs (when a signature is known) and stops block `i`. */
  function SignAndStop(c: Client, i: int, signature: string): (r: Client)
    requires 0 <= i < |c.blocks| && c.thinking == Some(i)
    ensures r.head == c.head && r.ending == c.ending && r.thinking.None? && |r.blocks| == |c.blocks|
    ensures r.blocks[i].kind == c.blocks[i].kind && !r.blocks[i].open
    ensures forall j | 0 <= j < |c.blocks| && j != i :: r.blocks[j] == c.blocks[j]
  {
    (if signature != "" then c.Sign(i, signature) else c).Close(i)
  }

  /** Ends the held thinking block, if any; `clear` also forgets the signature and the reasoning key. */
  function EndThinking(s: Session, clear: bool): (r: Session)
    requires Live(s)
    ensures Live(r) && r.client.thinking.None? && r.Started() == s.Started()
    ensures r.table == s.table && |r.client.blocks| == |s.client.blocks|
    ensures forall i | 0 <= i < |s.client.blocks| && s.client.blocks[i].kind != ThinkingKind ::
              r.client.blocks[i] == s.client.blocks[i]
  {
    hide WellFormed, SignAndStop;
    ThinkingNeedsConfig(s);
    if !s.cfg.thinking then s
    else if s.client.thinking.None? then
      var r := if clear then s.(signature := "") else s;
      ScalarsKeep(s, r);
      r
    else
      HeldThinking(s);
      var i := s.client.thinking.value;
      var r := s.(client := SignAndStop(s.client, i, s.signature),
                  completed := if s.reasoningKey != "" then s.completed + {s.reasoningKey} else s.completed,
                  stopPending := false,
                  signature := if clear then "" else s.signature,
                  reasoningKey := if clear then "" else s.reasoningKey);
      Reshape(s, r);
      r
  }

  function BeforeContent(s: Session): (r: Session)
    requires Live(s)
    ensures Live(r) && r.client.thinking.None? && r.Started() == s.Started()
    ensures r.table == s.table && |r.client.blocks| == |s.client.blocks|
    ensures forall i | 0 <= i < |s.client.blocks| && s.client.blocks[i].kind != ThinkingKind ::
              r.client.blocks[i] == s.client.blocks[i]
  {
    if s.client.thinking.None? then s else EndThinking(s, true)
  }

  function OpenThinking(s: Session): (r: Session)
    requires Live(s)
    ensures Live(r) && (s.Started() ==> r.Started())
    ensures s.cfg.thinking ==> r.client.thinking.Some?
  {
    if !s.cfg.thinking || s.client.thinking.Some? then s
    else
      var t := StartHere(s);
      assert HasTool(t.client.Open(ThinkingKind, "", "").blocks) <==> HasTool(t.client.blocks) by {
        OneMoreKind(t.client.blocks, Block(ThinkingKind, "", "", "", "", true));
      }
      t.(client := t.client.Open(ThinkingKind, "", ""), keys := t.keys + [""], stopPending := false)
  }

  function StartThinkingPart(s: Session, key: string): (r: Session)
    requires Live(s)
    ensures Live(r) && (s.Started() ==> r.Started())
  {
    if !s.cfg.thinking then s
    else
      var t := if s.client.thinking.Some? && s.stopPending then EndThinking(s, false) else s;
      OpenThinking(t.(reasoningKey := ReasoningKey(key)))
  }

  function AddThinking(s: Session, text: string): (r: Session)
    requires Live(s)
    ensures Live(r) && (s.Started() ==> r.Started())
  {
    hide WellFormed, OpenThinking;
    if !s.cfg.thinking || s.cfg.omitted || text == "" then s
    else
      var t := OpenThinking(s);
      HeldThinking(t);
      var r := t.(client := t.client.Append(t.client.thinking.value, text));
      Reshape(t, r);
      r
  }

  function CaptureSignature(s: Session, key: string, signature: string): (r: Session)
    requires Live(s)
    ensures Live(r) && r.client == s.client && r.table == s.table
  {
    if !s.cfg.thinking || signature == "" then s
    else
      var r := s.(signature := signature,
                  reasoningKey := if TrimSpace(key) != "" then ReasoningKey(key) else s.reasoningKey);
      ScalarsKeep(s, r);
      r
  }

  function FinalReasoning(s: Session, item: Item, fallback: string): (r: Session)
    requires Live(s) && item.Reasoning?
    ensures Live(r) && (s.Started() ==> r.Started())
  {
    hide WellFormed, ReasoningKey, FirstNonEmpty, OpenThinking, AddThinking, EndThinking;
    var key := ReasoningKey(FirstNonEmpty([item.id, fallback]));
    var summary := if s.cfg.omitted then "" else item.summary;
    var signature := if item.encrypted == "" then s.signature else item.encrypted;
    if !s.cfg.thinking || key in s.completed || (summary == "" && signature == "") then s
    else
      var t := s.(reasoningKey := key, signature := if signature != "" then signature else s.signature);
      ScalarsKeep(s, t);
      EndThinking(AddThinking(OpenThinking(t), summary), true)
  }

  // ---- text and tool blocks ----

  function OpenText(s: Session, key: string): (r: Session)
    requires Writing(s)
    ensures Writing(r) && r.client.thinking.None? && BlockKey(TextKind, key) in r.table
  {
    var t := BeforeContent(s);
    var k := BlockKey(TextKind, key);
    if k in t.table then t
    else Register(t, k, TextKind, "", "")
  }

  function Register(t: Session, k: string, kind: Kind, callId: string, name: string): (r: Session)
    requires Writing(t) && t.client.thinking.None? && k !in t.table && kind == KeyKind(k)
    ensures Writing(r) && r.client.thinking.None? && k in r.table
  {
    OneMoreKind(t.client.blocks, Block(kind, callId, name, "", "", true));
    t.(client := t.client.Open(kind, callId, name),
       table := t.table[k := |t.client.blocks|],
       keys := t.keys + [k],
       hasToolUse := t.hasToolUse || kind == ToolKind)
  }

  lemma OneMoreKind(blocks: seq<Block>, b: Block)
    ensures HasTool(blocks + [b]) <==> HasTool(blocks) || b.kind == ToolKind
  {
    var all := blocks + [b];
    if b.kind == ToolKind { assert all[|blocks|].kind == ToolKind; }
    if HasTool(blocks) {
      var i :| 0 <= i < |blocks| && blocks[i].kind == ToolKind;
      assert all[i].kind == ToolKind;
    }
  }

  lemma SameKinds(a: seq<Block>, b: seq<Block>)
    requires |a| == |b| && forall i | 0 <= i < |a| :: a[i].kind == b[i].kind
    ensures HasTool(a) <==> HasTool(b)
  {
    if HasTool(a) { var i :| 0 <= i < |a| && a[i].kind == ToolKind; assert b[i].kind == ToolKind; }
    if HasTool(b) { var i :| 0 <= i < |b| && b[i].kind == ToolKind; assert a[i].kind == ToolKind; }
  }

  function OpenTool(s: Session, key: string, callId: string, name: string): (r: Session)
    requires Writing(s)
    ensures Writing(r) && r.client.thinking.None? && BlockKey(ToolKind, FirstNonEmpty([key, callId])) in r.table
  {
    var t := BeforeContent(s);
    var k := BlockKey(ToolKind, FirstNonEmpty([key, callId]));
    if k in t.table then t
    else Register(t, k, ToolKind, if callId == "" then TrimPrefix(k, "tool:") else callId,
                  if name == "" then "tool" else name)
  }

  /** Appends to a registered block unless it was stopped. */
  function AppendOpen(s: Session, k: string, text: string): (r: Session)
    requires Writing(s) && s.client.thinking.None? && k in s.table
    ensures Writing(r) && r.client.thinking.None? && r.table == s.table && |r.client.blocks| == |s.client.blocks|
  {
    var i := s.table[k];
    if !s.client.blocks[i].open then s
    else
      var r := s.(client := s.client.Append(i, text));
      SameShape(s, r);
      r
  }

  /** Changing contents or closing text and tool blocks keeps the invariants. */
  lemma SameShape(s: Session, r: Session)
    requires Live(s) && r.cfg == s.cfg && r.table == s.table && r.keys == s.keys && r.hasToolUse == s.hasToolUse
    requires r.client.head == s.client.head && r.client.thinking == s.client.thinking && r.client.ending.Running?
    requires |r.client.blocks| == |s.client.blocks|
    requires forall i | 0 <= i < |s.client.blocks| ::
               && r.client.blocks[i].kind == s.client.blocks[i].kind
               && (s.client.blocks[i].kind == ThinkingKind ==> r.client.blocks[i] == s.client.blocks[i])
    ensures Live(r)
  {
    SameKinds(s.client.blocks, r.client.blocks);
  }

  function AddText(s: Session, key: string, text: string): (r: Session)
    requires Writing(s)
    ensures Writing(r)
  {
    if text == "" then s
    else AppendOpen(OpenText(s, key), BlockKey(TextKind, key), text)
  }

  function AddTexts(s: Session, key: string, texts: seq<string>): (r: Session)
    requires Live(s)
    ensures Live(r) && (s.Started() ==> r.Started())
    decreases texts
  {
    if texts == [] then s
    else if texts[0] == "" then AddTexts(s, key, texts[1..])
    else AddTexts(AddText(StartHere(s), key, texts[0]), key, texts[1..])
  }

  function AddArguments(s: Session, key: string, callId: string, name: string, arguments: string): (r: Session)
    requires Writing(s)
    ensures Writing(r)
  {
    if arguments == "" then s
    else AppendOpen(OpenTool(s, key, callId, name), BlockKey(ToolKind, FirstNonEmpty([key, callId])), arguments)
  }

  function StopBlock(s: Session, key: string, kind: Kind): (r: Session)
    requires Live(s) && kind != ThinkingKind
    ensures Live(r) && (s.Started() ==> r.Started()) && r.table == s.table
  {
    var k := BlockKey(kind, key);
    if k !in s.table || !s.client.blocks[s.table[k]].open then s
    else
      var r := s.(client := s.client.Close(s.table[k]));
      SameShape(s, r);
      r
  }

  /** A full value for a tool block: used only when nothing was streamed, then the block stops. */
  function FinishTool(s: Session, key: string, callId: string, name: string, arguments: string): (r: Session)
    requires Writing(s)
    ensures Writing(r)
  {
    var t := OpenTool(s, key, callId, name);
    var u := if t.HasContent(BlockKey(ToolKind, FirstNonEmpty([key, callId]))) then t
             else AddArguments(t, key, callId, name, arguments);
    StopBlock(u, key, ToolKind)
  }

  // ---- endings ----

  /** Every block is stopped, then the ending is recorded. */
  function End(t: Session, ending: Ending): (r: Session)
    requires Live(t) && t.client.thinking.None? && (ending.Finished? || ending.Failed?)
    ensures WellFormed(r) && r.Ended() && r.Started() == t.Started()
  {
    var r := t.(client := t.client.CloseAll());
    SameShape(t, r);
    r.(client := r.client.(ending := ending))
  }

  function Finish(s: Session, reason: string, usage: Usage): (r: Session)
    requires WellFormed(s)
    ensures WellFormed(r) && r.Ended() && r.Started() == (s.Ended() ==> s.Started())
  {
    hide EndThinking, Start, End;
    if s.Ended() then s
    else
      var t := EndThinking(StartHere(s), true);
      var why := if reason == "" then (if t.hasToolUse then "tool_use" else "end_turn") else reason;
      var inTokens := if usage.input == 0 && t.usage.input > 0 then t.usage.input else usage.input;
      var outTokens := if usage.output == 0 && t.usage.output > 0 then t.usage.output else usage.output;
      End(t, Finished(why, inTokens, outTokens))
  }

  function Fail(s: Session, status: int, message: string): (r: Session)
    requires WellFormed(s)
    ensures WellFormed(r) && r.Ended() && r.Started() == s.Started()
  {
    hide EndThinking, End;
    if s.Ended() then s
    else End(EndThinking(s, true), Failed(status, message))
  }

  // ---- events ----

  function FinalItem(s: Session, item: Item, n: nat): (r: Session)
    requires Writing(s)
    ensures Writing(r)
  {
    match item
    case Reasoning(_, _, _) => FinalReasoning(s, item, "final-reasoning-" + Decimal(n))
    case Message(id, texts) =>
      var key := ItemKey([id, "final-" + Decimal(n)]);
      var k := BlockKey(TextKind, key);
      if k !in s.table && s.AnyText() then s
      else if s.HasContent(k) then StopBlock(s, key, TextKind)
      else StopBlock(AddTexts(s, key, texts), key, TextKind)
    case FunctionCall(id, callId, name, arguments) =>
      var call := FirstNonEmpty([callId, id]);
      FinishTool(s, ItemKey([id, call, "final-" + Decimal(n)]), call, name, if arguments == "" then "{}" else arguments)
    case UnknownItem => s
  }

  function FinalItems(s: Session, items: seq<Item>, n: nat): (r: Session)
    requires Writing(s)
    ensures Writing(r)
    decreases |items|
  {
    if items == [] then s else FinalItems(FinalItem(s, items[0], n), items[1..], n + 1)
  }

  function CallId(callId: string, id: string): string {
    if callId == "" then id else callId
  }

  /** Events that begin the end of the stream, whatever came before. */
  predicate Ends(e: Event) {
    e.Completed? || e.ResponseFailed? || e.UpstreamError?
  }

  /** Events the translator ignores once it has ended. */
  predicate Late(e: Event) {
    e.Done? || e.Blank? || e.BadJson? || e.ResponseFailed? || e.UpstreamError? || e.UnknownEvent?
  }

  ghost predicate InOrder(s: Session, e: Event) {
    WellFormed(s) && (s.Ended() ==> Late(e))
  }

  function Apply(s: Session, e: Event): (r: Session)
    requires InOrder(s, e)
    ensures WellFormed(r) && (s.Started() ==> r.Started())
  {
    hide WellFormed;
    match e
    case Blank => s
    case BadJson => s
    case UnknownEvent => s
    case Done => if s.Started() then Finish(s, "", s.usage) else s
    case Created(id, model, inputTokens) =>
      var t := if inputTokens > 0 then s.(usage := s.usage.(input := inputTokens)) else s;
      ScalarsKeep(s, t);
      Start(t, id, if s.cfg.requestModel != "" then s.cfg.requestModel else model)
    case OutputTextDelta(at, delta) => AddText(StartHere(s), EventKey(at), delta)
    case ReasoningPartAdded(at) => StartThinkingPart(StartHere(s), ReasoningEventKey(at))
    case ReasoningDelta(at, delta) => ApplyReasoningDelta(StartHere(s), ReasoningEventKey(at), delta)
    case ReasoningPartDone =>
      ScalarsKeep(s, s.(stopPending := true));
      s.(stopPending := true)
    case ContentPartAdded(at, isText) => if isText then OpenText(StartHere(s), EventKey(at)) else s
    case ContentPartDone(at, isText, text) => if isText then ApplyTextDone(s, EventKey(at), text) else s
    case ItemAdded(at, item) => ApplyItemAdded(StartHere(s), at, item)
    case ArgumentsDelta(at, callId, name, delta) =>
      AddArguments(StartHere(s), CallKey(at, callId), CallId(callId, at.itemId), name, delta)
    case ArgumentsDone(at, callId, name, arguments) =>
      FinishTool(StartHere(s), CallKey(at, callId), CallId(callId, at.itemId), name, arguments)
    case ItemDone(at, item) => ApplyItemDone(s, at, item)
    case Completed(incomplete, id, usage, output) => ApplyCompleted(s, incomplete, id, usage, output)
    case ResponseFailed(status, message) => Fail(s, status, message)
    case UpstreamError(message) => Fail(s, 502, message)
  }

  function CallKey(at: Locator, callId: string): string {
    ItemKey([at.itemId, CallId(callId, at.itemId), EventKey(at)])
  }

  function ApplyReasoningDelta(s: Session, key: string, delta: string): (r: Session)
    requires Writing(s)
    ensures Writing(r)
  {
    AddThinking(if s.client.thinking.None? then StartThinkingPart(s, key) else s, delta)
  }

  function ApplyTextDone(s: Session, key: string, text: string): (r: Session)
    requires Live(s)
    ensures Live(r) && (s.Started() ==> r.Started())
  {
    var t := if !s.HasContent(BlockKey(TextKind, key)) && text != "" then AddText(StartHere(s), key, text) else s;
    StopBlock(t, key, TextKind)
  }

  function ApplyCompleted(s: Session, incomplete: bool, id: string, usage: Option<Usage>, output: seq<Item>): (r: Session)
    requires Live(s)
    ensures WellFormed(r) && r.Ended() && r.Started()
  {
    var t := if id != "" && s.msgId == "" then Start(s, id, s.cfg.requestModel) else StartHere(s);
    var u := FinalItems(if usage.Some? then t.(usage := usage.value) else t, output, 0);
    Finish(u, if u.hasToolUse then "tool_use" else if incomplete then "max_tokens" else "end_turn",
           if usage.Some? then usage.value else s.usage)
  }

  function ApplyItemAdded(s: Session, at: Locator, item: Item): (r: Session)
    requires Writing(s)
    ensures Writing(r)
  {
    match item
    case Reasoning(id, _, encrypted) =>
      var key := ReasoningKey(FirstNonEmpty([id, ReasoningEventKey(at)]));
      CaptureSignature(s.(reasoningKey := key), key, encrypted)
    case FunctionCall(id, callId, name, arguments) =>
      var call := CallId(callId, id);
      var key := ItemKey([id, call, EventKey(at)]);
      AddArguments(OpenTool(s, key, call, name), key, call, name, arguments)
    case _ => s
  }

  function ApplyItemDone(s: Session, at: Locator, item: Item): (r: Session)
    requires Live(s)
    ensures Live(r) && (s.Started() ==> r.Started())
  {
    match item
    case Reasoning(id, _, encrypted) =>
      var key := ReasoningKey(FirstNonEmpty([id, ReasoningEventKey(at)]));
      var t := CaptureSignature(s.(reasoningKey := key), key, encrypted);
      if t.client.thinking.None? then FinalReasoning(t, item, key) else EndThinking(t, true)
    case FunctionCall(id, callId, name, arguments) =>
      var call := CallId(callId, id);
      FinishTool(StartHere(s), ItemKey([id, call, EventKey(at)]), call, name, arguments)
    case Message(id, texts) =>
      var key := ItemKey([id, EventKey(at)]);
      if s.HasContent(BlockKey(TextKind, key)) then StopBlock(s, key, TextKind)
      else StopBlock(AddTexts(s, key, texts), key, TextKind)
    case UnknownItem => s
  }

  // ---- runs ----

  ghost predicate Orderly(s: Session, es: seq<Event>)
    requires WellFormed(s)
    decreases |es|
  {
    es == [] || (InOrder(s, es[0]) && Orderly(Apply(s, es[0]), es[1..]))
  }

  ghost function Run(s: Session, es: seq<Event>): (r: Session)
    requires WellFormed(s) && Orderly(s, es)
    ensures WellFormed(r)
    decreases |es|
  {
    if es == [] then s else Run(Apply(s, es[0]), es[1..])
  }

  /** The payloads read before the first one that is not JSON, where reading stops. */
  function Decoded(es: seq<Event>): (r: seq<Event>)
    ensures r <= es && (forall i | 0 <= i < |r| :: !r[i].BadJson?)
    ensures |r| < |es| ==> es[|r|].BadJson?
  {
    if es == [] || es[0].BadJson? then [] else [es[0]] + Decoded(es[1..])
  }
}
