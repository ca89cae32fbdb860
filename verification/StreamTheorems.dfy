/** What whole runs of the translator guarantee, stated on the session function it is proved against. */
module StreamTheorems {
  import opened Text
  import opened StreamReader
  import opened StreamSession

  // ---- what one event offers to one block ----

  /** A block as the upstream sees it: by key. */
  datatype Seen = Absent | Present(content: string, open: bool)

  function Look(s: Session, k: string): Seen
    requires WellFormed(s)
  {
    match s.View(k)
    case None => Absent
    case Some(b) => Present(b.content, b.open)
  }

  function Received(v: Seen): string {
    if v.Absent? then "" else v.content
  }

  function Content(s: Session, k: string): string
    requires WellFormed(s)
  {
    Received(Look(s, k))
  }

  predicate Closed(s: Session, k: string)
    requires WellFormed(s)
  {
    Look(s, k).Present? && !Look(s, k).open
  }

  function Join(texts: seq<string>): string {
    if texts == [] then "" else texts[0] + Join(texts[1..])
  }

  function ToolKey(key: string): string {
    BlockKey(ToolKind, key)
  }

  /** The increment an event carries for block `k`; "" when none. */
  function DeltaFor(e: Event, k: string): string {
    match e
    case OutputTextDelta(at, delta) => if BlockKey(TextKind, EventKey(at)) == k then delta else ""
    case ArgumentsDelta(at, callId, _, delta) => if ToolKey(CallKey(at, callId)) == k then delta else ""
    case ItemAdded(at, FunctionCall(id, callId, _, arguments)) =>
      if ToolKey(ItemKey([id, CallId(callId, id), EventKey(at)])) == k then arguments else ""
    case _ => ""
  }

  /** The full value the n-th final output item carries for block `k`. */
  function ItemFulls(item: Item, n: nat, k: string): seq<string> {
    match item
    case Message(id, texts) =>
      if BlockKey(TextKind, ItemKey([id, "final-" + Decimal(n)])) == k then [Join(texts)] else []
    case FunctionCall(id, callId, _, arguments) =>
      if ToolKey(ItemKey([id, FirstNonEmpty([callId, id]), "final-" + Decimal(n)])) == k
      then [if arguments == "" then "{}" else arguments] else []
    case _ => []
  }

  function FinalFulls(items: seq<Item>, n: nat, k: string): seq<string>
    decreases |items|
  {
    if items == [] then [] else ItemFulls(items[0], n, k) + FinalFulls(items[1..], n + 1, k)
  }

  /** The full values an event carries for block `k`. */
  function FullsFor(e: Event, k: string): seq<string> {
    match e
    case ContentPartDone(at, isText, text) => if isText && BlockKey(TextKind, EventKey(at)) == k then [text] else []
    case ArgumentsDone(at, callId, _, arguments) => if ToolKey(CallKey(at, callId)) == k then [arguments] else []
    case ItemDone(at, FunctionCall(id, callId, _, arguments)) =>
      if ToolKey(ItemKey([id, CallId(callId, id), EventKey(at)])) == k then [arguments] else []
    case ItemDone(at, Message(id, texts)) =>
      if BlockKey(TextKind, ItemKey([id, EventKey(at)])) == k then [Join(texts)] else []
    case Completed(_, _, _, output) => FinalFulls(output, 0, k)
    case _ => []
  }

  /** A full value arrives: it is used only when the block has nothing yet, and the block stops. */
  function TakeFull(v: Seen, text: string): Seen {
    match v
    case Absent => if text == "" then Absent else Present(text, false)
    case Present(c, open) => Present(if c == "" && open then text else c, false)
  }

  function TakeDelta(v: Seen, text: string): Seen {
    if text == "" then v
    else match v
         case Absent => Present(text, true)
         case Present(c, open) => Present(if open then c + text else c, open)
  }

  // ---- how each session function acts on one key ----

  lemma SeenByShape(s: Session, r: Session, k: string)
    requires WellFormed(s) && WellFormed(r) && r.table == s.table && |r.client.blocks| == |s.client.blocks|
    requires forall i | 0 <= i < |s.client.blocks| && s.client.blocks[i].kind != ThinkingKind ::
               r.client.blocks[i] == s.client.blocks[i]
    ensures Look(r, k) == Look(s, k)
  {
  }

  lemma StartSeen(s: Session, id: string, model: string, k: string)
    requires Live(s)
    ensures Look(Start(s, id, model), k) == Look(s, k)
  {
    hide Start;
  }

  lemma EndThinkingSeen(s: Session, clear: bool, k: string)
    requires Live(s)
    ensures Look(EndThinking(s, clear), k) == Look(s, k)
  {
    hide EndThinking;
    SeenByShape(s, EndThinking(s, clear), k);
  }

  lemma OpenThinkingSeen(s: Session, k: string)
    requires Live(s)
    ensures Look(OpenThinking(s), k) == Look(s, k)
  {
    StartSeen(s, s.msgId, s.model, k);
    hide Start;
  }

  lemma AddThinkingSeen(s: Session, text: string, k: string)
    requires Live(s)
    ensures Look(AddThinking(s, text), k) == Look(s, k)
  {
    hide OpenThinking;
    OpenThinkingSeen(s, k);
    if s.cfg.thinking && !s.cfg.omitted && text != "" {
      HeldThinking(OpenThinking(s));
      SeenByShape(OpenThinking(s), AddThinking(s, text), k);
    }
  }

  lemma StartPartSeen(s: Session, key: string, k: string)
    requires Live(s)
    ensures Look(StartThinkingPart(s, key), k) == Look(s, k)
  {
    hide WellFormed, EndThinking, OpenThinking, ReasoningKey;
    if s.cfg.thinking {
      var t := if s.client.thinking.Some? && s.stopPending then EndThinking(s, false) else s;
      EndThinkingSeen(s, false, k);
      ScalarsKeep(t, t.(reasoningKey := ReasoningKey(key)));
      OpenThinkingSeen(t.(reasoningKey := ReasoningKey(key)), k);
    }
  }

  lemma FinalReasoningSeen(s: Session, item: Item, fallback: string, k: string)
    requires Live(s) && item.Reasoning?
    ensures Look(FinalReasoning(s, item, fallback), k) == Look(s, k)
  {
    hide WellFormed, EndThinking, OpenThinking, AddThinking, ReasoningKey, FirstNonEmpty;
    var key := ReasoningKey(FirstNonEmpty([item.id, fallback]));
    var summary := if s.cfg.omitted then "" else item.summary;
    var signature := if item.encrypted == "" then s.signature else item.encrypted;
    if s.cfg.thinking && key !in s.completed && (summary != "" || signature != "") {
      var t := s.(reasoningKey := key, signature := if signature != "" then signature else s.signature);
      ScalarsKeep(s, t);
      OpenThinkingSeen(t, k);
      AddThinkingSeen(OpenThinking(t), summary, k);
      EndThinkingSeen(AddThinking(OpenThinking(t), summary), true, k);
    }
  }

  lemma RegisterSeen(t: Session, n: string, kind: Kind, callId: string, name: string, k: string)
    requires Writing(t) && t.client.thinking.None? && n !in t.table && kind == KeyKind(n)
    ensures Look(Register(t, n, kind, callId, name), k) == if k == n then Present("", true) else Look(t, k)
  {
    hide KeyKind;
  }

  lemma OpenTextSeen(s: Session, key: string, k: string)
    requires Writing(s)
    ensures Look(OpenText(s, key), k) ==
            if k == BlockKey(TextKind, key) && Look(s, k).Absent? then Present("", true) else Look(s, k)
  {
    hide WellFormed, BlockKey, EndThinking, Register, KeyKind;
    var t := BeforeContent(s);
    var n := BlockKey(TextKind, key);
    SeenByShape(s, t, k);
    if n !in t.table { RegisterSeen(t, n, TextKind, "", "", k); }
  }

  lemma OpenToolSeen(s: Session, key: string, callId: string, name: string, k: string)
    requires Writing(s) && Trimmed(key)
    ensures Look(OpenTool(s, key, callId, name), k) ==
            if k == ToolKey(key) && Look(s, k).Absent? then Present("", true) else Look(s, k)
  {
    hide WellFormed, BlockKey, FirstNonEmpty, EndThinking, Register, KeyKind, Trimmed;
    FirstTrimmed(key, callId);
    var t := BeforeContent(s);
    var n := BlockKey(ToolKind, FirstNonEmpty([key, callId]));
    SeenByShape(s, t, k);
    if n !in t.table {
      RegisterSeen(t, n, ToolKind, if callId == "" then TrimPrefix(n, "tool:") else callId,
                   if name == "" then "tool" else name, k);
    }
  }

  lemma AppendSeen(s: Session, n: string, text: string, k: string)
    requires Writing(s) && s.client.thinking.None? && n in s.table
    ensures Look(AppendOpen(s, n, text), k) ==
            if k == n && Look(s, n).open then Present(Look(s, n).content + text, true) else Look(s, k)
  {
    if k in s.table && k != n { assert s.keys[s.table[k]] == k && s.keys[s.table[n]] == n; }
  }

  lemma StopSeen(s: Session, key: string, kind: Kind, k: string)
    requires Live(s) && kind != ThinkingKind
    ensures Look(StopBlock(s, key, kind), k) ==
            if k == BlockKey(kind, key) && Look(s, k).Present? then Present(Look(s, k).content, false) else Look(s, k)
  {
    var n := BlockKey(kind, key);
    hide BlockKey;
    if k in s.table && n in s.table && k != n { assert s.keys[s.table[k]] == k && s.keys[s.table[n]] == n; }
  }

  predicate Trimmed(key: string) {
    key != "" && TrimSpace(key) == key
  }

  lemma TrimIsTrimmed(s: string)
    ensures TrimSpace(s) != "" ==> Trimmed(TrimSpace(s))
  {
    TrimSpaceKeeps(TrimSpace(s));
  }

  lemma {:induction false} FirstIsTrimmed(values: seq<string>)
    ensures FirstNonEmpty(values) != "" ==> Trimmed(FirstNonEmpty(values))
  {
    if values != [] {
      TrimIsTrimmed(values[0]);
      FirstIsTrimmed(values[1..]);
    }
  }

  lemma ItemKeyTrimmed(values: seq<string>)
    ensures Trimmed(ItemKey(values))
  {
    FirstIsTrimmed(values);
    TrimSpaceKeeps("default");
    hide TrimSpace, FirstNonEmpty;
  }

  lemma CallKeyTrimmed(at: Locator, callId: string)
    ensures Trimmed(CallKey(at, callId))
  {
    ItemKeyTrimmed([at.itemId, CallId(callId, at.itemId), EventKey(at)]);
  }

  lemma FirstTrimmed(key: string, callId: string)
    requires Trimmed(key)
    ensures FirstNonEmpty([key, callId]) == key
  {
    hide TrimSpace;
    assert [key, callId][0] == key;
  }

  lemma AddTextSeen(s: Session, key: string, text: string, k: string)
    requires Writing(s)
    ensures Look(AddText(s, key, text), k) ==
            if k == BlockKey(TextKind, key) then TakeDelta(Look(s, k), text) else Look(s, k)
  {
    hide WellFormed, BlockKey, OpenText, AppendOpen, KeyKind;
    if text != "" {
      OpenTextSeen(s, key, k);
      AppendSeen(OpenText(s, key), BlockKey(TextKind, key), text, k);
    }
  }

  lemma AddArgumentsSeen(s: Session, key: string, callId: string, name: string, text: string, k: string)
    requires Writing(s) && Trimmed(key)
    ensures Look(AddArguments(s, key, callId, name, text), k) ==
            if k == ToolKey(key) then TakeDelta(Look(s, k), text) else Look(s, k)
  {
    hide WellFormed, BlockKey, FirstNonEmpty, OpenTool, AppendOpen, KeyKind, Trimmed;
    FirstTrimmed(key, callId);
    if text != "" {
      OpenToolSeen(s, key, callId, name, k);
      AppendSeen(OpenTool(s, key, callId, name), ToolKey(key), text, k);
    }
  }

  lemma {:induction false} AddTextsSeen(s: Session, key: string, texts: seq<string>, k: string)
    requires Live(s)
    ensures Look(AddTexts(s, key, texts), k) ==
            if k == BlockKey(TextKind, key) then TakeDelta(Look(s, k), Join(texts)) else Look(s, k)
    decreases texts
  {
    if texts != [] {
      if texts[0] == "" {
        AddTextsSeen(s, key, texts[1..], k);
        assert Join(texts) == Join(texts[1..]);
      } else {
        StartSeen(s, s.msgId, s.model, k);
        AddTextSeen(StartHere(s), key, texts[0], k);
        AddTextsSeen(AddText(StartHere(s), key, texts[0]), key, texts[1..], k);
        hide Start, AddText, BlockKey;
        assert Join(texts) == texts[0] + Join(texts[1..]);
        TakeDeltaTwice(Look(s, k), texts[0], Join(texts[1..]));
      }
    }
  }

  lemma TakeDeltaTwice(v: Seen, a: string, b: string)
    ensures TakeDelta(TakeDelta(v, a), b) == TakeDelta(v, a + b)
  {
    if v.Present? { assert v.content + a + b == v.content + (a + b); }
    assert a == "" ==> a + b == b;
    assert b == "" ==> a + b == a;
  }

  lemma FinishToolSeen(s: Session, key: string, callId: string, name: string, text: string, k: string)
    requires Writing(s) && Trimmed(key)
    ensures var v := Look(FinishTool(s, key, callId, name, text), k);
      if k != ToolKey(key) then v == Look(s, k)
      else v == TakeFull(if Look(s, k).Absent? then Present("", true) else Look(s, k), text)
  {
    hide WellFormed, BlockKey, FirstNonEmpty, OpenTool, AddArguments, StopBlock, KeyKind, Trimmed;
    FirstTrimmed(key, callId);
    var t := OpenTool(s, key, callId, name);
    OpenToolSeen(s, key, callId, name, k);
    AddArgumentsSeen(t, key, callId, name, text, k);
    var u := if t.HasContent(ToolKey(key)) then t else AddArguments(t, key, callId, name, text);
    StopSeen(u, key, ToolKind, k);
  }

  // ---- one event, one block ----

  /** What full values may do to a block: nothing once it has content or is stopped; otherwise it takes one
      of them. Afterwards it is stopped, or it never existed. */
  ghost predicate TookFulls(a: Seen, b: Seen, fulls: seq<string>) {
    && (fulls == [] ==> b == a)
    && (a.Present? && !a.open ==> b == a)
    && (a.Present? && a.content != "" ==> b.Present? && b.content == a.content)
    && (b.Present? && (a.Absent? || a.content == "") ==> b.content == "" || b.content in fulls)
    && (fulls != [] ==> b.Absent? || !b.open)
    && (b.Absent? ==> a.Absent?)
  }

  lemma TookFullsCompose(a: Seen, b: Seen, c: Seen, f: seq<string>, g: seq<string>)
    requires TookFulls(a, b, f) && TookFulls(b, c, g)
    ensures TookFulls(a, c, f + g)
  {
  }

  lemma FinalItemSeen(s: Session, item: Item, n: nat, k: string)
    requires Writing(s)
    ensures TookFulls(Look(s, k), Look(FinalItem(s, item, n), k), ItemFulls(item, n, k))
  {
    hide WellFormed, BlockKey, FirstNonEmpty, Decimal, AddTexts, FinishTool, FinalReasoning, StopBlock, KeyKind, TrimSpace;
    match item
    case Reasoning(_, _, _) => FinalReasoningSeen(s, item, "final-reasoning-" + Decimal(n), k);
    case Message(id, texts) =>
      var key := ItemKey([id, "final-" + Decimal(n)]);
      var t := if s.HasContent(BlockKey(TextKind, key)) then s else AddTexts(s, key, texts);
      AddTextsSeen(s, key, texts, k);
      StopSeen(t, key, TextKind, k);
      assert "" + Join(texts) == Join(texts);
    case FunctionCall(id, callId, name, arguments) =>
      var call := FirstNonEmpty([callId, id]);
      var key := ItemKey([id, call, "final-" + Decimal(n)]);
      ItemKeyTrimmed([id, call, "final-" + Decimal(n)]);
      FinishToolSeen(s, key, call, name, if arguments == "" then "{}" else arguments, k);
    case UnknownItem =>
  }

  lemma {:induction false} FinalItemsSeen(s: Session, items: seq<Item>, n: nat, k: string)
    requires Writing(s)
    ensures TookFulls(Look(s, k), Look(FinalItems(s, items, n), k), FinalFulls(items, n, k))
    decreases |items|
  {
    hide WellFormed, FinalItem, TookFulls, ItemFulls;
    if items == [] {
      Untouched(Look(s, k));
    } else {
      var t := FinalItem(s, items[0], n);
      FinalItemSeen(s, items[0], n, k);
      FinalItemsSeen(t, items[1..], n + 1, k);
      TookFullsCompose(Look(s, k), Look(t, k), Look(FinalItems(t, items[1..], n + 1), k),
                       ItemFulls(items[0], n, k), FinalFulls(items[1..], n + 1, k));
    }
  }

  lemma Untouched(a: Seen)
    ensures TookFulls(a, a, [])
  {
  }

  function Stopped(v: Seen): Seen {
    if v.Absent? then v else v.(open := false)
  }

  lemma EndSeen(t: Session, ending: Ending, k: string)
    requires Live(t) && t.client.thinking.None? && (ending.Finished? || ending.Failed?)
    ensures Look(End(t, ending), k) == Stopped(Look(t, k))
  {
  }

  lemma FinishSeen(s: Session, reason: string, usage: Usage, k: string)
    requires Live(s)
    ensures Look(Finish(s, reason, usage), k) == Stopped(Look(s, k))
  {
    hide WellFormed, Start, EndThinking, End;
    StartSeen(s, s.msgId, s.model, k);
    EndThinkingSeen(StartHere(s), true, k);
    forall ending: Ending | ending.Finished? || ending.Failed?
      ensures Look(End(EndThinking(StartHere(s), true), ending), k) == Stopped(Look(s, k))
    {
      EndSeen(EndThinking(StartHere(s), true), ending, k);
    }
  }

  lemma FailSeen(s: Session, status: int, message: string, k: string)
    requires Live(s)
    ensures Look(Fail(s, status, message), k) == Stopped(Look(s, k))
  {
    hide WellFormed, EndThinking, End;
    EndThinkingSeen(s, true, k);
    EndSeen(EndThinking(s, true), Failed(status, message), k);
  }

  lemma CompletedSeen(s: Session, incomplete: bool, id: string, usage: Option<Usage>, output: seq<Item>, k: string)
    requires Live(s)
    ensures var m := Look(ApplyCompleted(s, incomplete, id, usage, output), k);
      exists b :: TookFulls(Look(s, k), b, FinalFulls(output, 0, k)) && m == Stopped(b)
  {
    hide WellFormed, Start, FinalItems, Finish, TookFulls;
    StartSeen(s, id, s.cfg.requestModel, k);
    StartSeen(s, s.msgId, s.model, k);
    var t := if id != "" && s.msgId == "" then Start(s, id, s.cfg.requestModel) else StartHere(s);
    var t' := if usage.Some? then t.(usage := usage.value) else t;
    ScalarsKeep(t, t');
    FinalItemsSeen(t', output, 0, k);
    var u := FinalItems(t', output, 0);
    FinishSeen(u, if u.hasToolUse then "tool_use" else if incomplete then "max_tokens" else "end_turn",
               if usage.Some? then usage.value else s.usage, k);
  }

  /** One event, one block: a stopped block never changes; increments are appended; full values
      follow `TookFulls`. */
  ghost predicate Delivers(a: Seen, b: Seen, delta: string, fulls: seq<string>, ended: bool) {
    && (a.Present? && !a.open ==> b == a)
    && (fulls == [] && (a.Absent? || a.open) ==>
          Received(b) == Received(a) + delta && (!ended ==> b.Absent? || b.open))
    && (fulls != [] ==> delta == "" && (b.Absent? || !b.open) && (Received(b) == Received(a) || (Received(a) == "" && Received(b) in fulls)))
    && (ended ==> b.Absent? || !b.open)
  }

  lemma TookFullsDelivers(a: Seen, b: Seen, fulls: seq<string>)
    requires TookFulls(a, b, fulls)
    ensures Delivers(a, b, "", fulls, false)
    ensures Delivers(a, Stopped(b), "", fulls, true)
  {
    assert Received(a) + "" == Received(a);
  }

  lemma ReasoningDelivers(s: Session, e: Event, k: string)
    requires Live(s) && (e.ReasoningPartAdded? || e.ReasoningDelta? || e.ReasoningPartDone?)
    ensures Look(Apply(s, e), k) == Look(s, k)
  {
    hide WellFormed, ReasoningEventKey, Start, StartThinkingPart, AddThinking;
    StartSeen(s, s.msgId, s.model, k);
    var t := StartHere(s);
    match e
    case ReasoningPartAdded(at) => StartPartSeen(t, ReasoningEventKey(at), k);
    case ReasoningDelta(at, delta) =>
      StartPartSeen(t, ReasoningEventKey(at), k);
      AddThinkingSeen(if t.client.thinking.None? then StartThinkingPart(t, ReasoningEventKey(at)) else t, delta, k);
    case ReasoningPartDone =>
  }

  lemma EndingDelivers(s: Session, e: Event, k: string)
    requires Live(s) && (Ends(e) || e.Done?)
    ensures Delivers(Look(s, k), Look(Apply(s, e), k), DeltaFor(e, k), FullsFor(e, k), Apply(s, e).Ended())
  {
    hide WellFormed, Finish, Fail, FinalFulls, ApplyCompleted, TookFulls;
    Untouched(Look(s, k));
    TookFullsDelivers(Look(s, k), Look(s, k), []);
    match e
    case Done => if s.Started() { FinishSeen(s, "", s.usage, k); }
    case Completed(incomplete, id, usage, output) =>
      CompletedSeen(s, incomplete, id, usage, output, k);
      var b :| TookFulls(Look(s, k), b, FinalFulls(output, 0, k)) && Look(Apply(s, e), k) == Stopped(b);
      TookFullsDelivers(Look(s, k), b, FinalFulls(output, 0, k));
    case ResponseFailed(status, message) => FailSeen(s, status, message, k);
    case UpstreamError(message) => FailSeen(s, 502, message, k);
  }

  lemma CreatedDelivers(s: Session, id: string, model: string, inputTokens: int, k: string)
    requires Live(s)
    ensures Look(Apply(s, Created(id, model, inputTokens)), k) == Look(s, k)
  {
    hide WellFormed, Start;
    var t := if inputTokens > 0 then s.(usage := s.usage.(input := inputTokens)) else s;
    ScalarsKeep(s, t);
    StartSeen(t, id, if s.cfg.requestModel != "" then s.cfg.requestModel else model, k);
  }

  lemma StreamedDelivers(s: Session, e: Event, k: string)
    requires Live(s) && (e.Created? || e.OutputTextDelta? || e.ContentPartAdded? || e.ArgumentsDelta? || e.ItemAdded?)
    ensures Received(Look(Apply(s, e), k)) == (if Closed(s, k) then Content(s, k) else Content(s, k) + DeltaFor(e, k))
    ensures Closed(Apply(s, e), k) == Closed(s, k)
    ensures Closed(s, k) ==> Look(Apply(s, e), k) == Look(s, k)
  {
    hide WellFormed, EventKey, CallKey, Start, AddText, OpenText, ApplyItemAdded, AddArguments, BlockKey, KeyKind;
    if e.Created? {
      hide Apply;
      CreatedDelivers(s, e.id, e.model, e.inputTokens, k);
      return;
    }
    if e.OutputTextDelta? || e.ContentPartAdded? {
      TextDelivers(s, e, k);
      return;
    }
    StartSeen(s, s.msgId, s.model, k);
    match e
    case ItemAdded(at, item) => ItemAddedDelivers(StartHere(s), at, item, k);
    case ArgumentsDelta(at, callId, name, delta) =>
      CallKeyTrimmed(at, callId);
      AddArgumentsSeen(StartHere(s), CallKey(at, callId), CallId(callId, at.itemId), name, delta, k);
  }

  lemma TextDelivers(s: Session, e: Event, k: string)
    requires Live(s) && (e.OutputTextDelta? || e.ContentPartAdded?)
    ensures Received(Look(Apply(s, e), k)) == (if Closed(s, k) then Content(s, k) else Content(s, k) + DeltaFor(e, k))
    ensures Closed(Apply(s, e), k) == Closed(s, k)
    ensures Closed(s, k) ==> Look(Apply(s, e), k) == Look(s, k)
  {
    hide WellFormed, EventKey, Start, AddText, OpenText, BlockKey, KeyKind;
    StartSeen(s, s.msgId, s.model, k);
    match e
    case OutputTextDelta(at, delta) => AddTextSeen(StartHere(s), EventKey(at), delta, k);
    case ContentPartAdded(at, isText) => if isText { OpenTextSeen(StartHere(s), EventKey(at), k); }
  }

  /** A full value is used exactly when its block has nothing yet and has not been stopped. */
  lemma FullDelivers(s: Session, e: Event, k: string)
    requires Live(s) && (e.ContentPartDone? || e.ArgumentsDone? || e.ItemDone?)
    ensures var v, f := Look(Apply(s, e), k), FullsFor(e, k);
      if f == [] then v == Look(s, k)
      else |f| == 1 && (v == TakeFull(Look(s, k), f[0])
                        || (Look(s, k).Absent? && v == TakeFull(Present("", true), f[0])))
  {
    hide WellFormed, EventKey, CallKey, Start, ApplyItemDone, ApplyTextDone, FinishTool, BlockKey, KeyKind;
    match e
    case ContentPartDone(at, isText, text) => if isText { TextDoneDelivers(s, EventKey(at), text, k); }
    case ArgumentsDone(at, callId, name, arguments) =>
      StartSeen(s, s.msgId, s.model, k);
      CallKeyTrimmed(at, callId);
      FinishToolSeen(StartHere(s), CallKey(at, callId), CallId(callId, at.itemId), name, arguments, k);
    case ItemDone(at, item) => ItemDoneDelivers(s, at, item, k);
  }

  lemma EventDelivers(s: Session, e: Event, k: string)
    requires InOrder(s, e)
    ensures Delivers(Look(s, k), Look(Apply(s, e), k), DeltaFor(e, k), FullsFor(e, k), Apply(s, e).Ended())
  {
    hide WellFormed, EventKey, CallKey, Start, ApplyItemDone, FinishTool, BlockKey, KeyKind, Finish, Fail,
      ApplyReasoningDelta, ApplyItemAdded, ApplyCompleted, AddText, OpenText, AddArguments, StartThinkingPart,
      ReasoningEventKey, FinalFulls, ApplyTextDone;
    assert Received(Look(s, k)) + "" == Received(Look(s, k));
    EndedWhen(s, e);
    if s.Ended() {
      StillEnded(s, e, k);
    } else if e.ReasoningPartAdded? || e.ReasoningDelta? || e.ReasoningPartDone? {
      ReasoningDelivers(s, e, k);
    } else if e.ContentPartDone? || e.ArgumentsDone? || e.ItemDone? {
      FullDelivers(s, e, k);
    } else if Ends(e) || e.Done? {
      EndingDelivers(s, e, k);
    } else if !(e.Blank? || e.BadJson? || e.UnknownEvent?) {
      StreamedDelivers(s, e, k);
    }
  }

  lemma StillEnded(s: Session, e: Event, k: string)
    requires InOrder(s, e) && s.Ended()
    ensures Apply(s, e) == s && DeltaFor(e, k) == "" && FullsFor(e, k) == []
    ensures Look(s, k).Absent? || !Look(s, k).open
  {
  }

  /** The stream ends at an ending event, or at [DONE] once it has started; at nothing else. */
  lemma EndedWhen(s: Session, e: Event)
    requires InOrder(s, e)
    ensures Apply(s, e).Ended() <==> s.Ended() || Ends(e) || (e.Done? && s.Started())
  {
    hide WellFormed, EventKey, ReasoningEventKey, CallKey, Start, AddText, OpenText, StartThinkingPart, AddThinking,
      ApplyItemAdded, ApplyItemDone, AddArguments, FinishTool, BlockKey, ApplyCompleted, ApplyTextDone, ApplyReasoningDelta;
  }

  lemma TextDoneDelivers(s: Session, key: string, text: string, k: string)
    requires Live(s)
    ensures Look(ApplyTextDone(s, key, text), k) ==
            if k == BlockKey(TextKind, key) then TakeFull(Look(s, k), text) else Look(s, k)
  {
    hide WellFormed, Start, AddText, StopBlock, BlockKey, KeyKind;
    StartSeen(s, s.msgId, s.model, k);
    AddTextSeen(StartHere(s), key, text, k);
    var t := if !s.HasContent(BlockKey(TextKind, key)) && text != "" then AddText(StartHere(s), key, text) else s;
    StopSeen(t, key, TextKind, k);
  }

  lemma ItemAddedDelivers(s: Session, at: Locator, item: Item, k: string)
    requires Writing(s)
    ensures var v := Look(ApplyItemAdded(s, at, item), k); var d := DeltaFor(ItemAdded(at, item), k);
      v == TakeDelta(Look(s, k), d) || (Look(s, k).Absent? && v == TakeDelta(Present("", true), d))
  {
    hide WellFormed, EventKey, ReasoningEventKey, ReasoningKey, FirstNonEmpty, OpenTool, AddArguments, BlockKey, KeyKind;
    match item
    case Reasoning(id, _, encrypted) =>
      var key := ReasoningKey(FirstNonEmpty([id, ReasoningEventKey(at)]));
      ScalarsKeep(s, s.(reasoningKey := key));
    case FunctionCall(id, callId, name, arguments) =>
      var call := CallId(callId, id);
      var key := ItemKey([id, call, EventKey(at)]);
      ItemKeyTrimmed([id, call, EventKey(at)]);
      OpenToolSeen(s, key, call, name, k);
      AddArgumentsSeen(OpenTool(s, key, call, name), key, call, name, arguments, k);
    case _ =>
  }

  lemma ItemDoneDelivers(s: Session, at: Locator, item: Item, k: string)
    requires Live(s)
    ensures var v := Look(ApplyItemDone(s, at, item), k); var f := FullsFor(ItemDone(at, item), k);
      if f == [] then v == Look(s, k)
      else |f| == 1 && (v == TakeFull(Look(s, k), f[0])
                        || (Look(s, k).Absent? && v == TakeFull(Present("", true), f[0])))
  {
    hide WellFormed, EventKey, ReasoningEventKey, ReasoningKey, FirstNonEmpty, Start, FinishTool, AddTexts,
      FinalReasoning, EndThinking, StopBlock, BlockKey, KeyKind;
    match item
    case Reasoning(id, _, encrypted) =>
      var key := ReasoningKey(FirstNonEmpty([id, ReasoningEventKey(at)]));
      ScalarsKeep(s, s.(reasoningKey := key));
      var t := CaptureSignature(s.(reasoningKey := key), key, encrypted);
      FinalReasoningSeen(t, item, key, k);
      EndThinkingSeen(t, true, k);
    case FunctionCall(id, callId, name, arguments) =>
      StartSeen(s, s.msgId, s.model, k);
      var call := CallId(callId, id);
      ItemKeyTrimmed([id, call, EventKey(at)]);
      FinishToolSeen(StartHere(s), ItemKey([id, call, EventKey(at)]), call, name, arguments, k);
    case Message(id, texts) =>
      var key := ItemKey([id, EventKey(at)]);
      AddTextsSeen(s, key, texts, k);
      StopSeen(if s.HasContent(BlockKey(TextKind, key)) then s else AddTexts(s, key, texts), key, TextKind, k);
    case UnknownItem =>
  }

  // ---- whole runs ----

  function Deltas(es: seq<Event>, k: string): string {
    if es == [] then "" else DeltaFor(es[0], k) + Deltas(es[1..], k)
  }

  lemma {:induction false} DeltasLast(es: seq<Event>, e: Event, k: string)
    ensures Deltas(es + [e], k) == Deltas(es, k) + DeltaFor(e, k)
  {
    hide DeltaFor;
    if es == [] {
      assert [e][1..] == [] && DeltaFor(e, k) + "" == DeltaFor(e, k);
    } else {
      assert (es + [e])[1..] == es[1..] + [e];
      DeltasLast(es[1..], e, k);
      assert DeltaFor(es[0], k) + (Deltas(es[1..], k) + DeltaFor(e, k)) == DeltaFor(es[0], k) + Deltas(es[1..], k) + DeltaFor(e, k);
    }
  }

  /** A run up to its last event, and that event. */
  lemma {:induction false} RunLast(s: Session, es: seq<Event>, n: nat)
    requires WellFormed(s) && Orderly(s, es) && |es| == n + 1
    ensures Orderly(s, es[..n]) && InOrder(Run(s, es[..n]), es[n]) && Run(s, es) == Apply(Run(s, es[..n]), es[n])
    decreases n
  {
    hide WellFormed, Apply, InOrder;
    if n == 0 {
      assert es[1..] == [] && es[..0] == [];
    } else {
      var rest := es[1..];
      RunLast(Apply(s, es[0]), rest, n - 1);
      assert es[..n][1..] == rest[..n - 1] && es[..n][0] == es[0];
    }
  }

  /** While a block is not stopped it holds every increment so far. */
  lemma {:induction false} OpenHoldsAll(cfg: Config, es: seq<Event>, k: string)
    requires Orderly(Initial(cfg), es)
    ensures !Closed(Run(Initial(cfg), es), k) ==> Content(Run(Initial(cfg), es), k) == Deltas(es, k)
    decreases |es|
  {
    hide WellFormed, Apply, DeltaFor, FullsFor, InOrder;
    if es != [] {
      var n := |es| - 1;
      RunLast(Initial(cfg), es, n);
      OpenHoldsAll(cfg, es[..n], k);
      EventDelivers(Run(Initial(cfg), es[..n]), es[n], k);
      assert es[..n] + [es[n]] == es;
      DeltasLast(es[..n], es[n], k);
    }
  }

  /** Event `j` stops block `k`: the events before it leave the block unstopped, it does not. */
  ghost predicate StopsAt(cfg: Config, es: seq<Event>, j: int, k: string) {
    && 0 <= j < |es| && Orderly(Initial(cfg), es[..j]) && Orderly(Initial(cfg), es[..j + 1])
    && !Closed(Run(Initial(cfg), es[..j]), k) && Closed(Run(Initial(cfg), es[..j + 1]), k)
  }

  /** Content `c` of a block stopped by event `j`: all increments up to the stop, or, when those are empty, one
      full value carried by the event that stops it. */
  ghost predicate StoppedWith(es: seq<Event>, j: int, k: string, c: string) {
    && 0 <= j < |es|
    && (c == Deltas(es[..j + 1], k) || (Deltas(es[..j], k) == "" && c in FullsFor(es[j], k)))
  }

  lemma {:induction false} StopEvent(cfg: Config, es: seq<Event>, k: string) returns (j: int)
    requires Orderly(Initial(cfg), es) && Closed(Run(Initial(cfg), es), k)
    ensures StopsAt(cfg, es, j, k) && StoppedWith(es, j, k, Content(Run(Initial(cfg), es), k))
    decreases |es|
  {
    hide WellFormed, Apply, DeltaFor, FullsFor, InOrder;
    NothingAtFirst(cfg, k);
    var n := |es| - 1;
    var p := es[..n];
    RunLast(Initial(cfg), es, n);
    EventDelivers(Run(Initial(cfg), p), es[n], k);
    assert es[..n + 1] == es;
    if Closed(Run(Initial(cfg), p), k) {
      j := StopEvent(cfg, p, k);
      assert p[..j] == es[..j] && p[..j + 1] == es[..j + 1];
    } else {
      j := n;
      OpenHoldsAll(cfg, p, k);
      assert p + [es[n]] == es;
      DeltasLast(p, es[n], k);
    }
  }

  lemma NothingAtFirst(cfg: Config, k: string)
    ensures Run(Initial(cfg), []) == Initial(cfg) && Look(Initial(cfg), k).Absent?
  {
  }

  /** From the start, every text or tool block: while it is not stopped it holds all increments so far; once
      an event has stopped it, it holds all increments up to the stop, or exactly one full value carried by the
      stopping event, never both and never a full value twice. */
  lemma DeliveredOnce(cfg: Config, es: seq<Event>, k: string)
    requires Orderly(Initial(cfg), es)
    ensures var r := Run(Initial(cfg), es);
      && (!Closed(r, k) ==> Content(r, k) == Deltas(es, k))
      && (Closed(r, k) ==> exists j :: StopsAt(cfg, es, j, k) && StoppedWith(es, j, k, Content(r, k)))
  {
    hide WellFormed, Apply, DeltaFor, FullsFor, StopsAt, StoppedWith;
    OpenHoldsAll(cfg, es, k);
    if Closed(Run(Initial(cfg), es), k) {
      var j := StopEvent(cfg, es, k);
    }
  }

  // ---- the same text under two names ----

  function TextKey(key: string): string {
    BlockKey(TextKind, key)
  }

  /** A text streamed under one name and ended by an item under another: it stands in two blocks if the names give two
      keys, and in one if they give one; nothing else stands anywhere. */
  lemma TextTwice(cfg: Config, at: Locator, id: string, text: string)
    requires text != ""
    ensures var es := [OutputTextDelta(at, text), ItemDone(at, Message(id, [text]))];
      var streamed, ended := TextKey(EventKey(at)), TextKey(ItemKey([id, EventKey(at)]));
      && Orderly(Initial(cfg), es)
      && (forall k :: Content(Run(Initial(cfg), es), k) == if k == streamed || k == ended then text else "")
      && streamed in Run(Initial(cfg), es).table && ended in Run(Initial(cfg), es).table
      && (Run(Initial(cfg), es).table[streamed] == Run(Initial(cfg), es).table[ended] <==> streamed == ended)
  {
    hide WellFormed, Apply, TextKey, EventKey, ItemKey, Orderly, Run, Initial;
    var s, d, e := Initial(cfg), OutputTextDelta(at, text), ItemDone(at, Message(id, [text]));
    TwoStart(s, d, e);
    var t := Apply(s, d);
    var r := Apply(t, e);
    forall k ensures Content(r, k) == if k == TextKey(EventKey(at)) || k == TextKey(ItemKey([id, EventKey(at)])) then text else "" {
      TextTwiceSeen(cfg, at, id, text, k);
    }
    ContentIsThere(r, TextKey(EventKey(at)));
    ContentIsThere(r, TextKey(ItemKey([id, EventKey(at)])));
    KeysApart(r, TextKey(EventKey(at)), TextKey(ItemKey([id, EventKey(at)])));
  }

  /** Increments that carry the output index only and an item that carries its id give two keys. */
  lemma TextNamedApart()
    ensures TextKey(EventKey(Locator("", "0", ""))) == "text:0"
    ensures TextKey(ItemKey(["msg_1", EventKey(Locator("", "0", ""))])) == "text:msg_1"
  {
    hide TrimSpace, FirstNonEmpty, BlockKey;
    TrimSpaceKeeps("");
    PlainText("0");
    PlainText("msg_1");
    FirstIs(["", "0", ""]);
    FirstIs(["0", ""]);
    FirstIs(["msg_1", "0"]);
    assert ["", "0", ""][1..] == ["0", ""];
  }

  lemma PlainText(name: string)
    requires name != "" && name[0] != 't' && !IsSpace(name[0]) && !IsSpace(name[|name| - 1])
    ensures TrimSpace(name) == name && TextKey(name) == "text:" + name
  {
    hide IsSpace;
    TrimSpaceKeeps(name);
    assert "text:"[0] == 't';
    hide TrimSpace;
  }

  lemma FirstIs(values: seq<string>)
    requires values != []
    ensures FirstNonEmpty(values) == if TrimSpace(values[0]) != "" then TrimSpace(values[0]) else FirstNonEmpty(values[1..])
  {
    hide TrimSpace;
  }

  lemma TwoStart(s: Session, d: Event, e: Event)
    requires Live(s) && !Ends(d) && !d.Done?
    ensures Live(Apply(s, d)) && Orderly(s, [d, e]) && Run(s, [d, e]) == Apply(Apply(s, d), e)
  {
    hide WellFormed, Apply;
    EndedWhen(s, d);
    OneEventRun(Apply(s, d), e);
    assert [d, e][1..] == [e];
  }

  lemma TextTwiceSeen(cfg: Config, at: Locator, id: string, text: string, k: string)
    requires text != ""
    ensures Live(Initial(cfg)) && Live(Apply(Initial(cfg), OutputTextDelta(at, text)))
    ensures var r := Apply(Apply(Initial(cfg), OutputTextDelta(at, text)), ItemDone(at, Message(id, [text])));
      Content(r, k) == if k == TextKey(EventKey(at)) || k == TextKey(ItemKey([id, EventKey(at)])) then text else ""
  {
    hide WellFormed, Apply, EventKey, ItemKey, BlockKey, DeltaFor, FullsFor;
    NothingAtFirst(cfg, k);
    var s, d, e := Initial(cfg), OutputTextDelta(at, text), ItemDone(at, Message(id, [text]));
    EndedWhen(s, d);
    StreamedDelivers(s, d, k);
    FullDelivers(Apply(s, d), e, k);
    OneText(at, id, text, k);
  }

  lemma OneText(at: Locator, id: string, text: string, k: string)
    ensures DeltaFor(OutputTextDelta(at, text), k) == if TextKey(EventKey(at)) == k then text else ""
    ensures FullsFor(ItemDone(at, Message(id, [text])), k) == if TextKey(ItemKey([id, EventKey(at)])) == k then [text] else []
  {
    hide EventKey, ItemKey, BlockKey;
    assert [text][1..] == [] && text + "" == text && Join([text]) == text;
  }

  lemma ContentIsThere(s: Session, k: string)
    requires WellFormed(s) && Content(s, k) != ""
    ensures k in s.table
  {
    hide WellFormed;
  }

  lemma KeysApart(s: Session, a: string, b: string)
    requires WellFormed(s) && a in s.table && b in s.table
    ensures s.table[a] == s.table[b] <==> a == b
  {
  }

  lemma {:induction false} RunSplit(s: Session, a: seq<Event>, b: seq<Event>)
    requires WellFormed(s) && Orderly(s, a) && Orderly(Run(s, a), b)
    ensures Orderly(s, a + b) && Run(s, a + b) == Run(Run(s, a), b)
    decreases |a|
  {
    hide WellFormed, Apply, InOrder;
    if a == [] {
      assert a + b == b;
    } else {
      assert (a + b)[0] == a[0] && (a + b)[1..] == a[1..] + b;
      RunSplit(Apply(s, a[0]), a[1..], b);
    }
  }

  lemma {:induction false} NonterminalRun(s: Session, es: seq<Event>)
    requires Live(s) && forall i | 0 <= i < |es| :: !Ends(es[i]) && !es[i].Done?
    ensures Orderly(s, es) && !Run(s, es).Ended()
    decreases |es|
  {
    hide WellFormed, Apply;
    if es != [] {
      EndedWhen(s, es[0]);
      NonterminalRun(Apply(s, es[0]), es[1..]);
    }
  }

  lemma {:induction false} LateRun(s: Session, es: seq<Event>)
    requires WellFormed(s) && s.Ended() && forall i | 0 <= i < |es| :: Late(es[i])
    ensures Orderly(s, es) && Run(s, es) == s
    decreases |es|
  {
    hide WellFormed, Apply;
    if es != [] {
      StillEnded(s, es[0], "");
      LateRun(s, es[1..]);
    }
  }

  /** Runs of the promised shape: events that end nothing, one ending event, then [DONE]s. The stream ends
      exactly once, at the ending event, with every block stopped; error endings never stop the message. */
  lemma WholeRun(cfg: Config, pre: seq<Event>, last: Event, late: seq<Event>) returns (before: Session, ended: Session)
    requires forall i | 0 <= i < |pre| :: !Ends(pre[i]) && !pre[i].Done?
    requires Ends(last) || last.Done?
    requires forall i | 0 <= i < |late| :: late[i].Done?
    ensures Runs(cfg, pre, before) && Runs(cfg, pre + [last], ended) && Runs(cfg, pre + [last] + late, ended)
    ensures !before.Ended() && (ended.Ended() <==> Ends(last) || before.Started())
    ensures ended.Ended() ==> ended.client.AllClosed()
    ensures last.ResponseFailed? || last.UpstreamError? ==> ended.client.ending.Failed?
    ensures last.Completed? || (last.Done? && before.Started()) ==> ended.client.ending.Finished? && ended.Started()
    ensures last.Completed? && ended.hasToolUse ==> ended.client.ending.reason == "tool_use"
  {
    hide WellFormed, Apply, Initial;
    var s := Initial(cfg);
    NonterminalRun(s, pre);
    before := Run(s, pre);
    EndedWhen(before, last);
    ended := Apply(before, last);
    OneEventRun(before, last);
    RunSplit(s, pre, [last]);
    if ended.Ended() {
      LateRun(ended, late);
      EndingKind(before, last);
    } else {
      UnstartedDone(before, last);
      DoneBeforeStart(ended, late);
    }
    RunSplit(s, pre + [last], late);
  }

  ghost predicate Runs(cfg: Config, es: seq<Event>, r: Session) {
    Orderly(Initial(cfg), es) && Run(Initial(cfg), es) == r
  }

  lemma OneEventRun(s: Session, e: Event)
    requires InOrder(s, e)
    ensures Orderly(s, [e]) && Run(s, [e]) == Apply(s, e)
  {
    hide WellFormed, Apply;
    assert [e][1..] == [];
  }

  lemma UnstartedDone(s: Session, e: Event)
    requires Live(s) && e.Done? && !s.Started()
    ensures Apply(s, e) == s
  {
  }

  lemma {:induction false} DoneBeforeStart(s: Session, es: seq<Event>)
    requires Live(s) && !s.Started() && forall i | 0 <= i < |es| :: es[i].Done?
    ensures Orderly(s, es) && Run(s, es) == s
    decreases |es|
  {
    hide WellFormed;
    if es != [] { DoneBeforeStart(s, es[1..]); }
  }

  lemma EndingKind(s: Session, e: Event)
    requires Live(s) && (Ends(e) || (e.Done? && s.Started()))
    ensures var r := Apply(s, e);
      && r.client.AllClosed()
      && (e.ResponseFailed? || e.UpstreamError? ==> r.client.ending.Failed?)
      && (e.Completed? || e.Done? ==> r.client.ending.Finished? && r.Started())
      && (e.Completed? && r.hasToolUse ==> r.client.ending.reason == "tool_use")
  {
    hide Start, EndThinking, FinalItems;
  }
}
