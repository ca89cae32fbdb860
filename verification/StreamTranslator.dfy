/** The translator itself: it appends frames and keeps a block table, a next index, a separately
    held thinking block with a deferred stop, and the stream flags. */
module StreamTranslator {
  import opened Text
  import opened StreamReader
  import opened StreamSession

  datatype StreamState = StreamState(
    msgId: string, model: string, hasToolUse: bool, started: bool, finished: bool, failed: bool, usage: Usage)

  /** The separately held thinking block and what belongs to it. */
  datatype ThinkingState = ThinkingState(
    block: Option<StreamBlock>, signature: string, stopPending: bool, reasoningKey: string, completed: set<string>)

  datatype StreamBlock = StreamBlock(index: int, kind: Kind, callId: string, name: string, emitted: bool, stopped: bool)

  /** The table entry describes the block the consumer has at its index. */
  predicate Describes(b: StreamBlock, blocks: seq<Block>) {
    && 0 <= b.index < |blocks|
    && b.kind == blocks[b.index].kind
    && (b.emitted <==> blocks[b.index].content != "")
    && (b.stopped <==> !blocks[b.index].open)
  }

  /** The block table and the held thinking block describe the consumer's blocks. */
  ghost predicate Agrees(blocks: map<string, StreamBlock>, held: Option<StreamBlock>, table: map<string, int>, c: Client) {
    && blocks.Keys == table.Keys
    && (forall k | k in blocks :: blocks[k].index == table[k] && Describes(blocks[k], c.blocks))
    && (match held
        case None => c.thinking.None?
        case Some(b) => c.thinking == Some(b.index) && Describes(b, c.blocks))
  }

  lemma AgreesAfterUpdate(blocks: map<string, StreamBlock>, held: Option<StreamBlock>, table: map<string, int>,
                          c: Client, k: string, b: StreamBlock, d: Client)
    requires Agrees(blocks, held, table, c) && k in blocks && b.index == blocks[k].index
    requires |d.blocks| == |c.blocks| && d.thinking == c.thinking && Describes(b, d.blocks)
    requires forall i | 0 <= i < |c.blocks| && i != b.index :: d.blocks[i] == c.blocks[i]
    requires forall l | l in blocks && l != k :: blocks[l].index != b.index
    requires held.Some? ==> held.value.index != b.index
    ensures Agrees(blocks[k := b], held, table, d)
  {
  }

  lemma AgreesOnThinking(blocks: map<string, StreamBlock>, held: Option<StreamBlock>, table: map<string, int>,
                         c: Client, held': Option<StreamBlock>, d: Client)
    requires Agrees(blocks, held, table, c) && |d.blocks| >= |c.blocks|
    requires forall k | k in blocks ::
               0 <= blocks[k].index < |c.blocks| && d.blocks[blocks[k].index] == c.blocks[blocks[k].index]
    requires match held' case None => d.thinking.None? case Some(b) => d.thinking == Some(b.index) && Describes(b, d.blocks)
    ensures Agrees(blocks, held', table, d)
  {
  }

  lemma Described(blocks: map<string, StreamBlock>, held: Option<StreamBlock>, table: map<string, int>, c: Client, k: string)
    requires Agrees(blocks, held, table, c) && k in blocks
    ensures k in table && blocks[k].index == table[k] && Describes(blocks[k], c.blocks)
  {
  }

  // Each lemma below says, for one place where the translator writes: the frame is legal there, the
  // consumer ends up where the session does, and the tables still agree. None of them mentions the heap.

  lemma StartWrites(s: Session, id: string, model: string, blocks: map<string, StreamBlock>, held: Option<StreamBlock>)
    requires Live(s) && !s.Started() && Agrees(blocks, held, s.table, s.client)
    ensures var r := Start(s, id, model);
      && Step(s.client, MessageStart(r.msgId, r.model, s.usage.input)) == Some(r.client)
      && Agrees(blocks, held, r.table, r.client)
  {
  }

  lemma EndThinkingWrites(s: Session, clear: bool, blocks: map<string, StreamBlock>, held: Option<StreamBlock>)
    requires Live(s) && s.client.thinking.Some? && Agrees(blocks, held, s.table, s.client)
    ensures 0 <= s.client.thinking.value < |s.client.blocks|
    ensures var i := s.client.thinking.value;
      var signed := if s.signature != "" then s.client.Sign(i, s.signature) else s.client;
      var r := EndThinking(s, clear);
      && held.Some? && held.value.index == i && s.cfg.thinking
      && (s.signature != "" ==> Step(s.client, SignatureDelta(i, s.signature)) == Some(signed))
      && Step(signed, BlockStop(i)) == Some(r.client)
      && Agrees(blocks, None, r.table, r.client)
  {
    var i := s.client.thinking.value;
    HeldThinking(s);
    NotThinking(s, blocks, held);
    hide WellFormed, Agrees;
    var c := SignAndStop(s.client, i, s.signature);
    AgreesOnThinking(blocks, held, s.table, s.client, None, c);
  }

  lemma NotThinking(s: Session, blocks: map<string, StreamBlock>, held: Option<StreamBlock>)
    requires Live(s) && Agrees(blocks, held, s.table, s.client)
    ensures forall k | k in blocks ::
              0 <= blocks[k].index < |s.client.blocks| && s.client.blocks[blocks[k].index].kind != ThinkingKind
    ensures match held case None => s.client.thinking.None? case Some(b) => s.client.thinking == Some(b.index) && Describes(b, s.client.blocks)
  {
  }

  lemma OpenThinkingWrites(s: Session, blocks: map<string, StreamBlock>, held: StreamBlock)
    requires Writing(s) && s.cfg.thinking && s.client.thinking.None? && Agrees(blocks, None, s.table, s.client)
    requires held.index == |s.client.blocks| && held.kind == ThinkingKind && !held.emitted && !held.stopped
    ensures var r := OpenThinking(s);
      && Step(s.client, BlockStart(held.index, ThinkingKind, "", "")) == Some(r.client)
      && Agrees(blocks, Some(held), r.table, r.client)
  {
  }

  lemma AddThinkingWrites(s: Session, text: string, blocks: map<string, StreamBlock>, held: Option<StreamBlock>)
    requires Live(s) && s.client.thinking.Some? && text != "" && Agrees(blocks, held, s.table, s.client)
    ensures held.Some? && 0 <= held.value.index < |s.client.blocks| && s.client.thinking == Some(held.value.index)
    ensures var c := s.client.Append(held.value.index, text);
      && Step(s.client, ThinkingDelta(held.value.index, text)) == Some(c)
      && Agrees(blocks, Some(held.value.(emitted := true)), s.table, c)
  {
  }

  lemma RegisterWrites(s: Session, blocks: map<string, StreamBlock>, k: string, b: StreamBlock)
    requires Writing(s) && s.client.thinking.None? && Agrees(blocks, None, s.table, s.client)
    requires k !in blocks && b.kind == KeyKind(k) && b.index == |s.client.blocks| && !b.emitted && !b.stopped
    ensures var r := Register(s, k, b.kind, b.callId, b.name);
      && Step(s.client, BlockStart(b.index, b.kind, b.callId, b.name)) == Some(r.client)
      && Agrees(blocks[k := b], None, r.table, r.client)
  {
    hide WellFormed, KeyKind;
  }

  lemma OwnIndex(s: Session, blocks: map<string, StreamBlock>, held: Option<StreamBlock>, k: string)
    requires WellFormed(s) && Agrees(blocks, held, s.table, s.client) && k in blocks
    ensures 0 <= blocks[k].index < |s.client.blocks| && s.table[k] == blocks[k].index
    ensures s.client.blocks[blocks[k].index].kind != ThinkingKind
    ensures forall l | l in blocks && l != k :: blocks[l].index != blocks[k].index
    ensures (held.Some? ==> held.value.index != blocks[k].index) && s.client.thinking != Some(blocks[k].index)
  {
    forall l | l in blocks && l != k ensures blocks[l].index != blocks[k].index {
      assert s.keys[s.table[l]] == l && s.keys[s.table[k]] == k;
    }
  }

  lemma StopWrites(s: Session, blocks: map<string, StreamBlock>, held: Option<StreamBlock>, k: string)
    requires Live(s) && Agrees(blocks, held, s.table, s.client) && k in blocks && !blocks[k].stopped
    ensures 0 <= blocks[k].index < |s.client.blocks| && s.table[k] == blocks[k].index
    ensures s.client.blocks[blocks[k].index].open && s.client.blocks[blocks[k].index].kind != ThinkingKind
    ensures var c := s.client.Close(blocks[k].index);
      && c.thinking == s.client.thinking
      && Step(s.client, BlockStop(blocks[k].index)) == Some(c)
      && Agrees(blocks[k := blocks[k].(stopped := true)], held, s.table, c)
  {
    hide WellFormed, Agrees;
    OwnIndex(s, blocks, held, k);
    Described(blocks, held, s.table, s.client, k);
    var i := blocks[k].index;
    AgreesAfterUpdate(blocks, held, s.table, s.client, k, blocks[k].(stopped := true), s.client.Close(i));
  }

  /** Events whose first effect is to make sure message_start is out. */
  predicate Streamed(e: Event) {
    e.OutputTextDelta? || e.ReasoningPartAdded? || e.ReasoningDelta? || e.ItemAdded? || e.ArgumentsDelta? || e.ArgumentsDone?
  }

  function DeltaFrame(b: StreamBlock, text: string): Frame {
    if b.kind == TextKind then TextDelta(b.index, text) else JsonDelta(b.index, text)
  }

  lemma DeltaWrites(s: Session, blocks: map<string, StreamBlock>, k: string, text: string)
    requires Writing(s) && s.client.thinking.None? && Agrees(blocks, None, s.table, s.client)
    requires k in blocks && !blocks[k].stopped && text != ""
    ensures var r := AppendOpen(s, k, text);
      && Step(s.client, DeltaFrame(blocks[k], text)) == Some(r.client)
      && Agrees(blocks[k := blocks[k].(emitted := true)], None, s.table, r.client)
  {
    hide WellFormed, Agrees;
    OwnIndex(s, blocks, None, k);
    Described(blocks, None, s.table, s.client, k);
    var i := blocks[k].index;
    AgreesAfterUpdate(blocks, None, s.table, s.client, k, blocks[k].(emitted := true), s.client.Append(i, text));
  }

  lemma LeastIsFirstOpen(s: Session, blocks: map<string, StreamBlock>, k: string)
    requires WellFormed(s) && Agrees(blocks, None, s.table, s.client) && k in blocks
    requires forall l | l in blocks && !blocks[l].stopped :: blocks[k].index <= blocks[l].index
    ensures forall j | 0 <= j < blocks[k].index && j < |s.client.blocks| :: !s.client.blocks[j].open
  {
    forall j | 0 <= j < blocks[k].index && j < |s.client.blocks| ensures !s.client.blocks[j].open {
      if s.client.blocks[j].kind != ThinkingKind { assert s.keys[j] in blocks; }
    }
  }

  lemma NothingPending(s: Session, blocks: map<string, StreamBlock>)
    requires WellFormed(s) && Agrees(blocks, None, s.table, s.client) && forall k | k in blocks :: blocks[k].stopped
    ensures s.client.AllClosed()
  {
    forall i | 0 <= i < |s.client.blocks| ensures !s.client.blocks[i].open {
      if s.client.blocks[i].kind != ThinkingKind { assert s.keys[i] in blocks; }
    }
  }

  lemma EmittedTextAgrees(s: Session, blocks: map<string, StreamBlock>, held: Option<StreamBlock>)
    requires WellFormed(s) && Agrees(blocks, held, s.table, s.client)
    ensures s.AnyText() <==> exists k | k in blocks :: blocks[k].kind == TextKind && blocks[k].emitted
  {
    if s.AnyText() {
      var i :| 0 <= i < |s.client.blocks| && s.client.blocks[i].kind == TextKind && s.client.blocks[i].content != "";
      assert s.keys[i] in s.table && s.keys[i] in blocks && blocks[s.keys[i]].emitted;
    }
    if k :| k in blocks && blocks[k].kind == TextKind && blocks[k].emitted {
      assert s.client.blocks[blocks[k].index].content != "";
    }
  }

  lemma EndingKeeps(s: Session, blocks: map<string, StreamBlock>, held: Option<StreamBlock>, ending: Ending)
    requires Live(s) && s.client.AllClosed() && Agrees(blocks, held, s.table, s.client) && !ending.Stopping?
    ensures var r := s.(client := s.client.(ending := ending));
      WellFormed(r) && Agrees(blocks, held, r.table, r.client)
  {
  }

  lemma {:induction false} LeastExists(blocks: map<string, StreamBlock>, pending: set<string>)
    requires pending != {} && pending <= blocks.Keys
    ensures exists k :: k in pending && forall l :: l in pending ==> blocks[k].index <= blocks[l].index
    decreases pending
  {
    var k :| k in pending;
    var rest := pending - {k};
    if rest != {} {
      LeastExists(blocks, rest);
      var m :| m in rest && forall l :: l in rest ==> blocks[m].index <= blocks[l].index;
      var least := if blocks[m].index < blocks[k].index then m else k;
      assert forall l :: l in pending ==> l == k || l in rest;
      assert forall l :: l in pending ==> blocks[least].index <= blocks[l].index;
    } else {
      assert pending == {k};
    }
  }

  class StreamTranslator {
    const cfg: Config
    var out: seq<Frame>

    var state: StreamState
    var blocks: map<string, StreamBlock>
    var nextIndex: nat
    var thinking: ThinkingState
    /** The message the consumer has so far, with the translator's bookkeeping. */
    ghost var view: Session

    ghost predicate Valid()
      reads this
    {
      && Replay(out) == Some(view.client)
      && WellFormed(view)
      && Coupled()
    }

    /** The real fields say what `view` says. */
    ghost predicate Coupled()
      reads this
    {
      && cfg == view.cfg
      && state == StreamState(view.msgId, view.model, view.hasToolUse, view.Started(), view.Ended(),
                              view.client.ending.Failed?, view.usage)
      && thinking == ThinkingState(thinking.block, view.signature, view.stopPending, view.reasoningKey, view.completed)
      && nextIndex == |view.client.blocks|
      && (thinking.block.Some? <==> view.client.thinking.Some?)
      && blocks.Keys == view.table.Keys
      && Agrees(blocks, thinking.block, view.table, view.client)
    }

    ghost predicate Open()
      reads this
    {
      Valid() && Live(view)
    }

    constructor (cfg: Config)
      ensures Valid() && out == [] && view == Initial(cfg)
    {
      this.cfg := cfg;
      out := [];
      state := StreamState("", cfg.requestModel, false, false, false, false, Usage(0, 0));
      blocks, nextIndex := map[], 0;
      thinking := ThinkingState(None, "", false, "", {});
      view := Initial(cfg);
    }

    method WriteEvent(f: Frame, ghost c: Client)
      requires Replay(out) == Some(view.client) && Step(view.client, f) == Some(c)
      modifies this`out, this`view
      ensures out == old(out) + [f] && Replay(out) == Some(c)
      ensures view == old(view).(client := c)
    {
      ReplayAppend(out, f);
      out := out + [f];
      view := view.(client := c);
    }

    method EnsureStart(id: string, model0: string)
      requires Open()
      modifies this
      ensures Open() && view == Start(old(view), id, model0)
    {
      hide Agrees, WellFormed, Step, Replay;
      if state.started { return; }
      StartWrites(view, id, model0, blocks, thinking.block);
      ghost var r := Start(view, id, model0);
      var id' := id;
      if id' == "" { id' := cfg.freshId; }
      if "resp_" <= id' { id' := "msg_" + TrimPrefix(id', "resp_"); }
      var model' := model0;
      if model' == "" { model' := cfg.requestModel; }
      if model' == "" { model' := state.model; }
      state := state.(msgId := id', model := model', started := true);
      WriteEvent(MessageStart(id', model', state.usage.input), r.client);
      view := r;
    }

    // ---- thinking ----

    method FinalizeThinkingBlock(clearSignature: bool)
      requires Open()
      modifies this
      ensures Open() && view == EndThinking(old(view), clearSignature)
    {
      hide Agrees, WellFormed, Step, Replay, Client.Close, Client.Sign, Describes;
      ghost var r := EndThinking(view, clearSignature);
      if !cfg.thinking { return; }
      if thinking.block.None? {
        if clearSignature { thinking := thinking.(signature := ""); }
        view := r;
        return;
      }
      EndThinkingWrites(view, clearSignature, blocks, thinking.block);
      var i := thinking.block.value.index;
      if thinking.signature != "" {
        WriteEvent(SignatureDelta(i, thinking.signature), view.client.Sign(i, thinking.signature));
      }
      WriteEvent(BlockStop(i), r.client);
      if thinking.reasoningKey != "" {
        thinking := thinking.(completed := thinking.completed + {thinking.reasoningKey});
      }
      thinking := thinking.(block := None, stopPending := false);
      if clearSignature {
        thinking := thinking.(signature := "", reasoningKey := "");
      }
      view := r;
    }

    method FinishThinkingBeforeContent()
      requires Open()
      modifies this
      ensures Open() && view == BeforeContent(old(view))
    {
      hide Agrees, WellFormed, Step, Replay, EndThinking;
      if thinking.block.None? { return; }
      FinalizeThinkingBlock(true);
    }

    method EnsureThinkingBlock()
      requires Open()
      modifies this
      ensures Open() && view == OpenThinking(old(view))
    {
      hide Agrees, WellFormed, Step, Replay;
      if !cfg.thinking || thinking.block.Some? { return; }
      EnsureStart(state.msgId, state.model);
      var block := StreamBlock(nextIndex, ThinkingKind, "", "", false, false);
      OpenThinkingWrites(view, blocks, block);
      ghost var r := OpenThinking(view);
      nextIndex := nextIndex + 1;
      WriteEvent(BlockStart(block.index, ThinkingKind, "", ""), r.client);
      thinking := thinking.(block := Some(block), stopPending := false);
      view := r;
    }

    method BeginThinkingPart(key: string)
      requires Open()
      modifies this
      ensures Open() && view == StartThinkingPart(old(view), key)
    {
      hide Agrees, WellFormed, Step, Replay, ReasoningKey, EndThinking, OpenThinking;
      if !cfg.thinking { return; }
      if thinking.block.Some? && thinking.stopPending {
        FinalizeThinkingBlock(false);
      }
      thinking := thinking.(reasoningKey := ReasoningKey(key));
      ScalarsKeep(view, view.(reasoningKey := thinking.reasoningKey));
      view := view.(reasoningKey := thinking.reasoningKey);
      EnsureThinkingBlock();
    }

    method WriteThinking(text: string)
      requires Open()
      modifies this
      ensures Open() && view == AddThinking(old(view), text)
    {
      hide Agrees, WellFormed, Step, Replay, OpenThinking;
      ghost var r := AddThinking(view, text);
      if !cfg.thinking || cfg.omitted || text == "" { return; }
      EnsureThinkingBlock();
      AddThinkingWrites(view, text, blocks, thinking.block);
      WriteEvent(ThinkingDelta(thinking.block.value.index, text), r.client);
      thinking := thinking.(block := Some(thinking.block.value.(emitted := true)));
      view := r;
    }

    method CaptureThinkingSignature(key: string, signature: string)
      requires Open()
      modifies this
      ensures Open() && view == CaptureSignature(old(view), key, signature)
    {
      hide Agrees, WellFormed, Step, Replay, ReasoningKey, TrimSpace;
      if !cfg.thinking || signature == "" { return; }
      if TrimSpace(key) != "" {
        thinking := thinking.(reasoningKey := ReasoningKey(key));
      }
      thinking := thinking.(signature := signature);
      view := CaptureSignature(view, key, signature);
    }

    method EmitFinalReasoningItem(item: Item, fallbackKey: string)
      requires Open() && item.Reasoning?
      modifies this
      ensures Open() && view == FinalReasoning(old(view), item, fallbackKey)
    {
      hide Agrees, WellFormed, Step, Replay, ReasoningKey, FirstNonEmpty, EndThinking, OpenThinking, AddThinking;
      if !cfg.thinking { return; }
      var key := ReasoningKey(FirstNonEmpty([item.id, fallbackKey]));
      if key in thinking.completed { return; }
      var summary := if cfg.omitted then "" else item.summary;
      var signature := if item.encrypted == "" then thinking.signature else item.encrypted;
      if summary == "" && signature == "" { return; }
      thinking := thinking.(reasoningKey := key, signature := if signature != "" then signature else thinking.signature);
      ScalarsKeep(view, view.(reasoningKey := thinking.reasoningKey, signature := thinking.signature));
      view := view.(reasoningKey := thinking.reasoningKey, signature := thinking.signature);
      EnsureThinkingBlock();
      WriteThinking(summary);
      FinalizeThinkingBlock(true);
    }

    // ---- text and tool blocks ----

    /** Writes content_block_start and stores the block: the part that text and tool blocks share. */
    method AddBlock(k: string, block: StreamBlock)
      requires Open() && state.started && thinking.block.None? && k !in blocks && block.kind == KeyKind(k)
      requires block.index == nextIndex && !block.emitted && !block.stopped
      modifies this
      ensures Open() && state.started && thinking.block.None? && k in blocks && !blocks[k].stopped
      ensures view == Register(old(view), k, block.kind, block.callId, block.name)
    {
      hide Agrees, WellFormed, Step, Replay, KeyKind;
      RegisterWrites(view, blocks, k, block);
      ghost var r := Register(view, k, block.kind, block.callId, block.name);
      nextIndex := nextIndex + 1;
      WriteEvent(BlockStart(block.index, block.kind, block.callId, block.name), r.client);
      blocks := blocks[k := block];
      state := state.(hasToolUse := state.hasToolUse || block.kind == ToolKind);
      view := r;
    }

    method EnsureTextBlock(key: string) returns (k: string)
      requires Open() && state.started
      modifies this
      ensures Open() && view == OpenText(old(view), key)
      ensures k == BlockKey(TextKind, key) && k in blocks && state.started && thinking.block.None?
    {
      hide Agrees, WellFormed, Step, Replay, TrimSpace, KeyKind, BeforeContent, Register;
      FinishThinkingBeforeContent();
      k := BlockKey(TextKind, key);
      if k !in blocks {
        AddBlock(k, StreamBlock(nextIndex, TextKind, "", "", false, false));
      }
    }

    method EnsureToolBlock(key: string, callId: string, name: string) returns (k: string)
      requires Open() && state.started
      modifies this
      ensures Open() && view == OpenTool(old(view), key, callId, name)
      ensures k == BlockKey(ToolKind, FirstNonEmpty([key, callId])) && k in blocks && state.started && thinking.block.None?
    {
      hide Agrees, WellFormed, Step, Replay, TrimSpace, KeyKind, FirstNonEmpty, BeforeContent, Register;
      FinishThinkingBeforeContent();
      k := BlockKey(ToolKind, FirstNonEmpty([key, callId]));
      if k !in blocks {
        var call := if callId == "" then TrimPrefix(k, "tool:") else callId;
        var tool := if name == "" then "tool" else name;
        AddBlock(k, StreamBlock(nextIndex, ToolKind, call, tool, false, false));
      }
    }

    /** Writes a delta for a registered block unless it was stopped: the tail both deltas share. */
    method WriteDelta(k: string, text: string)
      requires Open() && state.started && thinking.block.None? && k in blocks && text != ""
      modifies this
      ensures Open() && view == AppendOpen(old(view), k, text)
    {
      hide Agrees, WellFormed, Step, Replay, Client.Append;
      StoppedMeansClosed(k);
      if blocks[k].stopped { return; }
      DeltaWrites(view, blocks, k, text);
      ghost var r := AppendOpen(view, k, text);
      WriteEvent(DeltaFrame(blocks[k], text), r.client);
      blocks := blocks[k := blocks[k].(emitted := true)];
      view := r;
    }

    lemma StoppedMeansClosed(k: string)
      requires Open() && k in blocks
      ensures k in view.table && 0 <= view.table[k] < |view.client.blocks| && blocks[k].index == view.table[k]
      ensures blocks[k].stopped <==> !view.client.blocks[view.table[k]].open
      ensures blocks[k].emitted <==> view.client.blocks[view.table[k]].content != ""
    {
      hide WellFormed, Step, Replay;
    }

    method WriteText(key: string, text: string)
      requires Open() && state.started
      modifies this
      ensures Open() && view == AddText(old(view), key, text)
    {
      hide Agrees, WellFormed, Step, Replay, BlockKey, OpenText, AppendOpen;
      if text == "" { return; }
      var k := EnsureTextBlock(key);
      WriteDelta(k, text);
    }

    method ToolArgsDelta(key: string, callId: string, name: string, arguments: string)
      requires Open() && state.started
      modifies this
      ensures Open() && view == AddArguments(old(view), key, callId, name, arguments)
    {
      hide Agrees, WellFormed, Step, Replay, BlockKey, FirstNonEmpty, OpenTool, AppendOpen;
      if arguments == "" { return; }
      var k := EnsureToolBlock(key, callId, name);
      WriteDelta(k, arguments);
    }

    method WriteTexts(key: string, texts: seq<string>)
      requires Open()
      modifies this
      ensures Open() && view == AddTexts(old(view), key, texts)
    {
      hide Agrees, WellFormed, Step, Replay, AddText;
      assert texts[0..] == texts;
      for i := 0 to |texts|
        invariant Open()
        invariant AddTexts(view, key, texts[i..]) == AddTexts(old(view), key, texts)
      {
        assert texts[i..][0] == texts[i] && texts[i..][1..] == texts[i + 1..];
        if texts[i] != "" {
          EnsureStart(state.msgId, state.model);
          WriteText(key, texts[i]);
        }
      }
    }

    method StopKey(key: string, kind: Kind)
      requires Open() && kind != ThinkingKind
      modifies this
      ensures Open() && view == StreamSession.StopBlock(old(view), key, kind)
    {
      hide Agrees, WellFormed, Step, Replay, BlockKey;
      var k := BlockKey(kind, key);
      if k !in blocks { return; }
      StoppedMeansClosed(k);
      if blocks[k].stopped { return; }
      StopWrites(view, blocks, thinking.block, k);
      ghost var r := StreamSession.StopBlock(view, key, kind);
      WriteEvent(BlockStop(blocks[k].index), r.client);
      blocks := blocks[k := blocks[k].(stopped := true)];
      view := r;
    }

    /** A full set of arguments, used only when the block streamed none; then the block stops. */
    method CompleteTool(key: string, callId: string, name: string, arguments: string)
      requires Open() && state.started
      modifies this
      ensures Open() && view == FinishTool(old(view), key, callId, name, arguments)
    {
      hide Agrees, WellFormed, Step, Replay, BlockKey, FirstNonEmpty, OpenTool, AddArguments, StreamSession.StopBlock;
      var k := EnsureToolBlock(key, callId, name);
      StoppedMeansClosed(k);
      if !blocks[k].emitted {
        ToolArgsDelta(key, callId, name, arguments);
      }
      StopKey(key, ToolKind);
    }

    // ---- endings ----

    /** Stops every block still open, in index order. */
    method StopAllBlocks()
      requires Open() && thinking.block.None?
      modifies this
      ensures Open() && thinking.block.None?
      ensures view == old(view).(client := old(view).client.CloseAll()) && view.client.AllClosed()
    {
      hide Agrees, WellFormed, Step, Replay, Client.CloseAll;
      var pending := set k | k in blocks && !blocks[k].stopped;
      while pending != {}
        invariant Open() && thinking.block.None?
        invariant pending == set k | k in blocks && !blocks[k].stopped
        invariant view == old(view).(client := view.client)
        invariant view.client.CloseAll() == old(view).client.CloseAll()
      {
        LeastExists(blocks, pending);
        var k :| k in pending && forall l :: l in pending ==> blocks[k].index <= blocks[l].index;
        LeastIsFirstOpen(view, blocks, k);
        StopOne(k);
        pending := pending - {k};
      }
      assert forall k | k in blocks && !blocks[k].stopped :: k in pending;
      NothingPending(view, blocks);
      CloseAllOfClosed(view.client);
    }

    method StopOne(k: string)
      requires Open() && thinking.block.None? && k in blocks && !blocks[k].stopped
      requires forall j | 0 <= j < blocks[k].index && j < |view.client.blocks| :: !view.client.blocks[j].open
      modifies this
      ensures Open() && thinking.block.None?
      ensures blocks == old(blocks)[k := old(blocks)[k].(stopped := true)]
      ensures view == old(view).(client := view.client)
      ensures view.client.CloseAll() == old(view).client.CloseAll()
    {
      hide Agrees, WellFormed, Step, Replay, Client.CloseAll;
      StopWrites(view, blocks, thinking.block, k);
      CloseLeastFirst(view.client, blocks[k].index);
      ghost var c := view.client.Close(blocks[k].index);
      SameShape(view, view.(client := c));
      WriteEvent(BlockStop(blocks[k].index), c);
      blocks := blocks[k := blocks[k].(stopped := true)];
    }

    method Finish(stopReason: string, usage: Usage)
      requires Valid()
      modifies this
      ensures Valid() && view == StreamSession.Finish(old(view), stopReason, usage)
      ensures old(state.finished) ==> out == old(out)
      ensures !old(state.finished) ==> |out| >= 2 && out[|out| - 2].MessageDelta? && out[|out| - 1].MessageStop?
    {
      hide Agrees, WellFormed, Step, Replay, EndThinking, Start;
      if state.finished { return; }
      EnsureStart(state.msgId, state.model);
      FinalizeThinkingBlock(true);
      StopAllBlocks();
      var reason := stopReason;
      if reason == "" {
        reason := if state.hasToolUse then "tool_use" else "end_turn";
      }
      var inTokens := if usage.input == 0 && state.usage.input > 0 then state.usage.input else usage.input;
      var outTokens := if usage.output == 0 && state.usage.output > 0 then state.usage.output else usage.output;
      WriteFinish(reason, inTokens, outTokens);
    }

    method WriteFinish(reason: string, inTokens: int, outTokens: int)
      requires Open() && state.started && view.client.AllClosed()
      modifies this
      ensures Valid() && |out| >= 2 && out[|out| - 2].MessageDelta? && out[|out| - 1].MessageStop?
      ensures view == old(view).(client := old(view).client.(ending := Finished(reason, inTokens, outTokens)))
    {
      hide Agrees, Replay;
      ghost var c := view.client.(ending := Stopping(reason, inTokens, outTokens));
      EndingKeeps(view, blocks, thinking.block, Finished(reason, inTokens, outTokens));
      WriteEvent(MessageDelta(reason, inTokens, outTokens), c);
      WriteEvent(MessageStop, c.(ending := Finished(reason, inTokens, outTokens)));
      state := state.(finished := true);
    }

    method Fail(status: int, message: string)
      requires Valid()
      modifies this
      ensures Valid() && view == StreamSession.Fail(old(view), status, message)
      ensures old(state.finished) ==> out == old(out)
      ensures !old(state.finished) ==> |out| >= 1 && out[|out| - 1] == ErrorFrame(status, message)
    {
      hide Agrees, WellFormed, Step, Replay, EndThinking;
      if state.finished { return; }
      FinalizeThinkingBlock(true);
      StopAllBlocks();
      WriteError(status, message);
    }

    method WriteError(status: int, message: string)
      requires Open() && view.client.AllClosed()
      modifies this
      ensures Valid() && |out| >= 1 && out[|out| - 1] == ErrorFrame(status, message)
      ensures view == old(view).(client := old(view).client.(ending := Failed(status, message)))
    {
      hide Agrees, Replay;
      EndingKeeps(view, blocks, thinking.block, Failed(status, message));
      WriteEvent(ErrorFrame(status, message), view.client.(ending := Failed(status, message)));
      state := state.(failed := true, finished := true);
    }

    // ---- events ----

    method HasEmittedText() returns (b: bool)
      requires Open()
      ensures b == view.AnyText()
    {
      b := exists k | k in blocks :: blocks[k].kind == TextKind && blocks[k].emitted;
      EmittedTextAgrees(view, blocks, thinking.block);
    }

    method EmitFinalItem(item: Item, n: nat)
      requires Open() && state.started
      modifies this
      ensures Open() && state.started && view == FinalItem(old(view), item, n)
    {
      hide Agrees, WellFormed, Step, Replay, BlockKey, FirstNonEmpty, Decimal, AddTexts, FinishTool, FinalReasoning, StreamSession.StopBlock;
      match item
      case Reasoning(_, _, _) => EmitFinalReasoningItem(item, "final-reasoning-" + Decimal(n));
      case Message(id, texts) =>
        var key := ItemKey([id, "final-" + Decimal(n)]);
        var k := BlockKey(TextKind, key);
        var anyText := HasEmittedText();
        if k !in blocks && anyText { return; }
        if k in blocks { StoppedMeansClosed(k); }
        if k in blocks && blocks[k].emitted {
          StopKey(key, TextKind);
        } else {
          WriteTexts(key, texts);
          StopKey(key, TextKind);
        }
      case FunctionCall(id, callId, name, arguments) =>
        var call := FirstNonEmpty([callId, id]);
        CompleteTool(ItemKey([id, call, "final-" + Decimal(n)]), call, name, if arguments == "" then "{}" else arguments);
      case UnknownItem =>
    }

    method EmitFinalOutput(items: seq<Item>)
      requires Open() && state.started
      modifies this
      ensures Open() && state.started && view == FinalItems(old(view), items, 0)
    {
      hide Agrees, WellFormed, Step, Replay, FinalItem;
      assert items[0..] == items;
      for i := 0 to |items|
        invariant Open() && state.started
        invariant FinalItems(view, items[i..], i) == FinalItems(old(view), items, 0)
      {
        assert items[i..][0] == items[i] && items[i..][1..] == items[i + 1..];
        EmitFinalItem(items[i], i);
      }
    }

    method ProcessItemAdded(at: Locator, item: Item)
      requires Open() && state.started
      modifies this
      ensures Open() && view == ApplyItemAdded(old(view), at, item)
    {
      hide Agrees, WellFormed, Step, Replay, BlockKey, FirstNonEmpty, ReasoningKey, ReasoningEventKey, CaptureSignature, OpenTool, AddArguments;
      match item
      case Reasoning(id, _, encrypted) =>
        var key := ReasoningKey(FirstNonEmpty([id, ReasoningEventKey(at)]));
        thinking := thinking.(reasoningKey := key);
        ScalarsKeep(view, view.(reasoningKey := key));
        view := view.(reasoningKey := key);
        CaptureThinkingSignature(key, encrypted);
      case FunctionCall(id, callId, name, arguments) =>
        var call := CallId(callId, id);
        var key := ItemKey([id, call, EventKey(at)]);
        var _ := EnsureToolBlock(key, call, name);
        ToolArgsDelta(key, call, name, arguments);
      case _ =>
    }

    method ProcessItemDone(at: Locator, item: Item)
      requires Open()
      modifies this
      ensures Open() && view == ApplyItemDone(old(view), at, item)
    {
      hide Agrees, WellFormed, Step, Replay, BlockKey, FirstNonEmpty, ReasoningKey, ReasoningEventKey, CaptureSignature, Start, FinishTool, AddTexts,
        FinalReasoning, EndThinking, StreamSession.StopBlock;
      match item
      case Reasoning(id, _, encrypted) =>
        var key := ReasoningKey(FirstNonEmpty([id, ReasoningEventKey(at)]));
        thinking := thinking.(reasoningKey := key);
        ScalarsKeep(view, view.(reasoningKey := key));
        view := view.(reasoningKey := key);
        CaptureThinkingSignature(key, encrypted);
        if thinking.block.None? {
          EmitFinalReasoningItem(item, key);
        } else {
          FinalizeThinkingBlock(true);
        }
      case FunctionCall(id, callId, name, arguments) =>
        EnsureStart(state.msgId, state.model);
        var call := CallId(callId, id);
        CompleteTool(ItemKey([id, call, EventKey(at)]), call, name, arguments);
      case Message(id, texts) =>
        var key := ItemKey([id, EventKey(at)]);
        var k := BlockKey(TextKind, key);
        if k in blocks { StoppedMeansClosed(k); }
        if !(k in blocks && blocks[k].emitted) {
          WriteTexts(key, texts);
        }
        StopKey(key, TextKind);
      case UnknownItem =>
    }

    method ProcessTextDone(key: string, text: string)
      requires Open()
      modifies this
      ensures Open() && view == ApplyTextDone(old(view), key, text)
    {
      hide Agrees, WellFormed, Step, Replay, BlockKey, Start, AddText, StreamSession.StopBlock;
      var k := BlockKey(TextKind, key);
      if k in blocks { StoppedMeansClosed(k); }
      if (k !in blocks || !blocks[k].emitted) && text != "" {
        EnsureStart(state.msgId, state.model);
        WriteText(key, text);
      }
      StopKey(key, TextKind);
    }

    method ProcessReasoningDelta(key: string, delta: string)
      requires Open() && state.started
      modifies this
      ensures Open() && view == ApplyReasoningDelta(old(view), key, delta)
    {
      hide Agrees, WellFormed, Step, Replay, StartThinkingPart, AddThinking;
      if thinking.block.None? {
        BeginThinkingPart(key);
      }
      WriteThinking(delta);
    }

    method ProcessCompleted(incomplete: bool, id: string, usage: Option<Usage>, output: seq<Item>)
      requires Open()
      modifies this
      ensures Valid() && view == ApplyCompleted(old(view), incomplete, id, usage, output)
    {
      hide Agrees, WellFormed, Step, Replay, Start, FinalItems, StreamSession.Finish;
      var final := state.usage;
      if id != "" && state.msgId == "" {
        EnsureStart(id, cfg.requestModel);
      } else {
        EnsureStart(state.msgId, state.model);
      }
      if usage.Some? {
        final := usage.value;
        state := state.(usage := final);
        ScalarsKeep(view, view.(usage := final));
        view := view.(usage := final);
      }
      EmitFinalOutput(output);
      var stop := if state.hasToolUse then "tool_use" else if incomplete then "max_tokens" else "end_turn";
      Finish(stop, final);
    }

    /** One upstream payload. `ok` is false for a payload that is not JSON. */
    method ProcessData(e: Event) returns (ok: bool)
      requires Valid() && InOrder(view, e)
      modifies this
      ensures Valid() && view == Apply(old(view), e)
      ensures ok <==> !e.BadJson?
      ensures old(state.finished) ==> out == old(out)
    {
      hide Agrees, WellFormed, Step, Replay, EventKey, ReasoningEventKey, CallKey, Start, AddText, OpenText, StartThinkingPart, ApplyReasoningDelta,
        ApplyTextDone, ApplyItemAdded, ApplyItemDone, AddArguments, FinishTool, ApplyCompleted,
        StreamSession.Fail;
      ok := !e.BadJson?;
      match e
      case Blank => case BadJson => case UnknownEvent =>
      case Done =>
        if state.started && !state.finished { Finish("", state.usage); }
      case ResponseFailed(status, message) => Fail(status, message);
      case UpstreamError(message) => Fail(502, message);
      case _ => ProcessContent(e);
    }

    method ProcessContent(e: Event)
      requires Open() && !Late(e)
      modifies this
      ensures Valid() && view == Apply(old(view), e)
    {
      hide Agrees, WellFormed, Step, Replay, EventKey, ReasoningEventKey, CallKey, Start, AddText, OpenText, StartThinkingPart, ApplyReasoningDelta,
        ApplyTextDone, ApplyItemAdded, ApplyItemDone, AddArguments, FinishTool, ApplyCompleted;
      if Streamed(e) {
        ProcessStreamed(e);
        return;
      }
      match e
      case Created(id, model, inputTokens) =>
        if inputTokens > 0 {
          state := state.(usage := state.usage.(input := inputTokens));
          ScalarsKeep(view, view.(usage := state.usage));
          view := view.(usage := state.usage);
        }
        EnsureStart(id, if cfg.requestModel != "" then cfg.requestModel else model);
      case ReasoningPartDone =>
        thinking := thinking.(stopPending := true);
        ScalarsKeep(view, view.(stopPending := true));
        view := view.(stopPending := true);
      case ContentPartAdded(at, isText) =>
        if isText {
          EnsureStart(state.msgId, state.model);
          var _ := EnsureTextBlock(EventKey(at));
        }
      case ContentPartDone(at, isText, text) => if isText { ProcessTextDone(EventKey(at), text); }
      case ItemDone(at, item) => ProcessItemDone(at, item);
      case Completed(incomplete, id, usage, output) => ProcessCompleted(incomplete, id, usage, output);
    }

    method ProcessStreamed(e: Event)
      requires Open() && Streamed(e)
      modifies this
      ensures Open() && view == Apply(old(view), e)
    {
      hide Agrees, WellFormed, Step, Replay, EventKey, ReasoningEventKey, CallKey, Start, AddText, OpenText, StartThinkingPart, ApplyReasoningDelta,
        ApplyTextDone, ApplyItemAdded, ApplyItemDone, AddArguments, FinishTool, ApplyCompleted;
      EnsureStart(state.msgId, state.model);
      match e
      case OutputTextDelta(at, delta) => WriteText(EventKey(at), delta);
      case ReasoningPartAdded(at) => BeginThinkingPart(ReasoningEventKey(at));
      case ReasoningDelta(at, delta) => ProcessReasoningDelta(ReasoningEventKey(at), delta);
      case ItemAdded(at, item) => ProcessItemAdded(at, item);
      case ArgumentsDelta(at, callId, name, delta) =>
        ToolArgsDelta(CallKey(at, callId), CallId(callId, at.itemId), name, delta);
      case ArgumentsDone(at, callId, name, arguments) =>
        CompleteTool(CallKey(at, callId), CallId(callId, at.itemId), name, arguments);
    }

    /** Reads payloads until one is not JSON or the input ends, which is an error before the stream ended. */
    method Pipe(events: seq<Event>) returns (r: PipeResult)
      requires Valid() && Orderly(view, events)
      modifies this
      ensures Valid() && Legal(out)
      ensures Orderly(old(view), Decoded(events)) && view == Run(old(view), Decoded(events))
      ensures r == if |Decoded(events)| < |events| then InvalidJson else if view.Ended() then Complete else UnexpectedEof
      ensures view.Ended() ==> out != [] && Terminal(out[|out| - 1]) && Replay(out).value.AllClosed()
    {
      hide Agrees, Step, Replay, WellFormed, Apply, Run, Orderly, Decoded, InOrder;
      PipeStep(view, events);
      assert events[0..] == events;
      for i := 0 to |events|
        invariant Valid() && Orderly(view, events[i..]) && Orderly(view, Decoded(events[i..]))
        invariant Run(view, Decoded(events[i..])) == Run(old(view), Decoded(events))
        invariant |Decoded(events)| == i + |Decoded(events[i..])|
      {
        assert events[i..][0] == events[i] && events[i..][1..] == events[i + 1..];
        PipeStep(view, events[i..]);
        var ok := ProcessData(events[i]);
        if !ok {
          EndsInTerminal(view, out);
          return InvalidJson;
        }
      }
      PipeStep(view, events[|events|..]);
      EndsInTerminal(view, out);
      r := if state.finished then Complete else UnexpectedEof;
    }
  }

  datatype PipeResult = Complete | InvalidJson | UnexpectedEof

  /** One turn of the reading loop. */
  lemma PipeStep(s: Session, es: seq<Event>)
    requires WellFormed(s) && Orderly(s, es)
    ensures Orderly(s, Decoded(es))
    ensures es == [] ==> Decoded(es) == [] && Run(s, Decoded(es)) == s
    ensures es != [] ==> InOrder(s, es[0])
    ensures es != [] && es[0].BadJson? ==> Decoded(es) == [] && Run(s, Decoded(es)) == s == Apply(s, es[0])
    ensures es != [] && !es[0].BadJson? ==>
              var t := Apply(s, es[0]);
              && |Decoded(es)| == 1 + |Decoded(es[1..])| && Orderly(t, es[1..]) && Orderly(t, Decoded(es[1..]))
              && Run(s, Decoded(es)) == Run(t, Decoded(es[1..]))
  {
    hide WellFormed;
    DecodedRun(s, es);
    if es != [] && !es[0].BadJson? {
      DecodedRun(Apply(s, es[0]), es[1..]);
      assert Decoded(es)[1..] == Decoded(es[1..]);
    }
  }

  lemma {:induction false} DecodedRun(s: Session, es: seq<Event>)
    requires WellFormed(s) && Orderly(s, es)
    ensures Orderly(s, Decoded(es))
    decreases |es|
  {
    hide WellFormed, Apply, InOrder;
    if es != [] && !es[0].BadJson? {
      DecodedRun(Apply(s, es[0]), es[1..]);
      assert Decoded(es)[1..] == Decoded(es[1..]);
    }
  }

  /** An ended session has been told to the consumer: the last frame is the terminal one. */
  lemma EndsInTerminal(s: Session, out: seq<Frame>)
    requires Replay(out) == Some(s.client) && WellFormed(s)
    ensures s.Ended() ==> out != [] && Terminal(out[|out| - 1]) && s.client.AllClosed()
  {
    LastFrame(out);
  }
}
