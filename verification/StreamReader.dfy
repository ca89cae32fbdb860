/** The Claude stream as its consumer reads it. `Replay` accepts exactly the legal
    frame sequences and rebuilds the message they describe. */
module StreamReader {
  import opened Text

  datatype Kind = TextKind | ToolKind | ThinkingKind

  datatype Frame =
    | MessageStart(id: string, model: string, inputTokens: int)
    | BlockStart(index: int, kind: Kind, callId: string, name: string)
    | TextDelta(index: int, text: string)
    | JsonDelta(index: int, json: string)
    | ThinkingDelta(index: int, thinking: string)
    | SignatureDelta(index: int, signature: string)
    | BlockStop(index: int)
    | MessageDelta(stopReason: string, inTokens: int, outTokens: int)
    | MessageStop
    | ErrorFrame(status: int, message: string)

  datatype Block = Block(kind: Kind, callId: string, name: string, content: string, signature: string, open: bool)

  datatype Head = Head(id: string, model: string, inputTokens: int)

  datatype Ending =
    | Running
    | Stopping(reason: string, inTokens: int, outTokens: int)
    | Finished(reason: string, inTokens: int, outTokens: int)
    | Failed(status: int, message: string)

  /** What the consumer knows: the head, the blocks by index, the order in which blocks were
      stopped, the open thinking block if any, and how the stream ended. */
  datatype Client = Client(
    head: Option<Head>, blocks: seq<Block>, stops: seq<int>, thinking: Option<int>, ending: Ending)
  {
    predicate Has(i: int, kind: Kind) {
      0 <= i < |blocks| && blocks[i].kind == kind && blocks[i].open
    }

    predicate AllClosed() {
      forall i | 0 <= i < |blocks| :: !blocks[i].open
    }

    function Open(kind: Kind, callId: string, name: string): Client {
      this.(blocks := blocks + [Block(kind, callId, name, "", "", true)],
            thinking := if kind.ThinkingKind? then Some(|blocks|) else thinking)
    }

    function Append(i: int, text: string): Client
      requires 0 <= i < |blocks|
    {
      this.(blocks := blocks[i := blocks[i].(content := blocks[i].content + text)])
    }

    function Sign(i: int, signature: string): Client
      requires 0 <= i < |blocks|
    {
      this.(blocks := blocks[i := blocks[i].(signature := signature)])
    }

    function Close(i: int): Client
      requires 0 <= i < |blocks|
    {
      this.(blocks := blocks[i := blocks[i].(open := false)],
            stops := stops + [i],
            thinking := if thinking == Some(i) then None else thinking)
    }

    function CloseAll(): Client {
      this.(blocks := seq(|blocks|, i requires 0 <= i < |blocks| => blocks[i].(open := false)),
            stops := stops + OpenIndices(blocks))
    }
  }

  /** Indices of the open blocks, ascending. */
  function OpenIndices(blocks: seq<Block>): seq<int> {
    if blocks == [] then []
    else
      var n := |blocks| - 1;
      OpenIndices(blocks[..n]) + if blocks[n].open then [n] else []
  }

  const Fresh := Client(None, [], [], None, Running)

  /** One frame. None: the frame is not allowed here. */
  function Step(c: Client, f: Frame): Option<Client> {
    match f
    case MessageStart(id, model, tokens) =>
      if c.ending.Running? && c.head.None? && c.blocks == []
      then Some(c.(head := Some(Head(id, model, tokens)))) else None
    case BlockStart(i, kind, callId, name) =>
      if c.ending.Running? && c.head.Some? && i == |c.blocks| && c.thinking.None?
      then Some(c.Open(kind, callId, name)) else None
    case TextDelta(i, text) =>
      if c.ending.Running? && c.Has(i, TextKind) && c.thinking.None? && text != ""
      then Some(c.Append(i, text)) else None
    case JsonDelta(i, json) =>
      if c.ending.Running? && c.Has(i, ToolKind) && c.thinking.None? && json != ""
      then Some(c.Append(i, json)) else None
    case ThinkingDelta(i, text) =>
      if c.ending.Running? && c.Has(i, ThinkingKind) && c.blocks[i].signature == "" && text != ""
      then Some(c.Append(i, text)) else None
    case SignatureDelta(i, signature) =>
      if c.ending.Running? && c.Has(i, ThinkingKind) && c.blocks[i].signature == "" && signature != ""
      then Some(c.Sign(i, signature)) else None
    case BlockStop(i) =>
      if c.ending.Running? && 0 <= i < |c.blocks| && c.blocks[i].open
      then Some(c.Close(i)) else None
    case MessageDelta(reason, inTokens, outTokens) =>
      if c.ending.Running? && c.head.Some? && c.AllClosed()
      then Some(c.(ending := Stopping(reason, inTokens, outTokens))) else None
    case MessageStop =>
      if c.ending.Stopping?
      then Some(c.(ending := Finished(c.ending.reason, c.ending.inTokens, c.ending.outTokens))) else None
    case ErrorFrame(status, message) =>
      if c.ending.Running? && c.AllClosed()
      then Some(c.(ending := Failed(status, message))) else None
  }

  function Replay(frames: seq<Frame>): Option<Client> {
    if frames == [] then Some(Fresh)
    else
      var n := |frames| - 1;
      match Replay(frames[..n])
      case None => None
      case Some(c) => Step(c, frames[n])
  }

  predicate Legal(frames: seq<Frame>) {
    Replay(frames).Some?
  }

  lemma ReplayAppend(frames: seq<Frame>, f: Frame)
    requires Legal(frames)
    ensures Replay(frames + [f]) == Step(Replay(frames).value, f)
  {
    assert (frames + [f])[..|frames|] == frames;
  }

  // ---- what legality means on the frames themselves ----

  predicate IsDelta(f: Frame) {
    f.TextDelta? || f.JsonDelta? || f.ThinkingDelta? || f.SignatureDelta?
  }

  predicate Terminal(f: Frame) {
    f.MessageStop? || f.ErrorFrame?
  }

  function DeltaKind(f: Frame): Kind
    requires IsDelta(f)
  {
    if f.TextDelta? then TextKind else if f.JsonDelta? then ToolKind else ThinkingKind
  }

  predicate StartsAt(frames: seq<Frame>, p: int, i: int) {
    0 <= p < |frames| && frames[p].BlockStart? && frames[p].index == i
  }

  predicate StopsAt(frames: seq<Frame>, p: int, i: int) {
    0 <= p < |frames| && frames[p].BlockStop? && frames[p].index == i
  }

  function StartCount(frames: seq<Frame>): nat {
    if frames == [] then 0
    else StartCount(frames[..|frames| - 1]) + if frames[|frames| - 1].BlockStart? then 1 else 0
  }

  ghost predicate Started(frames: seq<Frame>, i: int, kind: Kind) {
    exists p :: StartsAt(frames, p, i) && frames[p].kind == kind
  }

  ghost predicate Stopped(frames: seq<Frame>, i: int) {
    exists p :: StopsAt(frames, p, i)
  }

  /** Block `i` was opened, as `kind`, and has not been stopped, within `frames`. */
  ghost predicate OpenIn(frames: seq<Frame>, i: int, kind: Kind) {
    Started(frames, i, kind) && !Stopped(frames, i)
  }

  /** The consumer's blocks are read off the frames: block i exists iff it was started, has the
      kind of its start frame, and is open iff no stop frame names it. */
  ghost predicate Tracks(frames: seq<Frame>, c: Client) {
    && |c.blocks| == StartCount(frames)
    && (forall i | 0 <= i < |c.blocks| :: Started(frames, i, c.blocks[i].kind))
    && (forall p | 0 <= p < |frames| && (frames[p].BlockStart? || frames[p].BlockStop?) ::
          0 <= frames[p].index < |c.blocks|)
    && (forall i | 0 <= i < |c.blocks| :: c.blocks[i].open <==> !Stopped(frames, i))
  }

  lemma StopsExtend(pre: seq<Frame>, f: Frame, i: int)
    ensures Stopped(pre + [f], i) <==> Stopped(pre, i) || (f.BlockStop? && f.index == i)
    ensures forall kind :: Started(pre, i, kind) ==> Started(pre + [f], i, kind)
  {
    var all := pre + [f];
    assert f.BlockStop? && f.index == i ==> StopsAt(all, |pre|, i);
    forall p | StopsAt(pre, p, i) ensures StopsAt(all, p, i) { assert all[p] == pre[p]; }
    forall p | StopsAt(all, p, i) && p < |pre| ensures StopsAt(pre, p, i) { assert all[p] == pre[p]; }
    forall p | StartsAt(pre, p, i) ensures StartsAt(all, p, i) && all[p].kind == pre[p].kind { assert all[p] == pre[p]; }
  }

  lemma {:induction false} ReplayTracks(frames: seq<Frame>)
    requires Legal(frames)
    ensures Tracks(frames, Replay(frames).value)
  {
    if frames != [] {
      var n := |frames| - 1;
      var pre := frames[..n];
      ReplayTracks(pre);
      var c, d, f := Replay(pre).value, Replay(frames).value, frames[n];
      assert frames == pre + [f];
      forall i | 0 <= i < |d.blocks|
        ensures Started(frames, i, d.blocks[i].kind) && (d.blocks[i].open <==> !Stopped(frames, i))
      {
        StopsExtend(pre, f, i);
        if i == |c.blocks| {
          assert StartsAt(frames, n, i);
          assert !Stopped(pre, i);
        }
      }
      forall p | 0 <= p < |frames| && (frames[p].BlockStart? || frames[p].BlockStop?)
        ensures 0 <= frames[p].index < |d.blocks|
      {
        if p < n { assert frames[p] == pre[p]; }
      }
    }
  }

  /** The consumer's stop list is the stop frames in order, so no index is in it twice, and it
      holds exactly the closed blocks. */
  lemma {:induction false} StopsAreTheClosedBlocks(frames: seq<Frame>)
    requires Legal(frames)
    ensures var c := Replay(frames).value;
      && (forall j, k | 0 <= j < k < |c.stops| :: c.stops[j] != c.stops[k])
      && (forall i :: i in c.stops <==> 0 <= i < |c.blocks| && !c.blocks[i].open)
  {
    if frames != [] {
      StopsAreTheClosedBlocks(frames[..|frames| - 1]);
    }
  }

  lemma {:induction false} PrefixLegal(frames: seq<Frame>, n: nat)
    requires Legal(frames) && n <= |frames|
    ensures Legal(frames[..n])
    decreases |frames| - n
  {
    if n < |frames| {
      PrefixLegal(frames, n + 1);
      assert frames[..n + 1][..n] == frames[..n];
    } else {
      assert frames[..n] == frames;
    }
  }

  /** The frame-level reading of legality, position by position. */
  lemma {:induction false} LegalShape(frames: seq<Frame>, p: nat)
    requires Legal(frames) && p < |frames|
    ensures frames[p].BlockStart? ==> frames[p].index == StartCount(frames[..p])
    ensures IsDelta(frames[p]) ==> OpenIn(frames[..p], frames[p].index, DeltaKind(frames[p]))
    ensures frames[p].BlockStop? ==> exists kind :: OpenIn(frames[..p], frames[p].index, kind)
    ensures p > 0 && !frames[p].ErrorFrame? ==> frames[0].MessageStart?
    ensures p == 0 ==> frames[p].MessageStart? || frames[p].ErrorFrame?
    ensures p > 0 ==> !frames[p].MessageStart?
    ensures Terminal(frames[p]) ==> p == |frames| - 1
    ensures Terminal(frames[p]) || frames[p].MessageDelta? ==>
      forall q, i :: StartsAt(frames[..p], q, i) ==> exists r :: q < r && StopsAt(frames[..p], r, i)
  {
    var pre := frames[..p];
    PrefixLegal(frames, p);
    PrefixLegal(frames, p + 1);
    assert frames[..p + 1][..p] == pre;
    ReplayTracks(pre);
    var c := Replay(pre).value;
    HeadFirst(pre);
    if Terminal(frames[p]) { NothingAfterTerminal(frames, p); }
    if frames[p].BlockStop? { assert OpenIn(pre, frames[p].index, c.blocks[frames[p].index].kind); }
    if Terminal(frames[p]) || frames[p].MessageDelta? {
      EndedMeansClosed(pre);
      forall q, i | StartsAt(pre, q, i) ensures exists r :: q < r && StopsAt(pre, r, i) {
        assert 0 <= pre[q].index < |c.blocks| && Stopped(pre, i);
        var r :| StopsAt(pre, r, i);
        StartBeforeStop(pre, q, r, i);
      }
    }
    if p == 0 { assert pre == []; }
  }

  lemma {:induction false} EndedMeansClosed(frames: seq<Frame>)
    requires Legal(frames)
    ensures !Replay(frames).value.ending.Running? ==> Replay(frames).value.AllClosed()
  {
    if frames != [] { EndedMeansClosed(frames[..|frames| - 1]); }
  }

  lemma {:induction false} HeadFirst(frames: seq<Frame>)
    requires Legal(frames)
    ensures var c := Replay(frames).value;
      && (c.head.Some? ==> frames != [] && frames[0].MessageStart?)
      && (c.head.None? ==> c.blocks == [] && !c.ending.Stopping? && !c.ending.Finished?)
      && (c.head.None? && c.ending.Running? ==> frames == [])
  {
    if frames != [] { HeadFirst(frames[..|frames| - 1]); }
  }

  /** How the stream ended can be read off its last frames. */
  lemma LastFrame(frames: seq<Frame>)
    requires Legal(frames)
    ensures var c := Replay(frames).value; var n := |frames|;
      && (c.ending.Failed? ==> n > 0 && frames[n - 1] == ErrorFrame(c.ending.status, c.ending.message))
      && (c.ending.Stopping? ==> n > 0 && frames[n - 1] == MessageDelta(c.ending.reason, c.ending.inTokens, c.ending.outTokens))
      && (c.ending.Finished? ==>
            && n > 1 && frames[n - 1].MessageStop?
            && frames[n - 2] == MessageDelta(c.ending.reason, c.ending.inTokens, c.ending.outTokens))
  {
    if |frames| > 1 { LastFrame(frames[..|frames| - 1]); }
  }

  lemma NothingAfterTerminal(frames: seq<Frame>, p: nat)
    requires Legal(frames) && p < |frames| && Terminal(frames[p])
    ensures p == |frames| - 1
  {
    if p < |frames| - 1 {
      assert frames[..p + 2][..p + 1] == frames[..p + 1] && frames[..p + 1][..p] == frames[..p];
      PrefixLegal(frames, p + 1);
      PrefixLegal(frames, p + 2);
    }
  }

  /** A stop frame comes after the start frame it closes. */
  lemma StartBeforeStop(frames: seq<Frame>, q: nat, r: nat, i: int)
    requires Legal(frames) && StartsAt(frames, q, i) && StopsAt(frames, r, i)
    ensures q < r
  {
    if r < q {
      assert frames[..q + 1][..q] == frames[..q] && StopsAt(frames[..q], r, i);
      PrefixLegal(frames, q);
      ReplayTracks(frames[..q]);
      PrefixLegal(frames, q + 1);
    }
  }

  // ---- closing the open blocks in index order ----

  lemma {:induction false} NoneOpen(blocks: seq<Block>)
    requires forall i | 0 <= i < |blocks| :: !blocks[i].open
    ensures OpenIndices(blocks) == []
  {
    if blocks != [] { NoneOpen(blocks[..|blocks| - 1]); }
  }

  lemma {:induction false} OpenIndicesClose(blocks: seq<Block>, i: int)
    requires 0 <= i < |blocks| && blocks[i].open
    requires forall j | 0 <= j < i :: !blocks[j].open
    ensures OpenIndices(blocks) == [i] + OpenIndices(blocks[i := blocks[i].(open := false)])
  {
    var n := |blocks| - 1;
    var closed := blocks[i := blocks[i].(open := false)];
    if i < n {
      OpenIndicesClose(blocks[..n], i);
      assert closed[..n] == blocks[..n][i := blocks[i].(open := false)];
    } else {
      assert closed[..n] == blocks[..n];
      NoneOpen(blocks[..n]);
    }
  }

  /** Stopping the least open block first and then the rest is stopping them all. */
  lemma CloseLeastFirst(c: Client, i: int)
    requires c.thinking.None? && 0 <= i < |c.blocks| && c.blocks[i].open
    requires forall j | 0 <= j < i :: !c.blocks[j].open
    ensures c.Close(i).CloseAll() == c.CloseAll()
  {
    OpenIndicesClose(c.blocks, i);
    assert c.Close(i).CloseAll().blocks == c.CloseAll().blocks;
    assert c.stops + [i] + OpenIndices(c.Close(i).blocks) == c.stops + OpenIndices(c.blocks);
  }

  lemma CloseAllOfClosed(c: Client)
    requires c.AllClosed()
    ensures c.CloseAll() == c
  {
    NoneOpen(c.blocks);
    assert c.CloseAll().blocks == c.blocks;
  }
}
