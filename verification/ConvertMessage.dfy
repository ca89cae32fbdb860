/** One Claude message to Responses input items: runs of text and images become message items, everything else an
    item of its own. */
module ConvertMessage {
  import opened Text

  /** Text of a tool result, as it arrived. */
  datatype ResultPart = ResultPart(kind: string, text: string)
  datatype ToolOutput = Absent | PlainText(text: string) | Parts(parts: seq<ResultPart>) | OtherJson(raw: string)

  datatype ToolInput = NoInput | ValidJson(json: string) | InvalidJson(raw: string)

  datatype Block =
    | TextBlock(text: string)
    | Image(mediaType: string, data: string, url: string)
    | ToolUse(id: string, name: string, input: ToolInput)
    | ToolResult(toolUseId: string, id: string, output: ToolOutput, isError: bool)
    | Thinking(signature: string)
    | RedactedThinking
    | OtherBlock(kind: string)

  datatype Content = Plain(text: string) | Blocks(blocks: seq<Block>) | Unparsed(raw: string)

  datatype Message = Message(role: string, content: Content)

  datatype Part = TextPart(kind: string, text: string) | ImagePart(url: string)

  datatype Item =
    | MessageItem(role: string, content: seq<Part>)
    | FunctionCall(callId: string, id: string, name: string, arguments: string)
    | FunctionCallOutput(callId: string, output: string)
    | Reasoning(encryptedContent: string)

  /** The JSON encoder: a string as a JSON string, and the body that marks an error result. */
  datatype Json = Json(quote: string -> string, errorBody: string -> string)

  // ---- one block ----

  function Lower(s: string): string {
    seq(|s|, i requires 0 <= i < |s| => if 'A' <= s[i] <= 'Z' then s[i] - 'A' + 'a' else s[i])
  }

  function RoleOf(role: string): string {
    if Lower(TrimSpace(role)) == "" then "user" else Lower(TrimSpace(role))
  }

  function TextKind(role: string): string {
    if role == "assistant" then "output_text" else "input_text"
  }

  function ImageUrl(b: Block): string
    requires b.Image?
  {
    if b.url != "" || b.data == "" then b.url
    else "data:" + (if b.mediaType == "" then "application/octet-stream" else b.mediaType) + ";base64," + b.data
  }

  function Arguments(json: Json, input: ToolInput): string {
    match input
    case NoInput => "{}"
    case ValidJson(j) => j
    case InvalidJson(raw) => json.quote(raw)
  }

  function KeptTexts(parts: seq<ResultPart>): seq<string> {
    if parts == [] then []
    else if (parts[0].kind == "text" || parts[0].kind == "") && parts[0].text != ""
    then [parts[0].text] + KeptTexts(parts[1..])
    else KeptTexts(parts[1..])
  }

  function Lines(texts: seq<string>): string {
    if texts == [] then "" else if |texts| == 1 then texts[0] else texts[0] + "\n" + Lines(texts[1..])
  }

  function OutputText(output: ToolOutput): string {
    match output
    case Absent => ""
    case PlainText(t) => t
    case Parts(parts) => Lines(KeptTexts(parts))
    case OtherJson(raw) => raw
  }

  /** What a block is worth on its own: a part of some message, an item, or nothing. */
  datatype Piece = InMessage(part: Part) | Alone(item: Item) | Dropped

  function PieceOf(json: Json, role: string, b: Block): Piece {
    match b
    case TextBlock(t) => InMessage(TextPart(TextKind(role), t))
    case Image(_, _, _) => if ImageUrl(b) == "" then Dropped else InMessage(ImagePart(ImageUrl(b)))
    case ToolUse(id, name, input) => Alone(FunctionCall(id, id, name, Arguments(json, input)))
    case ToolResult(toolUseId, id, output, isError) =>
      Alone(FunctionCallOutput(if toolUseId == "" then id else toolUseId,
                               if isError then json.errorBody(OutputText(output)) else OutputText(output)))
    case Thinking(signature) => if signature == "" then Dropped else Alone(Reasoning(signature))
    case RedactedThinking => Dropped
    case OtherBlock(_) => Dropped
  }

  /** The kept blocks in order. */
  function Kept(json: Json, role: string, blocks: seq<Block>): seq<Piece> {
    if blocks == [] then []
    else if PieceOf(json, role, blocks[0]).Dropped? then Kept(json, role, blocks[1..])
    else [PieceOf(json, role, blocks[0])] + Kept(json, role, blocks[1..])
  }

  // ---- items as pieces ----

  function PartPieces(parts: seq<Part>): (r: seq<Piece>)
    ensures |r| == |parts|
  {
    if parts == [] then [] else [InMessage(parts[0])] + PartPieces(parts[1..])
  }

  function Pieces(item: Item): seq<Piece> {
    if item.MessageItem? then PartPieces(item.content) else [Alone(item)]
  }

  function Flatten(items: seq<Item>): seq<Piece> {
    if items == [] then [] else Pieces(items[0]) + Flatten(items[1..])
  }

  /** Messages carry the role and are not empty, and no two of them are neighbours. */
  ghost predicate Grouped(role: string, items: seq<Item>) {
    && (forall i | 0 <= i < |items| && items[i].MessageItem? :: items[i].role == role && items[i].content != [])
    && (forall i | 0 <= i < |items| - 1 :: !(items[i].MessageItem? && items[i + 1].MessageItem?))
  }

  lemma {:induction false} FlattenAppend(items: seq<Item>, item: Item)
    ensures Flatten(items + [item]) == Flatten(items) + Pieces(item)
    decreases |items|
  {
    if items == [] {
      assert [item][1..] == [];
    } else {
      FlattenAppend(items[1..], item);
      assert (items + [item])[1..] == items[1..] + [item];
    }
  }

  lemma {:induction false} PartPiecesAppend(parts: seq<Part>, part: Part)
    ensures PartPieces(parts + [part]) == PartPieces(parts) + [InMessage(part)]
    decreases |parts|
  {
    if parts == [] {
      assert [part][1..] == [];
    } else {
      PartPiecesAppend(parts[1..], part);
      assert (parts + [part])[1..] == parts[1..] + [part];
    }
  }

  lemma {:induction false} KeptAppend(json: Json, role: string, blocks: seq<Block>, b: Block)
    ensures Kept(json, role, blocks + [b])
         == Kept(json, role, blocks) + if PieceOf(json, role, b).Dropped? then [] else [PieceOf(json, role, b)]
    decreases |blocks|
  {
    if blocks == [] {
      assert [b][1..] == [];
    } else {
      KeptAppend(json, role, blocks[1..], b);
      assert (blocks + [b])[1..] == blocks[1..] + [b];
    }
  }

  // ---- the grouping is the only one ----

  lemma {:induction false} PartPiecesAt(parts: seq<Part>, i: nat)
    requires i < |parts|
    ensures PartPieces(parts)[i] == InMessage(parts[i])
    decreases i
  {
    if i > 0 { PartPiecesAt(parts[1..], i - 1); }
  }

  /** How many pieces at the front belong into messages. */
  function Lead(ps: seq<Piece>): nat {
    if ps == [] || !ps[0].InMessage? then 0 else 1 + Lead(ps[1..])
  }

  lemma {:induction false} LeadOf(parts: seq<Part>, rest: seq<Piece>)
    requires rest == [] || !rest[0].InMessage?
    ensures Lead(PartPieces(parts) + rest) == |parts|
    decreases |parts|
  {
    if parts != [] {
      LeadOf(parts[1..], rest);
      assert (PartPieces(parts) + rest)[1..] == PartPieces(parts[1..]) + rest;
    } else {
      assert PartPieces(parts) + rest == rest;
    }
  }

  lemma {:induction false} SameParts(a: seq<Part>, b: seq<Part>)
    requires PartPieces(a) == PartPieces(b)
    ensures a == b
  {
    assert |a| == |b|;
    forall i | 0 <= i < |a| ensures a[i] == b[i] {
      PartPiecesAt(a, i);
      PartPiecesAt(b, i);
    }
  }

  lemma GroupedTail(role: string, items: seq<Item>)
    requires Grouped(role, items) && items != []
    ensures Grouped(role, items[1..])
    ensures items[0].MessageItem? ==> items[0].content != [] && items[0].role == role
    ensures items[0].MessageItem? && items[1..] != [] ==> !items[1..][0].MessageItem?
  {
  }

  lemma FrontPiece(items: seq<Item>)
    requires items != [] && !items[0].MessageItem?
    ensures Flatten(items) == [Alone(items[0])] + Flatten(items[1..])
  {
  }

  lemma FrontMessage(role: string, items: seq<Item>)
    requires Grouped(role, items) && items != [] && items[0].MessageItem?
    ensures |items[0].content| <= |Flatten(items)|
    ensures Lead(Flatten(items)) == |items[0].content| > 0
    ensures Flatten(items)[..|items[0].content|] == PartPieces(items[0].content)
    ensures Flatten(items)[|items[0].content|..] == Flatten(items[1..])
  {
    GroupedTail(role, items);
    if items[1..] != [] { FrontPiece(items[1..]); }
    LeadOf(items[0].content, Flatten(items[1..]));
  }

  /** Of all item lists without empty or neighbouring messages, only one has given pieces. */
  lemma {:induction false} GroupingIsUnique(role: string, a: seq<Item>, b: seq<Item>)
    requires Grouped(role, a) && Grouped(role, b) && Flatten(a) == Flatten(b)
    ensures a == b
    decreases |a|
  {
    if a == [] || b == [] {
      NoPieces(role, a);
      NoPieces(role, b);
    } else {
      GroupedTail(role, a);
      GroupedTail(role, b);
      SameFront(role, a, b);
      GroupingIsUnique(role, a[1..], b[1..]);
      assert a == [a[0]] + a[1..] && b == [b[0]] + b[1..];
    }
  }

  lemma NoPieces(role: string, items: seq<Item>)
    requires Grouped(role, items)
    ensures Flatten(items) == [] <==> items == []
  {
    if items != [] {
      if items[0].MessageItem? { FrontMessage(role, items); } else { FrontPiece(items); }
    }
  }

  lemma SameFront(role: string, a: seq<Item>, b: seq<Item>)
    requires Grouped(role, a) && Grouped(role, b) && Flatten(a) == Flatten(b) && a != [] && b != []
    ensures a[0] == b[0] && Flatten(a[1..]) == Flatten(b[1..])
  {
    GroupedTail(role, a);
    GroupedTail(role, b);
    if a[0].MessageItem? && b[0].MessageItem? {
      FrontMessage(role, a);
      FrontMessage(role, b);
      SameParts(a[0].content, b[0].content);
    } else if a[0].MessageItem? {
      FrontMessage(role, a);
      FrontPiece(b);
    } else if b[0].MessageItem? {
      FrontMessage(role, b);
      FrontPiece(a);
    } else {
      FrontPiece(a);
      FrontPiece(b);
      assert Flatten(a)[1..] == Flatten(a[1..]) && Flatten(b)[1..] == Flatten(b[1..]);
    }
  }

  // ---- the loops ----

  lemma {:induction false} KeptTextsAppend(parts: seq<ResultPart>, p: ResultPart)
    ensures KeptTexts(parts + [p])
         == KeptTexts(parts) + if (p.kind == "text" || p.kind == "") && p.text != "" then [p.text] else []
    ensures forall t | t in KeptTexts(parts) :: t != ""
    decreases |parts|
  {
    if parts == [] {
      assert [p][1..] == [];
    } else {
      KeptTextsAppend(parts[1..], p);
      assert (parts + [p])[1..] == parts[1..] + [p];
    }
  }

  lemma {:induction false} LinesAppend(texts: seq<string>, t: string)
    ensures Lines(texts + [t]) == if texts == [] then t else Lines(texts) + "\n" + t
    decreases |texts|
  {
    if texts != [] {
      LinesAppend(texts[1..], t);
      assert (texts + [t])[1..] == texts[1..] + [t];
    }
  }

  lemma LinesNotEmpty(texts: seq<string>)
    requires forall t | t in texts :: t != ""
    ensures Lines(texts) == "" <==> texts == []
  {
    if texts != [] { assert texts[0] in texts; }
  }

  /** Joins the texts with line ends; whether one is needed shows in what is written so far. */
  method ToolResultOutput(output: ToolOutput) returns (text: string)
    ensures text == OutputText(output)
  {
    match output
    case Absent => text := "";
    case PlainText(t) => text := t;
    case OtherJson(raw) => text := raw;
    case Parts(parts) =>
      text := "";
      for i := 0 to |parts|
        invariant text == Lines(KeptTexts(parts[..i]))
      {
        var p := parts[i];
        assert parts[..i + 1] == parts[..i] + [p];
        KeptTextsAppend(parts[..i], p);
        ghost var texts := KeptTexts(parts[..i]);
        assert texts + [] == texts;
        if p.kind == "text" || p.kind == "" {
          if p.text == "" { continue; }
          LinesAppend(texts, p.text);
          LinesNotEmpty(texts);
          if |text| > 0 { text := text + "\n"; }
          text := text + p.text;
        }
      }
      assert parts[..|parts|] == parts;
  }

  /** The items so far, with the open text parts as if they were flushed. */
  function Closed(role: string, out: seq<Item>, textParts: seq<Part>): seq<Item> {
    if textParts == [] then out else out + [MessageItem(role, textParts)]
  }

  /** The loop's state: the items so far end with no message, and with the open parts they hold what was kept. */
  ghost predicate Converting(role: string, out: seq<Item>, textParts: seq<Part>, kept: seq<Piece>) {
    && Grouped(role, out) && (out == [] || !out[|out| - 1].MessageItem?)
    && Flatten(out) + PartPieces(textParts) == kept
  }

  lemma MorePart(role: string, out: seq<Item>, textParts: seq<Part>, kept: seq<Piece>, p: Part)
    requires Converting(role, out, textParts, kept)
    ensures Converting(role, out, textParts + [p], kept + [InMessage(p)])
  {
    PartPiecesAppend(textParts, p);
  }

  lemma MoreItem(role: string, out: seq<Item>, textParts: seq<Part>, kept: seq<Piece>, item: Item)
    requires Converting(role, out, textParts, kept) && !item.MessageItem?
    ensures Converting(role, Closed(role, out, textParts) + [item], [], kept + [Alone(item)])
  {
    ClosedHolds(role, out, textParts, kept);
    FlattenAppend(Closed(role, out, textParts), item);
  }

  lemma ClosedHolds(role: string, out: seq<Item>, textParts: seq<Part>, kept: seq<Piece>)
    requires Converting(role, out, textParts, kept)
    ensures Grouped(role, Closed(role, out, textParts)) && Flatten(Closed(role, out, textParts)) == kept
  {
    FlattenAppend(out, MessageItem(role, textParts));
  }

  /** The text parts collected so far become a message item, if there are any. */
  method FlushText(role: string, out: seq<Item>, textParts: seq<Part>) returns (next: seq<Item>)
    ensures next == Closed(role, out, textParts)
  {
    if |textParts| == 0 { return out; }
    return out + [MessageItem(role, textParts)];
  }

  /** The block loop: texts and images gather until something else comes; dropped blocks do not part them. */
  method ConvertBlocks(json: Json, role: string, blocks: seq<Block>) returns (out: seq<Item>)
    ensures Grouped(role, out) && Flatten(out) == Kept(json, role, blocks)
  {
    hide Converting, Grouped, Flatten, Kept, PartPieces, Closed, OutputText;
    out := [];
    var textParts: seq<Part> := [];
    ConvertStart(json, role);
    for i := 0 to |blocks|
      invariant Converting(role, out, textParts, Kept(json, role, blocks[..i]))
    {
      var b := blocks[i];
      ghost var kept := Kept(json, role, blocks[..i]);
      assert blocks[..i + 1] == blocks[..i] + [b];
      KeptAppend(json, role, blocks[..i], b);
      assert kept + [] == kept;
      match b {
        case TextBlock(t) =>
          MorePart(role, out, textParts, kept, TextPart(TextKind(role), t));
          textParts := textParts + [TextPart(TextKind(role), t)];
        case Image(mediaType, data, url) =>
          var u := url;
          if u == "" && data != "" {
            u := "data:" + (if mediaType == "" then "application/octet-stream" else mediaType) + ";base64," + data;
          }
          if u != "" {
            MorePart(role, out, textParts, kept, ImagePart(u));
            textParts := textParts + [ImagePart(u)];
          }
        case ToolUse(id, name, input) =>
          MoreItem(role, out, textParts, kept, FunctionCall(id, id, name, Arguments(json, input)));
          out := FlushText(role, out, textParts);
          textParts := [];
          out := out + [FunctionCall(id, id, name, Arguments(json, input))];
        case ToolResult(toolUseId, id, result, isError) =>
          var flushed := FlushText(role, out, textParts);
          var callId := if toolUseId == "" then id else toolUseId;
          var output := ToolResultOutput(result);
          if isError { output := json.errorBody(output); }
          MoreItem(role, out, textParts, kept, FunctionCallOutput(callId, output));
          out, textParts := flushed + [FunctionCallOutput(callId, output)], [];
        case Thinking(signature) =>
          if signature == "" { continue; }
          MoreItem(role, out, textParts, kept, Reasoning(signature));
          out := FlushText(role, out, textParts);
          textParts := [];
          out := out + [Reasoning(signature)];
        case RedactedThinking => continue;
        case OtherBlock(_) => continue;
      }
    }
    assert blocks[..|blocks|] == blocks;
    ClosedHolds(role, out, textParts, Kept(json, role, blocks));
    out := FlushText(role, out, textParts);
  }

  lemma ConvertStart(json: Json, role: string)
    ensures Converting(role, [], [], Kept(json, role, []))
  {
  }

  function ContentPieces(json: Json, role: string, content: Content): seq<Piece> {
    match content
    case Plain(t) => [InMessage(TextPart(TextKind(role), t))]
    case Blocks(blocks) => Kept(json, role, blocks)
    case Unparsed(raw) => [InMessage(TextPart("input_text", raw))]
  }

  /** Plain or unreadable content is one message with one text; blocks are converted in order. */
  method Convert(json: Json, m: Message) returns (out: seq<Item>)
    ensures Grouped(RoleOf(m.role), out)
    ensures Flatten(out) == ContentPieces(json, RoleOf(m.role), m.content)
  {
    var role := Lower(TrimSpace(m.role));
    if role == "" { role := "user"; }
    match m.content
    case Plain(t) => out := [MessageItem(role, [TextPart(TextKind(role), t)])];
    case Unparsed(raw) => out := [MessageItem(role, [TextPart("input_text", raw)])];
    case Blocks(blocks) => out := ConvertBlocks(json, role, blocks);
  }

  /** Dropping a block changes nothing else: texts on both sides of it share one message. */
  lemma DroppedDoesNotPart(json: Json, role: string, before: seq<Block>, b: Block, after: seq<Block>, x: seq<Item>, y: seq<Item>)
    requires PieceOf(json, role, b).Dropped?
    requires Grouped(role, x) && Flatten(x) == Kept(json, role, before + [b] + after)
    requires Grouped(role, y) && Flatten(y) == Kept(json, role, before + after)
    ensures x == y
  {
    hide Grouped, Flatten, Kept, PieceOf;
    KeptSplit(json, role, before + [b], after);
    KeptSplit(json, role, before, after);
    KeptAppend(json, role, before, b);
    GroupingIsUnique(role, x, y);
  }

  lemma {:induction false} KeptSplit(json: Json, role: string, a: seq<Block>, b: seq<Block>)
    ensures Kept(json, role, a + b) == Kept(json, role, a) + Kept(json, role, b)
    decreases |a|
  {
    if a == [] {
      assert a + b == b;
    } else {
      KeptSplit(json, role, a[1..], b);
      assert (a + b)[1..] == a[1..] + b;
    }
  }
}
